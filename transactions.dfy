/**
 * The transaction mutations of hooks/use-transactions.ts: a maker creates a
 * transaction, which is stored as pending and sent for analysis; a checker
 * approves or rejects it, and each successful decision appends one audit
 * row. Also the query that the transaction list builds from its URL
 * parameters.
 */
module Transactions {
  import opened Wrappers
  import opened Types
  import opened Constants
  import opened Store
  import AnalyzeRoute
  import PolicyAnalyzer

  /** How a mutation ends: it returns, or it throws the store's error. */
  datatype Outcome = Done | Threw

  /** The row a decision writes: status, reviewer, notes and update time; nothing else. */
  function Decided(x: Transaction, status: TransactionStatus, reviewer: string, notes: Option<string>, now: int): Transaction {
    x.(status := status, checkedBy := Some(reviewer), checkerNotes := notes, updatedAt := now)
  }

  /** `update(...).eq('id', id)` with a decision: only the id is filtered on. */
  function ApplyDecision(txs: seq<Transaction>, id: string, status: TransactionStatus, reviewer: string,
                         notes: Option<string>, now: int): seq<Transaction> {
    UpdateWhere(txs, (x: Transaction) => HasId(x, id), (x: Transaction) => Decided(x, status, reviewer, notes, now))
  }

  /** `notes || null`: an absent or empty note is stored as null. */
  function NotesOrNull(notes: Option<string>): (r: Option<string>)
    ensures r.None? <==> notes.None? || notes.value == ""
    ensures r.Some? ==> r == notes
  {
    if notes.Some? && notes.value != "" then notes else None
  }

  /** The audit snapshot `{ status, checker_notes: notes }`; an undefined note leaves its key out. */
  function DecisionValues(status: TransactionStatus, notes: Option<string>): (r: Record)
    ensures "status" in r && r["status"] == Str(StatusName(status))
    ensures "checker_notes" in r <==> notes.Some?
    ensures notes.Some? ==> r["checker_notes"] == Str(notes.value)
  {
    if notes.Some? then map["status" := Str(StatusName(status)), "checker_notes" := Str(notes.value)]
    else map["status" := Str(StatusName(status))]
  }

  function DecisionAudit(action: string, id: string, reviewer: string, status: TransactionStatus,
                         notes: Option<string>): AuditLog {
    AuditLog(reviewer, action, "transaction", id, None, Some(DecisionValues(status, notes)), None)
  }

  /**
   * `approveTransaction`. `updateOk` is the outcome of the status update:
   * on an error the function throws before any audit row is written.
   */
  method ApproveTransaction(db: Db, transactionId: string, userId: string, notes: Option<string>, now: int,
                            updateOk: bool) returns (outcome: Outcome)
    modifies db`transactions, db`audit
    ensures !updateOk ==> outcome == Threw && db.transactions == old(db.transactions) && db.audit == old(db.audit)
    ensures updateOk ==> outcome == Done
    ensures updateOk ==>
      db.transactions == ApplyDecision(old(db.transactions), transactionId, Approved, userId, NotesOrNull(notes), now)
    ensures updateOk ==>
      db.audit == old(db.audit) + [DecisionAudit(TransactionApproved, transactionId, userId, Approved, notes)]
  {
    if !updateOk {
      return Threw;
    }
    db.transactions := ApplyDecision(db.transactions, transactionId, Approved, userId, NotesOrNull(notes), now);
    db.AppendAudit(DecisionAudit(TransactionApproved, transactionId, userId, Approved, notes));
    return Done;
  }

  /** `rejectTransaction`: as approve, but the notes are stored verbatim, with no check that they are not blank. */
  method RejectTransaction(db: Db, transactionId: string, userId: string, notes: string, now: int,
                           updateOk: bool) returns (outcome: Outcome)
    modifies db`transactions, db`audit
    ensures !updateOk ==> outcome == Threw && db.transactions == old(db.transactions) && db.audit == old(db.audit)
    ensures updateOk ==> outcome == Done
    ensures updateOk ==>
      db.transactions == ApplyDecision(old(db.transactions), transactionId, Rejected, userId, Some(notes), now)
    ensures updateOk ==>
      db.audit == old(db.audit) + [DecisionAudit(TransactionRejected, transactionId, userId, Rejected, Some(notes))]
  {
    if !updateOk {
      return Threw;
    }
    db.transactions := ApplyDecision(db.transactions, transactionId, Rejected, userId, Some(notes), now);
    db.AppendAudit(DecisionAudit(TransactionRejected, transactionId, userId, Rejected, Some(notes)));
    return Done;
  }

  /**
   * A decision sets the status of every row with that id whatever its
   * previous status, and leaves every other row as it was.
   */
  lemma DecisionIgnoresPriorStatus(txs: seq<Transaction>, id: string, status: TransactionStatus, reviewer: string,
                                   notes: Option<string>, now: int)
    ensures var r := ApplyDecision(txs, id, status, reviewer, notes, now);
      && |r| == |txs|
      && (forall i :: 0 <= i < |txs| && txs[i].id == id ==>
            r[i].status == status && r[i].checkedBy == Some(reviewer) && r[i].checkerNotes == notes
            && r[i].amount == txs[i].amount && r[i].createdBy == txs[i].createdBy)
      && (forall i :: 0 <= i < |txs| && txs[i].id != id ==> r[i] == txs[i])
  {
  }

  /** A later decision on the same id overwrites an earlier one entirely: approve-then-reject is reject. */
  lemma LaterDecisionOverwrites(txs: seq<Transaction>, id: string,
                                s1: TransactionStatus, u1: string, n1: Option<string>, t1: int,
                                s2: TransactionStatus, u2: string, n2: Option<string>, t2: int)
    ensures ApplyDecision(ApplyDecision(txs, id, s1, u1, n1, t1), id, s2, u2, n2, t2)
         == ApplyDecision(txs, id, s2, u2, n2, t2)
  {
    var once := ApplyDecision(txs, id, s1, u1, n1, t1);
    var lhs := ApplyDecision(once, id, s2, u2, n2, t2);
    var rhs := ApplyDecision(txs, id, s2, u2, n2, t2);
    forall i | 0 <= i < |txs|
      ensures lhs[i] == rhs[i]
    {
      assert once[i].id == txs[i].id;
    }
  }

  /** The fields `createTransaction` receives; `description?` may be undefined. */
  datatype NewTransaction = NewTransaction(
    transactionType: TransactionType,
    amount: real,
    currency: string,
    sourceAccount: string,
    destinationAccount: string,
    description: Option<string>,
    createdBy: string)

  /** The row the insert stores: the input with status pending, whatever else was sent. */
  function InsertedRow(data: NewTransaction, id: string, now: int): (t: Transaction)
    ensures t.status == Pending && t.id == id && t.checkedBy.None? && t.checkerNotes.None?
    ensures t.amount == data.amount && t.createdBy == data.createdBy && t.destinationAccount == data.destinationAccount
  {
    Transaction(id, data.transactionType, data.amount, data.currency, data.sourceAccount, data.destinationAccount,
                data.description, Pending, data.createdBy, None, now, now, None)
  }

  /**
   * `createTransaction`. `newId` and `now` are what the database assigns;
   * `insertOk` is the outcome of the insert (an error throws and skips the
   * analysis). On success the new id is posted to the analysis route:
   * `fetchOk` is false when that `fetch` rejects before the route runs,
   * which makes the call throw after the row is stored. Otherwise the
   * route runs at its own clock `analysisNow`, and its outcomes are the
   * remaining parameters; a non-2xx response does not make `fetch` reject.
   */
  method CreateTransaction(db: Db, data: NewTransaction, newId: string, now: int, insertOk: bool,
                           fetchOk: bool, analysisNow: int, rulesFetched: bool, hour: int, weekday: int,
                           fmt: PolicyAnalyzer.Formatting, saved: bool, flagWritten: bool)
    returns (outcome: Outcome, created: Option<Transaction>)
    modifies db`transactions, db`violations
    ensures !insertOk ==> outcome == Threw && created.None?
                          && db.transactions == old(db.transactions) && db.violations == old(db.violations)
    ensures insertOk && !fetchOk ==>
      outcome == Threw && created.None?
      && db.transactions == old(db.transactions) + [InsertedRow(data, newId, now)]
      && db.violations == old(db.violations)
    ensures insertOk && fetchOk ==> outcome == Done && created == Some(InsertedRow(data, newId, now))
    ensures insertOk && fetchOk && newId == "" ==>
      db.transactions == old(db.transactions) + [InsertedRow(data, newId, now)] && db.violations == old(db.violations)
    ensures insertOk && fetchOk && newId != "" ==>
      var inserted := old(db.transactions) + [InsertedRow(data, newId, now)];
      var found := AnalyzeRoute.FindTransaction(inserted, newId);
      && found.Some?
      && var vs := if rulesFetched
                   then PolicyAnalyzer.Violations(AnalyzeRoute.ActiveRules(db.rules), found.value,
                                                  PolicyAnalyzer.Context(inserted, db.blacklist, analysisNow, hour, weekday, fmt))
                   else [];
         && db.violations == old(db.violations) + (if vs != [] && saved then vs else [])
         && db.transactions == (if vs != [] && PolicyAnalyzer.Min(PolicyAnalyzer.ScoreSum(vs), 100) >= AnalyzeRoute.FlagScore && flagWritten
                                then AnalyzeRoute.Flag(inserted, newId)
                                else inserted)
  {
    if !insertOk {
      return Threw, None;
    }
    var row := InsertedRow(data, newId, now);
    AnalyzeRoute.AppendedFound(db.transactions, row);
    db.transactions := db.transactions + [row];
    if !fetchOk {
      return Threw, None;
    }
    var body := map["transactionId" := Str(newId)];
    assert body["transactionId"] == Str(newId);
    var resp, analysis := AnalyzeRoute.Post(db, Some(body), rulesFetched, analysisNow,
                                            hour, weekday, fmt, saved, flagWritten);
    return Done, Some(row);
  }

  /** The query `fetchTransactions` builds. */
  datatype TxQuery = TxQuery(
    status: Option<string>,
    createdBy: Option<string>,
    limit: Option<string>,
    orderBy: string,
    ascending: bool)

  /** `params.get(name)`: the value, or null when the parameter is absent. */
  function Param(params: map<string, string>, name: string): Option<string> {
    if name in params then Some(params[name]) else None
  }

  /**
   * The query of `fetchTransactions`, reassigned through its chain of ifs.
   * An empty parameter adds no filter.
   */
  method BuildTransactionsQuery(params: map<string, string>) returns (q: TxQuery)
    ensures q.status.Some? <==> Param(params, "status").Some? && Param(params, "status").value != ""
    ensures q.status.Some? ==> q.status == Param(params, "status")
    ensures q.createdBy.Some? <==> Param(params, "created_by").Some? && Param(params, "created_by").value != ""
    ensures q.createdBy.Some? ==> q.createdBy == Param(params, "created_by")
    ensures q.limit.Some? <==> Param(params, "limit").Some? && Param(params, "limit").value != ""
    ensures q.limit.Some? ==> q.limit == Param(params, "limit")
    ensures q.orderBy == (if Param(params, "order_by").Some? && Param(params, "order_by").value != ""
                          then Param(params, "order_by").value else "created_at")
    ensures q.ascending <==> Param(params, "order_dir") == Some("asc")
  {
    var status := Param(params, "status");
    var createdBy := Param(params, "created_by");
    var limit := Param(params, "limit");
    var orderByParam := Param(params, "order_by");
    var orderBy := if orderByParam.Some? && orderByParam.value != "" then orderByParam.value else "created_at";
    var orderDir := Param(params, "order_dir") == Some("asc");

    q := TxQuery(None, None, None, "", false);
    if status.Some? && status.value != "" {
      q := q.(status := status);
    }
    if createdBy.Some? && createdBy.value != "" {
      q := q.(createdBy := createdBy);
    }
    if limit.Some? && limit.value != "" {
      q := q.(limit := limit);
    }
    q := q.(orderBy := orderBy, ascending := orderDir);
  }
}
