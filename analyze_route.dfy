/**
 * POST /api/transactions/analyze (app/api/transactions/analyze/route.ts):
 * load the transaction, run the analyser, store its violations, and flag
 * the transaction when the capped risk score reaches 40.
 */
module AnalyzeRoute {
  import opened Wrappers
  import opened Types
  import opened Store
  import opened PolicyAnalyzer

  datatype AnalyzeResponse =
    | Failure(status: int, error: string)
    | Analyzed(violationCount: nat, riskScore: int, recommendations: seq<string>)

  /** The score at which the route flags a transaction. */
  const FlagScore: int := 40

  function WithStatus(x: Transaction, s: TransactionStatus): Transaction {
    x.(status := s)
  }

  /** The flagging update: `update({ status: 'flagged' }).eq('id', id)`. */
  function Flag(txs: seq<Transaction>, id: string): seq<Transaction> {
    UpdateWhere(txs, (x: Transaction) => HasId(x, id), (x: Transaction) => WithStatus(x, Flagged))
  }

  /**
   * The lookup `eq('id', id).single()`. The id is the table's primary key,
   * so at most one row matches and `.single()` returns it; the first row
   * with that id is the same row.
   */
  function FindTransaction(txs: seq<Transaction>, id: string): Option<Transaction> {
    FirstWhere(txs, (x: Transaction) => HasId(x, id))
  }

  /** The lookup of an appended row's id finds a row: the appended one, or an earlier one with its id. */
  lemma AppendedFound(txs: seq<Transaction>, row: Transaction)
    ensures FindTransaction(txs + [row], row.id).Some?
  {
    assert HasId((txs + [row])[|txs|], row.id);
  }

  /** A row appended under an id no earlier row has is the one the lookup finds. */
  lemma {:induction false} FreshIdFound(txs: seq<Transaction>, row: Transaction)
    requires forall i :: 0 <= i < |txs| ==> txs[i].id != row.id
    ensures FindTransaction(txs + [row], row.id) == Some(row)
  {
    if txs != [] {
      assert (txs + [row])[1..] == txs[1..] + [row];
      FreshIdFound(txs[1..], row);
    }
  }

  /** The active-rule query: `is_active = true`, in storage order. */
  function ActiveRules(rules: seq<PolicyRule>): (r: seq<PolicyRule>)
    ensures forall i :: 0 <= i < |r| ==> r[i].isActive && r[i] in rules
    ensures forall i :: 0 <= i < |rules| && rules[i].isActive ==> rules[i] in r
  {
    SelectWhere(rules, (x: PolicyRule) => x.isActive)
  }

  /**
   * The handler. `body` is None when the request body is not JSON (the
   * thrown error answers 500); `rulesFetched` says whether the active-rule
   * query yielded data; `saved` and `flagged` are the outcomes of the two
   * writes, whose errors the handler does not look at.
   */
  method Post(db: Db, body: Option<Record>, rulesFetched: bool, now: int, hour: int, weekday: int,
              fmt: Formatting, saved: bool, flagWritten: bool)
    returns (resp: AnalyzeResponse, ghost analysis: Analysis)
    modifies db`violations, db`transactions
    ensures body.None? ==> resp == Failure(500, "Internal server error")
    ensures body.Some? && Falsy(Lookup(body.value, "transactionId")) ==> resp == Failure(400, "Transaction ID is required")
    ensures resp.Failure? ==> db.violations == old(db.violations) && db.transactions == old(db.transactions)
    ensures body.Some? && !Falsy(Lookup(body.value, "transactionId")) ==>
      var v := body.value["transactionId"];
      var found := if v.Str? then FindTransaction(old(db.transactions), v.s) else None;
      if found.None? then
        resp == Failure(404, "Transaction not found")
      else
        var ctx := Context(old(db.transactions), db.blacklist, now, hour, weekday, fmt);
        && analysis.violations == (if rulesFetched then Violations(ActiveRules(db.rules), found.value, ctx) else [])
        && analysis.riskScore == Min(ScoreSum(analysis.violations), 100)
        && analysis.recommendations == Recommendations(analysis.violations)
        && resp == Analyzed(|analysis.violations|, analysis.riskScore, analysis.recommendations)
        && db.violations == old(db.violations) + (if analysis.violations != [] && saved then analysis.violations else [])
        && db.transactions == (if analysis.violations != [] && analysis.riskScore >= FlagScore && flagWritten
                               then Flag(old(db.transactions), v.s)
                               else old(db.transactions))
    ensures db.transactions == old(db.transactions)
            || (body.Some? && "transactionId" in body.value && body.value["transactionId"].Str?
                && db.transactions == Flag(old(db.transactions), body.value["transactionId"].s))
    ensures old(db.violations) <= db.violations
  {
    analysis := Analysis([], 0, []);
    if body.None? {
      return Failure(500, "Internal server error"), analysis;
    }
    var transactionId := Lookup(body.value, "transactionId");
    if Falsy(transactionId) {
      return Failure(400, "Transaction ID is required"), analysis;
    }
    if !transactionId.value.Str? {
      return Failure(404, "Transaction not found"), analysis;
    }
    var id := transactionId.value.s;
    var found := FindTransaction(db.transactions, id);
    if found.None? {
      return Failure(404, "Transaction not found"), analysis;
    }
    var transaction := found.value;
    var ctx := Context(db.transactions, db.blacklist, now, hour, weekday, fmt);
    var rules := if rulesFetched then Some(ActiveRules(db.rules)) else None;
    var a := AnalyzeTransaction(rules, transaction, ctx);
    analysis := a;
    if |a.violations| > 0 {
      if saved {
        db.violations := db.violations + a.violations;
      }
      if a.riskScore >= FlagScore && flagWritten {
        db.transactions := Flag(db.transactions, id);
      }
    }
    return Analyzed(|a.violations|, a.riskScore, a.recommendations), analysis;
  }

  /** Flagging rewrites only the status of the transaction with that id, whatever its current status. */
  lemma {:induction false} FlagTouchesOnlyStatusOfId(txs: seq<Transaction>, id: string)
    ensures var r := Flag(txs, id);
      && |r| == |txs|
      && (forall i :: 0 <= i < |txs| && txs[i].id == id ==> r[i] == txs[i].(status := Flagged))
      && (forall i :: 0 <= i < |txs| && txs[i].id != id ==> r[i] == txs[i])
  {
  }
}
