/**
 * The database tables the core reads and writes, held in one mutable
 * object. A table is a sequence of rows in storage order; an insert appends,
 * an `update(...).eq(...)` rewrites every row its filter matches (none when
 * the id is unknown, which is not an error), and a `delete().eq(...)` drops
 * the matching rows.
 */
module Store {
  import opened Wrappers
  import opened Types

  /** `update(...)` over the rows that `matches` selects. */
  function UpdateWhere<T>(rows: seq<T>, matches: T -> bool, change: T -> T): (r: seq<T>)
    ensures |r| == |rows|
    ensures forall i :: 0 <= i < |rows| ==> r[i] == (if matches(rows[i]) then change(rows[i]) else rows[i])
  {
    if rows == [] then []
    else [if matches(rows[0]) then change(rows[0]) else rows[0]] + UpdateWhere(rows[1..], matches, change)
  }

  /** `delete()` of the rows that `matches` selects; the others keep their order. */
  function DeleteWhere<T>(rows: seq<T>, matches: T -> bool): (r: seq<T>)
    ensures |r| <= |rows|
    ensures forall i :: 0 <= i < |r| ==> r[i] in rows && !matches(r[i])
    ensures forall i :: 0 <= i < |rows| && !matches(rows[i]) ==> rows[i] in r
  {
    if rows == [] then []
    else if matches(rows[0]) then DeleteWhere(rows[1..], matches)
    else [rows[0]] + DeleteWhere(rows[1..], matches)
  }

  /** A `select` with a filter: the matching rows in storage order. */
  function SelectWhere<T>(rows: seq<T>, matches: T -> bool): (r: seq<T>)
    ensures |r| <= |rows|
    ensures forall i :: 0 <= i < |r| ==> r[i] in rows && matches(r[i])
    ensures forall i :: 0 <= i < |rows| && matches(rows[i]) ==> rows[i] in r
  {
    if rows == [] then []
    else if matches(rows[0]) then [rows[0]] + SelectWhere(rows[1..], matches)
    else SelectWhere(rows[1..], matches)
  }

  /** `.limit(1).single()`: the first matching row, or None when no row matches. */
  function FirstWhere<T>(rows: seq<T>, matches: T -> bool): (r: Option<T>)
    ensures r.None? <==> forall i :: 0 <= i < |rows| ==> !matches(rows[i])
    ensures r.Some? ==> r.value in rows && matches(r.value)
  {
    if rows == [] then None
    else if matches(rows[0]) then Some(rows[0])
    else FirstWhere(rows[1..], matches)
  }

  /** Updating twice with an involution restores every row. */
  lemma {:induction false} UpdateTwiceRestores<T>(rows: seq<T>, matches: T -> bool, change: T -> T)
    requires forall x :: matches(change(x)) == matches(x) && change(change(x)) == x
    ensures UpdateWhere(UpdateWhere(rows, matches, change), matches, change) == rows
  {
    var once := UpdateWhere(rows, matches, change);
    var twice := UpdateWhere(once, matches, change);
    assert forall i :: 0 <= i < |rows| ==> twice[i] == rows[i] by {
      forall i | 0 <= i < |rows|
        ensures twice[i] == rows[i]
      {
        assert once[i] == (if matches(rows[i]) then change(rows[i]) else rows[i]);
      }
    }
  }

  /** The `.eq('id', id)` filter on transactions. */
  predicate HasId(x: Transaction, id: string) {
    x.id == id
  }

  /**
   * `.single()` on a filter: the matching row when there is exactly one;
   * None when there is none, and also when there are several (an error).
   */
  function Single<T(==)>(rows: seq<T>, matches: T -> bool): (r: Option<T>)
    ensures r.Some? ==> r.value in rows && matches(r.value)
    ensures r.Some? ==> forall i :: 0 <= i < |rows| && matches(rows[i]) ==> rows[i] == r.value
    ensures r.None? ==> (forall i :: 0 <= i < |rows| ==> !matches(rows[i]))
                        || exists i, j :: 0 <= i < j < |rows| && matches(rows[i]) && matches(rows[j])
  {
    var found := SelectWhere(rows, matches);
    if |found| == 1 then Some(found[0])
    else
      SeveralMatches(rows, matches);
      None
  }

  /** Two selected rows come from two different positions. */
  lemma {:induction false} SeveralMatches<T>(rows: seq<T>, matches: T -> bool)
    ensures |SelectWhere(rows, matches)| >= 2 ==>
      exists i, j :: 0 <= i < j < |rows| && matches(rows[i]) && matches(rows[j])
  {
    if |SelectWhere(rows, matches)| < 2 {
    } else if matches(rows[0]) {
      var rest := SelectWhere(rows[1..], matches);
      assert |rest| >= 1;
      var j :| 0 <= j < |rows[1..]| && matches(rows[1..][j]) by {
        assert rest[0] in rows[1..];
      }
      assert matches(rows[0]) && matches(rows[j + 1]);
    } else {
      SeveralMatches(rows[1..], matches);
      var i, j :| 0 <= i < j < |rows[1..]| && matches(rows[1..][i]) && matches(rows[1..][j]);
      assert matches(rows[i + 1]) && matches(rows[j + 1]);
    }
  }

  /** The one application of a user, as `.single()` finds it. */
  function OwnApplication(rows: seq<KycApplication>, userId: string): (r: Option<KycApplication>)
    ensures r.Some? ==> r.value in rows && r.value.userId == userId
  {
    Single(rows, (k: KycApplication) => k.userId == userId)
  }

  /** The tables of the Supabase database that the core touches. */
  class Db {
    var transactions: seq<Transaction>
    var rules: seq<PolicyRule>
    var violations: seq<PolicyViolation>
    var blacklist: seq<BlacklistEntry>
    var audit: seq<AuditLog>
    var profiles: seq<Profile>
    var kyc: seq<KycApplication>

    constructor ()
      ensures transactions == [] && rules == [] && violations == [] && blacklist == []
      ensures audit == [] && profiles == [] && kyc == []
    {
      transactions := [];
      rules := [];
      violations := [];
      blacklist := [];
      audit := [];
      profiles := [];
      kyc := [];
    }

    /** An audit insert. The audit table is append-only: no operation of the core rewrites it. */
    method AppendAudit(row: AuditLog)
      modifies this`audit
      ensures audit == old(audit) + [row]
    {
      audit := audit + [row];
    }
  }
}
