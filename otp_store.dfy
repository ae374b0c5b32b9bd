/**
 * The in-memory challenge store of lib/otp-store.ts: challenges keyed by
 * lower-cased email, and the periodic removal of expired ones.
 */
module OtpStore {
  import opened Wrappers
  import opened Strings

  /** A stored challenge; the sign-up payload is optional here. */
  datatype Challenge = Challenge(
    otp: string,
    expiresAt: int,
    attempts: int,
    firstName: Option<string>,
    lastName: Option<string>,
    password: Option<string>)

  /** The key of an email: its lower-case form. */
  function Key(email: string): string {
    ToLower(email)
  }

  /** Whether cleanup at time `now` keeps a challenge: only `now > expiresAt` removes it. */
  predicate Live(c: Challenge, now: int) {
    !(now > c.expiresAt)
  }

  /** The entries cleanup keeps at `now`, each with its data unchanged. */
  function Unexpired(m: map<string, Challenge>, now: int): (r: map<string, Challenge>)
    ensures forall k :: k in r <==> k in m && Live(m[k], now)
    ensures forall k :: k in r ==> r[k] == m[k]
  {
    map k | k in m && Live(m[k], now) :: m[k]
  }

  /** The entries of `m` with the keys in `done` already examined by cleanup at `now`. */
  function Swept(m: map<string, Challenge>, done: set<string>, now: int): map<string, Challenge> {
    map k | k in m && (k !in done || Live(m[k], now)) :: m[k]
  }

  class Store {
    var store: map<string, Challenge>

    constructor ()
      ensures store == map[]
    {
      store := map[];
    }

    /** `set`: the challenge is stored under the lower-cased email, replacing any earlier one. */
    method Set(email: string, data: Challenge)
      modifies this
      ensures store == old(store)[Key(email) := data]
    {
      store := store[Key(email) := data];
    }

    /** `get`: the challenge under the lower-cased email, if any. */
    method Get(email: string) returns (r: Option<Challenge>)
      ensures r.Some? <==> Key(email) in store
      ensures r.Some? ==> r.value == store[Key(email)]
    {
      var k := Key(email);
      if k in store {
        return Some(store[k]);
      }
      return None;
    }

    /** `delete`: true iff there was a challenge under the lower-cased email; it is gone afterwards. */
    method Delete(email: string) returns (removed: bool)
      modifies this
      ensures removed <==> Key(email) in old(store)
      ensures store == old(store) - {Key(email)}
    {
      var k := Key(email);
      removed := k in store;
      store := store - {k};
    }

    /** `has`. */
    method Has(email: string) returns (present: bool)
      ensures present <==> Key(email) in store
    {
      present := Key(email) in store;
    }

    /** `cleanup`, at time `now`: one pass over the entries, deleting each expired one in place. */
    method Cleanup(now: int)
      modifies this
      ensures store == Unexpired(old(store), now)
    {
      var keys := store.Keys;
      var remaining := keys;
      while remaining != {}
        invariant remaining <= keys
        invariant store == Swept(old(store), keys - remaining, now)
        decreases |remaining|
      {
        var k :| k in remaining;
        assert k in store && store[k] == old(store)[k];
        if now > store[k].expiresAt {
          store := store - {k};
        }
        remaining := remaining - {k};
        assert store == Swept(old(store), keys - remaining, now);
      }
      assert keys - remaining == old(store).Keys;
    }
  }

  /** Keys ignore case: a challenge set under one spelling of an email is found under another. */
  lemma SetThenGetAnyCase(m: map<string, Challenge>, e1: string, e2: string, d: Challenge)
    requires ToLower(e1) == ToLower(e2)
    ensures Key(e2) in m[Key(e1) := d] && m[Key(e1) := d][Key(e2)] == d
  {
  }

  /** A second set under the same key overwrites the first. */
  lemma SecondSetOverwrites(m: map<string, Challenge>, email: string, d1: Challenge, d2: Challenge)
    ensures m[Key(email) := d1][Key(email) := d2] == m[Key(email) := d2]
  {
  }

  /** An entry whose expiry is exactly `now` survives cleanup. */
  lemma ExpiryEqualToNowSurvives(m: map<string, Challenge>, k: string, now: int)
    requires k in m && m[k].expiresAt == now
    ensures k in Unexpired(m, now)
  {
  }

  /** Cleanup is idempotent, and a later cleanup keeps no entry an earlier one removed. */
  lemma CleanupIdempotentAndMonotone(m: map<string, Challenge>, now: int, later: int)
    requires now <= later
    ensures Unexpired(Unexpired(m, now), now) == Unexpired(m, now)
    ensures Unexpired(m, later).Keys <= Unexpired(m, now).Keys
  {
  }
}
