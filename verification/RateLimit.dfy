/** The sliding-window rate limit: a sorted set per client, and the list of attempts it stands for. */
module RateLimit {
  import opened Models

  // ---------------------------------------------------------------- the specification: a list of attempts

  /** How many attempts are later than `after`. */
  function CountRecent(log: seq<int>, after: int): nat {
    if log == [] then 0 else CountRecent(log[..|log| - 1], after) + if log[|log| - 1] > after then 1 else 0
  }

  /** An attempt passes when it is among the first `max` of its window, rejected ones included. */
  predicate Admits(log: seq<int>, now: int, windowMs: int, max: nat) {
    CountRecent(log, now - windowMs) + 1 <= max
  }

  predicate Admitted(log: seq<int>, i: nat, windowMs: int, max: nat)
    requires i < |log|
  {
    Admits(log[..i], log[i], windowMs, max)
  }

  /** The attempts of the first `n` that were admitted at a time in `(lo, hi]`. */
  ghost function AdmittedIn(log: seq<int>, n: nat, lo: int, hi: int, windowMs: int, max: nat): nat
    requires n <= |log|
  {
    if n == 0 then 0
    else AdmittedIn(log, n - 1, lo, hi, windowMs, max)
         + if lo < log[n - 1] <= hi && Admitted(log, n - 1, windowMs, max) then 1 else 0
  }

  lemma {:induction false} CountRecentMonotone(log: seq<int>, earlier: int, later: int)
    requires earlier <= later
    ensures CountRecent(log, later) <= CountRecent(log, earlier)
  {
    if log == [] {
    } else {
      CountRecentMonotone(log[..|log| - 1], earlier, later);
    }
  }

  lemma {:induction false} AdmittedAreRecent(log: seq<int>, n: nat, lo: int, hi: int, windowMs: int, max: nat)
    requires n <= |log|
    ensures AdmittedIn(log, n, lo, hi, windowMs, max) <= CountRecent(log[..n], lo)
  {
    if n == 0 {
    } else {
      AdmittedAreRecent(log, n - 1, lo, hi, windowMs, max);
      assert log[..n][..n - 1] == log[..n - 1];
    }
  }

  /** No window of the configured length admits more than `max` attempts, wherever it lies. */
  lemma {:induction false} WindowBound(log: seq<int>, n: nat, end: int, windowMs: int, max: nat)
    requires n <= |log|
    ensures AdmittedIn(log, n, end - windowMs, end, windowMs, max) <= max
  {
    if n == 0 {
    } else {
      WindowBound(log, n - 1, end, windowMs, max);
      var last := log[n - 1];
      if end - windowMs < last <= end && Admitted(log, n - 1, windowMs, max) {
        AdmittedAreRecent(log, n - 1, end - windowMs, end, windowMs, max);
        CountRecentMonotone(log[..n - 1], last - windowMs, end - windowMs);
      }
    }
  }

  // ---------------------------------------------------------------- the sorted set

  datatype Command = Connect | Trim | Add | Count | Expire

  /** A failed EXPIRE is only logged; any other failed command lets the request through. */
  predicate FailsOpen(faults: set<Command>) {
    Connect in faults || Trim in faults || Add in faults || Count in faults
  }

  predicate IsExpired(expiresAt: Option<int>, now: int) {
    expiresAt.Some? && expiresAt.value <= now
  }

  /** Redis drops a key whose expiry has passed. */
  function Unexpired(entries: seq<int>, expiresAt: Option<int>, now: int): seq<int> {
    if IsExpired(expiresAt, now) then [] else entries
  }

  /** ZREMRANGEBYSCORE from minus infinity to `upTo`, inclusive. */
  function Trimmed(entries: seq<int>, upTo: int): seq<int> {
    if entries == [] then []
    else Trimmed(entries[..|entries| - 1], upTo) + if entries[|entries| - 1] > upTo then [entries[|entries| - 1]]
        else []
  }

  lemma {:induction false} TrimmedCount(entries: seq<int>, upTo: int, after: int)
    ensures |Trimmed(entries, upTo)| == CountRecent(entries, upTo)
    ensures upTo <= after ==> CountRecent(Trimmed(entries, upTo), after) == CountRecent(entries, after)
  {
    if entries == [] {
    } else {
      var init, last := entries[..|entries| - 1], entries[|entries| - 1];
      TrimmedCount(init, upTo, after);
      if last > upTo {
        assert (Trimmed(init, upTo) + [last])[..|Trimmed(init, upTo)|] == Trimmed(init, upTo);
      } else {
        assert Trimmed(entries, upTo) == Trimmed(init, upTo);
      }
    }
  }

  lemma {:induction false} TrimmedMembers(entries: seq<int>, upTo: int, e: int)
    ensures e in Trimmed(entries, upTo) <==> e in entries && e > upTo
  {
    if entries == [] {
    } else {
      var init, last := entries[..|entries| - 1], entries[|entries| - 1];
      assert entries == init + [last];
      TrimmedMembers(init, upTo, e);
    }
  }

  lemma {:induction false} NoneRecent(entries: seq<int>, after: int)
    requires forall e :: e in entries ==> e <= after
    ensures CountRecent(entries, after) == 0
  {
    if entries == [] {
    } else {
      var init, last := entries[..|entries| - 1], entries[|entries| - 1];
      assert last in entries && forall e :: e in init ==> e in entries;
      NoneRecent(init, after);
    }
  }

  /**
   The key still counts every attempt that can matter: for every window that ends at or after
   `clock`, the time of the last check, it agrees with the list.
   */
  ghost predicate Agrees(entries: seq<int>, log: seq<int>, clock: int, windowMs: nat) {
    && (forall e :: e in entries ==> e <= clock)
    && (forall after :: after >= clock - windowMs ==> CountRecent(entries, after) == CountRecent(log, after))
  }

  /** The key does not expire before every entry has left the window. */
  ghost predicate ExpiresLate(entries: seq<int>, expiresAt: Option<int>, windowMs: nat) {
    expiresAt.Some? ==> forall e :: e in entries ==> e + windowMs <= expiresAt.value
  }

  ghost predicate Represents(entries: seq<int>, expiresAt: Option<int>, log: seq<int>, clock: int, windowMs: nat) {
    Agrees(entries, log, clock, windowMs) && ExpiresLate(entries, expiresAt, windowMs)
  }

  /** Neither the trim nor the expiry loses an attempt of the window that ends now. */
  lemma SeenIsRecent(entries: seq<int>, expiresAt: Option<int>, log: seq<int>, clock: int, now: int, windowMs: nat,
                     after: int)
    requires Represents(entries, expiresAt, log, clock, windowMs) && clock <= now
    requires after >= now - windowMs
    ensures |Trimmed(Unexpired(entries, expiresAt, now), now - windowMs)| == CountRecent(log, now - windowMs)
    ensures CountRecent(Trimmed(Unexpired(entries, expiresAt, now), now - windowMs), after) == CountRecent(log, after)
    ensures CountRecent(Unexpired(entries, expiresAt, now), after) == CountRecent(log, after)
  {
    TrimmedCount(Unexpired(entries, expiresAt, now), now - windowMs, after);
    if IsExpired(expiresAt, now) {
      NoneRecent(entries, now - windowMs);
      NoneRecent(entries, after);
    }
  }

  lemma UnexpiredRepresents(entries: seq<int>, expiresAt: Option<int>, log: seq<int>, clock: int, now: int,
                            windowMs: nat)
    requires Represents(entries, expiresAt, log, clock, windowMs) && clock <= now
    ensures Represents(Unexpired(entries, expiresAt, now), if IsExpired(expiresAt, now) then None
        else expiresAt, log, now, windowMs)
  {
    forall after | after >= now - windowMs
      ensures CountRecent(Unexpired(entries, expiresAt, now), after) == CountRecent(log, after)
    {
      SeenIsRecent(entries, expiresAt, log, clock, now, windowMs, after);
    }
  }

  lemma TrimmedAgrees(live: seq<int>, log: seq<int>, now: int, windowMs: nat)
    requires Agrees(live, log, now, windowMs)
    ensures Agrees(Trimmed(live, now - windowMs), log, now, windowMs)
  {
    var trimmed := Trimmed(live, now - windowMs);
    forall after | after >= now - windowMs ensures CountRecent(trimmed, after) == CountRecent(log, after) {
      TrimmedCount(live, now - windowMs, after);
    }
    forall e | e in trimmed ensures e <= now {
      TrimmedMembers(live, now - windowMs, e);
    }
  }

  lemma TrimmedExpiresLate(live: seq<int>, expiresAt: Option<int>, upTo: int, windowMs: nat)
    requires ExpiresLate(live, expiresAt, windowMs)
    ensures ExpiresLate(Trimmed(live, upTo), expiresAt, windowMs)
  {
    forall e | e in Trimmed(live, upTo) ensures e in live {
      TrimmedMembers(live, upTo, e);
    }
  }

  /** After an add the set again agrees with the list, whatever becomes of the expiry. */
  lemma AddedAgrees(seen: seq<int>, log: seq<int>, now: int, windowMs: nat)
    requires Agrees(seen, log, now, windowMs)
    ensures Agrees(seen + [now], log + [now], now, windowMs)
  {
    forall after | after >= now - windowMs ensures CountRecent(seen + [now], after) == CountRecent(log + [now], after) {
      assert (seen + [now])[..|seen|] == seen && (log + [now])[..|log|] == log;
    }
  }

  /** The set after the commands that were reached; the first that fails ends the check. */
  function SetAfter(entries: seq<int>, expiresAt: Option<int>, now: int, windowMs: nat,
                    faults: set<Command>): seq<int> {
    if Connect in faults then entries
    else
      var live := Unexpired(entries, expiresAt, now);
      if Trim in faults then live
      else if Add in faults then Trimmed(live, now - windowMs)
      else Trimmed(live, now - windowMs) + [now]
  }

  lemma SetAfterMembers(entries: seq<int>, expiresAt: Option<int>, now: int, windowMs: nat, faults: set<Command>)
    requires Connect !in faults && Trim !in faults && Add !in faults
    ensures forall e :: e in SetAfter(entries, expiresAt, now, windowMs, faults) <==>
      e == now || (e in entries && e > now - windowMs && !IsExpired(expiresAt, now))
  {
    var live := Unexpired(entries, expiresAt, now);
    forall e ensures e in SetAfter(entries, expiresAt, now, windowMs, faults) <==>
        e == now || (e in entries && e > now - windowMs && !IsExpired(expiresAt, now))
    {
      TrimmedMembers(live, now - windowMs, e);
      assert e in Trimmed(live, now - windowMs) + [now] <==> e == now || e in Trimmed(live, now - windowMs);
    }
  }

  function ExpiryAfter(expiresAt: Option<int>, now: int, windowMs: nat, faults: set<Command>): Option<int> {
    if Connect in faults then expiresAt
    else if !FailsOpen(faults) && Expire !in faults then Some(now + windowMs)
    else if IsExpired(expiresAt, now) then None
    else expiresAt
  }

  /** The attempt was recorded: the ZADD was reached and did not fail. */
  predicate Recorded(faults: set<Command>) {
    Connect !in faults && Trim !in faults && Add !in faults
  }

  function LogAfter(log: seq<int>, now: int, faults: set<Command>): seq<int> {
    if Recorded(faults) then log + [now] else log
  }

  /** Whatever commands fail, the set still agrees with the list of the attempts that were recorded. */
  lemma CheckAgrees(entries: seq<int>, expiresAt: Option<int>, log: seq<int>, clock: int, now: int, windowMs: nat,
                    faults: set<Command>)
    requires Represents(entries, expiresAt, log, clock, windowMs) && clock <= now
    ensures Agrees(SetAfter(entries, expiresAt, now, windowMs, faults), LogAfter(log, now, faults), now, windowMs)
  {
    var live := Unexpired(entries, expiresAt, now);
    UnexpiredRepresents(entries, expiresAt, log, clock, now, windowMs);
    TrimmedAgrees(live, log, now, windowMs);
    AddedAgrees(Trimmed(live, now - windowMs), log, now, windowMs);
  }

  /** A recorded attempt counts itself and the attempts of the list that lie in its window. */
  lemma CheckCounts(entries: seq<int>, expiresAt: Option<int>, log: seq<int>, clock: int, now: int, windowMs: nat,
                    faults: set<Command>)
    requires Represents(entries, expiresAt, log, clock, windowMs) && clock <= now && Recorded(faults)
    ensures |SetAfter(entries, expiresAt, now, windowMs, faults)| == CountRecent(log, now - windowMs) + 1
  {
    SeenIsRecent(entries, expiresAt, log, clock, now, windowMs, now);
  }

  /** The key goes on expiring late enough, unless an attempt was recorded under an old expiry. */
  lemma CheckExpiresLate(entries: seq<int>, expiresAt: Option<int>, log: seq<int>, clock: int, now: int, windowMs: nat,
                         faults: set<Command>)
    requires Represents(entries, expiresAt, log, clock, windowMs) && clock <= now
    requires !Recorded(faults) || (Count !in faults &&
        Expire !in faults) || ExpiryAfter(expiresAt, now, windowMs, faults).None?
    ensures ExpiresLate(SetAfter(entries, expiresAt, now, windowMs, faults),
        ExpiryAfter(expiresAt, now, windowMs, faults), windowMs)
  {
    var live, expiry := Unexpired(entries, expiresAt, now), if IsExpired(expiresAt, now) then None else expiresAt;
    UnexpiredRepresents(entries, expiresAt, log, clock, now, windowMs);
    TrimmedExpiresLate(live, expiry, now - windowMs, windowMs);
    if Recorded(faults) {
      CheckAgrees(entries, expiresAt, log, clock, now, windowMs, faults);
    }
  }

  /** One Redis key. The random suffix makes every member unique, so the scores form a list. */
  class RateLimiter {
    const maxRequests: nat
    const windowMs: nat
    var entries: seq<int>
    var expiresAt: Option<int>
    ghost var log: seq<int>
    ghost var clock: int

    ghost predicate Valid()
      reads this
    {
      Represents(entries, expiresAt, log, clock, windowMs)
    }

    constructor (maxRequests: nat, windowMs: nat)
      ensures Valid() && log == [] && clock == 0 && this.maxRequests == maxRequests && this.windowMs == windowMs
      ensures entries == [] && expiresAt == None
    {
      this.maxRequests, this.windowMs := maxRequests, windowMs;
      entries, expiresAt, log, clock := [], None, [], 0;
    }

    /**
     Trim, add, count, refresh the expiry. Every command that fails lets the request through; when
     none does and the key is valid, the answer is that of the list of attempts. Only a check that
     recorded its attempt and then failed to refresh an expiry that was already set can make a valid
     key invalid.
     */
    method Check(now: int, faults: set<Command>) returns (allowed: bool)
      requires clock <= now
      modifies this
      ensures Connect in faults || Trim in faults || Add in faults || Count in faults ==> allowed
      ensures faults == {} ==> expiresAt == Some(now + windowMs)
      ensures Connect !in faults && Trim !in faults && Add !in faults ==>
        forall e :: e in entries <==>
          e == now || (e in old(entries) && e > now - windowMs && !IsExpired(old(expiresAt), now))
      ensures !FailsOpen(faults) ==> (allowed <==> |entries| <= maxRequests)
      ensures old(Valid()) && !FailsOpen(faults) ==> (allowed <==> Admits(old(log), now, windowMs, maxRequests))
      ensures log == if Recorded(faults) then old(log) + [now] else old(log)
      ensures clock == now
      ensures entries == SetAfter(old(entries), old(expiresAt), now, windowMs, faults)
      ensures expiresAt == ExpiryAfter(old(expiresAt), now, windowMs, faults)
      ensures old(Valid()) ==> Agrees(entries, log, clock, windowMs)
      ensures old(Valid()) && (!Recorded(faults) || (Count !in faults && Expire !in faults) || expiresAt.None?) ==>
          Valid()
    {
      if Recorded(faults) {
        SetAfterMembers(entries, expiresAt, now, windowMs, faults);
      }
      if Represents(entries, expiresAt, log, clock, windowMs) {
        CheckAgrees(entries, expiresAt, log, clock, now, windowMs, faults);
        if Recorded(faults) {
          CheckCounts(entries, expiresAt, log, clock, now, windowMs, faults);
        }
        if !Recorded(faults) || (Count !in faults &&
            Expire !in faults) || ExpiryAfter(expiresAt, now, windowMs, faults).None? {
          CheckExpiresLate(entries, expiresAt, log, clock, now, windowMs, faults);
        }
      }
      if Connect in faults {
        clock := now;
        return true;
      }
      clock := now;
      entries, expiresAt := Unexpired(entries, expiresAt, now), if IsExpired(expiresAt, now) then None else expiresAt;
      var windowStart := now - windowMs;
      if Trim in faults {
        return true;
      }
      entries := Trimmed(entries, windowStart);
      if Add in faults {
        return true;
      }
      entries := entries + [now];
      log := log + [now];
      if Count in faults {
        return true;
      }
      var count := |entries|;
      if Expire !in faults {
        expiresAt := Some(now + windowMs);
      }
      return count <= maxRequests;
    }
  }

  /**
   A failed EXPIRE can drop an attempt that is still in the window. Two requests are allowed in ten
   seconds: one at 0, one at 8000 whose EXPIRE fails. The key expires at 10000, so the requests at
   11000 and 12000 both pass, although the list of attempts refuses the last: it is the third since
   8000.
   */
  method FailedExpireLetsAThirdThrough() returns (allowed: bool)
    ensures allowed && !Admits([0, 8000, 11000], 12000, 10000, 2)
  {
    var limiter := new RateLimiter(2, 10000);
    FirstCheck();
    var _ := limiter.Check(0, {});
    SecondCheck();
    var _ := limiter.Check(8000, {Expire});
    ThirdCheck();
    var _ := limiter.Check(11000, {});
    FourthCheck();
    allowed := limiter.Check(12000, {});
    CountOfThree(0, 8000, 11000, 2000);
  }

  lemma FirstCheck()
    ensures SetAfter([], None, 0, 10000, {}) == [0] && ExpiryAfter(None, 0, 10000, {}) == Some(10000)
  {
  }

  lemma SecondCheck()
    ensures SetAfter([0], Some(10000), 8000, 10000, {Expire}) == [0, 8000]
    ensures ExpiryAfter(Some(10000), 8000, 10000, {Expire}) == Some(10000)
  {
    TrimmedOne(0, -2000);
    assert [0] + [8000] == [0, 8000];
  }

  lemma ThirdCheck()
    ensures SetAfter([0, 8000], Some(10000), 11000, 10000, {}) == [11000]
    ensures ExpiryAfter(Some(10000), 11000, 10000, {}) == Some(21000)
  {
    assert Trimmed([], 1000) == [];
  }

  lemma FourthCheck()
    ensures SetAfter([11000], Some(21000), 12000, 10000, {}) == [11000, 12000]
  {
    TrimmedOne(11000, 2000);
    assert [11000] + [12000] == [11000, 12000];
  }

  lemma TrimmedOne(e: int, upTo: int)
    requires e > upTo
    ensures Trimmed([e], upTo) == [e]
  {
    assert [e][..0] == [];
  }

  lemma CountOfThree(a: int, b: int, c: int, after: int)
    requires a <= after < b && after < c
    ensures CountRecent([a, b, c], after) == 2
  {
    assert [a][..0] == [] && CountRecent([a], after) == 0;
    assert [a, b][..1] == [a] && CountRecent([a, b], after) == 1;
    assert [a, b, c][..2] == [a, b];
  }

  // ---------------------------------------------------------------- when the expiry is invisible

  /** What a check finds after expiring and trimming a key. */
  function Seen(entries: seq<int>, expiresAt: Option<int>, now: int, windowMs: nat): seq<int> {
    Trimmed(Unexpired(entries, expiresAt, now), now - windowMs)
  }

  lemma {:induction false} TrimmedKeeps(entries: seq<int>, upTo: int, e: int)
    requires e in entries && e > upTo
    ensures e in Trimmed(entries, upTo)
  {
    var init, last := entries[..|entries| - 1], entries[|entries| - 1];
    assert entries == init + [last];
    if e != last {
      TrimmedKeeps(init, upTo, e);
    }
  }

  lemma {:induction false} TrimmedEmpty(entries: seq<int>, upTo: int)
    requires forall e :: e in entries ==> e <= upTo
    ensures Trimmed(entries, upTo) == []
  {
    if entries == [] {
    } else {
      var init, last := entries[..|entries| - 1], entries[|entries| - 1];
      assert last in entries && forall e :: e in init ==> e in entries;
      TrimmedEmpty(init, upTo);
    }
  }

  lemma EarlyExpiryDrops(entries: seq<int>, expiry: int, windowMs: nat, e: int)
    requires e in entries && e + windowMs > expiry
    ensures Seen(entries, Some(expiry), expiry, windowMs) == [] != Seen(entries, None, expiry, windowMs)
  {
    TrimmedKeeps(entries, expiry - windowMs, e);
  }

  lemma LateExpiryHidden(entries: seq<int>, expiry: int, windowMs: nat, now: int)
    requires forall e :: e in entries ==> e + windowMs <= expiry
    ensures Seen(entries, Some(expiry), now, windowMs) == Seen(entries, None, now, windowMs)
  {
    if expiry <= now {
      TrimmedEmpty(entries, now - windowMs);
    }
  }

  /**
   An expiry is invisible at every time exactly when it lies at least a window after every
   entry. A successful EXPIRE puts it there; after a failed one an old expiry can drop an
   attempt that is still in the window.
   */
  lemma ExpiryInvisibleIff(entries: seq<int>, expiry: int, windowMs: nat)
    ensures (forall now :: Seen(entries, Some(expiry), now, windowMs) == Seen(entries, None, now, windowMs))
      <==> (forall e :: e in entries ==> e + windowMs <= expiry)
  {
    forall e | e in entries && e + windowMs > expiry
      ensures Seen(entries, Some(expiry), expiry, windowMs) != Seen(entries, None, expiry, windowMs)
    {
      EarlyExpiryDrops(entries, expiry, windowMs, e);
    }
    if forall e :: e in entries ==> e + windowMs <= expiry {
      forall now ensures Seen(entries, Some(expiry), now, windowMs) == Seen(entries, None, now, windowMs) {
        LateExpiryHidden(entries, expiry, windowMs, now);
      }
    }
  }
}
