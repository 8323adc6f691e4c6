/** Login back-off: how long a run of failures locks an account, in the wrapping 64-bit
    nanoseconds the source computes with. */
module LoginLimiter {
  import opened Strings

  const SECOND := 1_000_000_000
  const FREE_ATTEMPTS := 5
  const BASE := 5 * SECOND
  const CAP := 300 * SECOND
  const STALE := 3600 * SECOND

  const TWO_63 := 0x8000_0000_0000_0000
  const TWO_64 := 0x1_0000_0000_0000_0000

  // ---- the lock's length

  /** An int64 holds this much of x. */
  function Wrap64(x: int): int {
    (x + TWO_63) % TWO_64 - TWO_63
  }

  function Pow2(k: nat): nat {
    if k == 0 then 1 else 2 * Pow2(k - 1)
  }

  /** 1 << k in int64. */
  function ShiftOne(k: nat): int {
    if k >= 64 then 0 else Wrap64(Pow2(k))
  }

  function Product(k: nat): int {
    Wrap64(BASE * ShiftOne(k))
  }

  /** The lock set by the n-th failure of a run; nothing positive is no lock. */
  function Backoff(n: nat): int {
    if n <= FREE_ATTEMPTS then 0
    else
      var p := Product(n - FREE_ATTEMPTS - 1);
      if p > CAP then CAP else p
  }

  lemma {:induction false} Pow2Grows(j: nat, k: nat)
    requires j <= k
    ensures Pow2(j) <= Pow2(k)
    decreases k
  {
    if j < k { Pow2Grows(j, k - 1); }
  }

  lemma {:induction false} Pow2Up(k: nat)
    ensures Pow2(k + 1) == 2 * Pow2(k) && Pow2(k + 10) == 1024 * Pow2(k)
  {
    assert Pow2(k + 10) == 2 * Pow2(k + 9);
    assert Pow2(k + 9) == 2 * Pow2(k + 8);
    assert Pow2(k + 8) == 2 * Pow2(k + 7);
    assert Pow2(k + 7) == 2 * Pow2(k + 6);
    assert Pow2(k + 6) == 2 * Pow2(k + 5);
    assert Pow2(k + 5) == 2 * Pow2(k + 4);
    assert Pow2(k + 4) == 2 * Pow2(k + 3);
    assert Pow2(k + 3) == 2 * Pow2(k + 2);
    assert Pow2(k + 2) == 2 * Pow2(k + 1);
  }

  lemma {:induction false} Landmarks()
    ensures Pow2(5) == 32 && Pow2(6) == 64 && Pow2(30) == 0x4000_0000 && Pow2(31) == 0x8000_0000
    ensures Pow2(60) == 0x1000_0000_0000_0000 && Pow2(62) == 0x4000_0000_0000_0000 && Pow2(63) == TWO_63
  {
    Pow2Up(0);
    Pow2Up(10);
    Pow2Up(20);
    Pow2Up(30);
    Pow2Up(40);
    Pow2Up(50);
    Pow2Up(60);
    Pow2Up(61);
    Pow2Up(62);
    assert Pow2(0) == 1 && Pow2(1) == 2 && Pow2(2) == 4 && Pow2(3) == 8 && Pow2(4) == 16;
  }

  lemma {:induction false} WrapSmall(x: int)
    requires -TWO_63 <= x < TWO_63
    ensures Wrap64(x) == x
  {
  }

  lemma {:induction false} FitsBelow(p: nat)
    requires p <= 0x4000_0000
    ensures Wrap64(p) == p && Wrap64(BASE * p) == BASE * p
  {
  }

  lemma {:induction false} AtMost30(k: nat)
    requires k <= 30
    ensures Pow2(k) <= 0x4000_0000
  {
    Landmarks();
    Pow2Grows(k, 30);
  }

  /** Up to the 36th failure nothing wraps. */
  lemma {:induction false} ProductFits(k: nat)
    requires k <= 30
    ensures Product(k) == BASE * Pow2(k)
  {
    AtMost30(k);
    FitsBelow(Pow2(k));
  }

  lemma {:induction false} CapReached(k: nat)
    ensures k <= 5 ==> BASE * Pow2(k) <= CAP
    ensures k >= 6 ==> BASE * Pow2(k) > CAP
  {
    hide Pow2;
    Landmarks();
    if k <= 5 { Pow2Grows(k, 5); } else { Pow2Grows(6, k); }
  }

  /** For the 6th to the 36th failure of a run the lock doubles from five seconds up to
      five minutes, without overflow. */
  lemma {:induction false} BackoffDoubles(n: nat)
    requires 6 <= n <= 36
    ensures Backoff(n) == if 5_000_000_000 * Pow2(n - 6) > 300_000_000_000 then 300_000_000_000
                          else 5_000_000_000 * Pow2(n - 6)
    ensures n >= 12 <==> 5_000_000_000 * Pow2(n - 6) > 300_000_000_000
  {
    ProductFits(n - 6);
    CapReached(n - 6);
  }

  lemma {:induction false} BackoffNeverDecreases(m: nat, n: nat)
    requires m <= n <= 36
    ensures 0 <= Backoff(m) <= Backoff(n)
  {
    hide Pow2, Backoff;
    if m >= 6 {
      BackoffIs(m, Pow2(m - 6));
      BackoffIs(n, Pow2(n - 6));
      Pow2Grows(m - 6, n - 6);
    } else {
      BackoffFree(m);
      if n >= 6 { BackoffIs(n, Pow2(n - 6)); } else { BackoffFree(n); }
    }
  }

  lemma {:induction false} BackoffFree(n: nat)
    requires n < 6
    ensures Backoff(n) == 0
  {
  }

  lemma {:induction false} BackoffIs(n: nat, p: nat)
    requires 6 <= n <= 36 && p == Pow2(n - 6)
    ensures Backoff(n) == if BASE * p > CAP then CAP else BASE * p
  {
    BackoffDoubles(n);
  }

  // ---- past the 36th failure

  lemma {:induction false} WrapAgain(x: int)
    ensures Wrap64(2 * Wrap64(x)) == Wrap64(2 * x)
  {
    var q := (x + TWO_63) / TWO_64;
    assert Wrap64(x) == x - q * TWO_64;
    assert 2 * Wrap64(x) + TWO_63 == (2 * x + TWO_63) - (2 * q) * TWO_64;
    ModShift(2 * x + TWO_63, 2 * q);
  }

  lemma {:induction false} ModShift(x: int, q: int)
    ensures (x - q * TWO_64) % TWO_64 == x % TWO_64
  {
    var d, r := x / TWO_64, x % TWO_64;
    assert x - q * TWO_64 == (d - q) * TWO_64 + r;
  }

  lemma {:induction false} ShiftFits(k: nat)
    requires k <= 62
    ensures ShiftOne(k) == Pow2(k)
  {
    Landmarks();
    Pow2Grows(k, 62);
    WrapSmall(Pow2(k));
  }

  lemma {:induction false} ProductDoubles(k: nat)
    requires k < 62
    ensures Product(k + 1) == Wrap64(2 * Product(k))
  {
    ShiftFits(k);
    ShiftFits(k + 1);
    WrapAgain(BASE * Pow2(k));
    assert BASE * Pow2(k + 1) == 2 * (BASE * Pow2(k));
  }

  lemma {:induction false} ProductAt37()
    ensures Product(31) == -7709325833709551616
  {
    Landmarks();
    WrapSmall(Pow2(31));
  }

  /** The wrapped products of failures 37 to 61. */
  const WRAPPED: seq<int> := [
    -7709325833709551616, 3028092406290448384, 6056184812580896768, -6334374448547758080,
    5777995176614035456, -6890753720481480704, 4665236632746590208, -9116270808216371200,
    214202457276809216, 428404914553618432, 856809829107236864, 1713619658214473728,
    3427239316428947456, 6854478632857894912, -4737786807993761792, 8971170457722028032,
    -504403158265495552, -1008806316530991104, -2017612633061982208, -4035225266123964416,
    -8070450532247928832, 2305843009213693952, 4611686018427387904, -9223372036854775808,
    0
  ]

  /** Each entry is twice the one before, less what does not fit in 64 bits. */
  lemma {:induction false} WrappedDoubles(i: nat)
    requires i < 24
    ensures WRAPPED[i + 1] == Wrap64(2 * WRAPPED[i])
  {
    var d := 2 * WRAPPED[i] - WRAPPED[i + 1];
    assert d == TWO_64 || d == -TWO_64 || d == 0;
    assert -TWO_63 <= WRAPPED[i + 1] < TWO_63;
    WrapSmall(WRAPPED[i + 1]);
    ModShift(2 * WRAPPED[i] + TWO_63, d / TWO_64);
  }

  lemma {:induction false} ProductsWrap(k: nat)
    requires 31 <= k <= 55
    ensures Product(k) == WRAPPED[k - 31]
    decreases k
  {
    if k == 31 {
      ProductAt37();
    } else {
      ProductsWrap(k - 1);
      ProductDoubles(k - 1);
      WrappedDoubles(k - 32);
    }
  }

  /** From the 61st failure on the shifted constant has no bits left in 64. */
  lemma {:induction false} ProductVanishes(k: nat)
    requires k >= 55
    ensures Product(k) == 0
    decreases k
  {
    if k == 55 {
      ProductsWrap(55);
    } else if k <= 62 {
      ProductVanishes(k - 1);
      ProductDoubles(k - 1);
    } else if k == 63 {
      Landmarks();
      assert Wrap64(TWO_63) == -TWO_63;
      assert BASE * -TWO_63 == (-2_500_000_000) * TWO_64;
      ModShift(TWO_63, 2_500_000_000);
    }
  }

  /** Runs longer than 36 failures for which the product wraps to nothing positive. */
  predicate WrapsToNothing(n: nat) {
    n in {37, 40, 42, 44, 51, 53, 54, 55, 56, 57, 60} || n >= 61
  }

  /** Exactly which failures lock, and for how long: the lock is missing when the product
      wraps, and never longer than five minutes. */
  lemma {:induction false} LocksExactly(n: nat)
    ensures Backoff(n) > 0 <==> n >= 6 && !WrapsToNothing(n)
    ensures Backoff(n) <= CAP
    ensures n >= 12 && !WrapsToNothing(n) ==> Backoff(n) == CAP
  {
    if 6 <= n <= 36 {
      BackoffDoubles(n);
      Pow2Grows(0, n - 6);
    } else if n >= 61 {
      ProductVanishes(n - 6);
    } else if n > 36 {
      WrappedSigns(n);
    }
  }

  lemma {:induction false} WrappedSigns(n: nat)
    requires 37 <= n <= 60
    ensures if WrapsToNothing(n) then Backoff(n) < 0 else Backoff(n) == CAP
  {
    hide Product;
    ProductsWrap(n - 6);
    assert WrapsToNothing(n) ==> WRAPPED[n - 37] < 0;
    assert !WrapsToNothing(n) ==> WRAPPED[n - 37] > CAP;
    BackoffOf(n);
  }

  lemma {:induction false} BackoffOf(n: nat)
    requires n >= 6
    ensures Backoff(n) == if Product(n - 6) > CAP then CAP else Product(n - 6)
  {
  }

  // ---- the limiter

  datatype Attempts = Attempts(failures: nat, lockedUntil: Option<int>, lastSeen: int)

  type Table = map<string, Attempts>

  function Sweep(t: Table, now: int): Table {
    map k | k in t && now - t[k].lastSeen <= STALE :: t[k]
  }

  function AfterFailure(t: Table, user: string, now: int): Table {
    var swept := Sweep(t, now);
    var a := if user in swept then swept[user] else Attempts(0, None, now);
    var n := a.failures + 1;
    swept[user := Attempts(n, if n > FREE_ATTEMPTS then Some(now + Backoff(n)) else a.lockedUntil, now)]
  }

  predicate LockedAt(t: Table, user: string, now: int) {
    user in t && t[user].lockedUntil.Some? && now < t[user].lockedUntil.value
  }

  class Limiter {
    var byKey: Table

    constructor ()
      ensures byKey == map[]
    {
      byKey := map[];
    }

    method Check(user: string, now: int) returns (locked: bool, retryAfter: int)
      ensures locked <==> LockedAt(byKey, user, now)
      ensures retryAfter == if locked then byKey[user].lockedUntil.value - now else 0
    {
      locked, retryAfter := false, 0;
      if user in byKey {
        var a := byKey[user];
        if a.lockedUntil.Some? && a.lockedUntil.value - now > 0 {
          locked, retryAfter := true, a.lockedUntil.value - now;
        }
      }
    }

    method RecordFailure(user: string, now: int)
      modifies this
      ensures byKey == AfterFailure(old(byKey), user, now)
    {
      var keys := byKey.Keys;
      while keys != {}
        invariant keys <= old(byKey).Keys
        invariant forall k :: k in byKey <==> k in old(byKey) && (k in keys || now - old(byKey)[k].lastSeen <= STALE)
        invariant forall k :: k in byKey ==> byKey[k] == old(byKey)[k]
        decreases keys
      {
        var k :| k in keys;
        keys := keys - {k};
        if now - byKey[k].lastSeen > STALE {
          byKey := byKey - {k};
        }
      }
      assert byKey == Sweep(old(byKey), now);
      if user !in byKey {
        byKey := byKey[user := Attempts(0, None, now)];
      }
      var a := byKey[user].(failures := byKey[user].failures + 1, lastSeen := now);
      if a.failures > FREE_ATTEMPTS {
        var backoff := Wrap64(BASE * ShiftOne(a.failures - FREE_ATTEMPTS - 1));
        if backoff > CAP {
          backoff := CAP;
        }
        a := a.(lockedUntil := Some(now + backoff));
      }
      byKey := byKey[user := a];
    }

    method Clear(user: string)
      modifies this
      ensures byKey == old(byKey) - {user}
    {
      byKey := byKey - {user};
    }
  }

  // ---- over all logins

  datatype Event = Failure(user: string, at: int) | Success(user: string)

  function After(events: seq<Event>): Table {
    if events == [] then map[]
    else
      var before, e := After(events[..|events| - 1]), events[|events| - 1];
      match e
      case Failure(user, at) => AfterFailure(before, user, at)
      case Success(user) => before - {user}
  }

  /** A user's last failure since their last success. */
  function LastFailure(events: seq<Event>, user: string): Option<int> {
    if events == [] then None
    else
      var front, e := events[..|events| - 1], events[|events| - 1];
      if e.user != user then LastFailure(front, user) else if e.Success? then None else Some(e.at)
  }

  /** How many failures of the user follow one another at most an hour apart, up to the
      last one, with no success since. */
  function Streak(events: seq<Event>, user: string): nat {
    if events == [] then 0
    else
      var front, e := events[..|events| - 1], events[|events| - 1];
      if e.user != user then Streak(front, user)
      else if e.Success? then 0
      else
        var last := LastFailure(front, user);
        if last.Some? && e.at - last.value <= STALE then Streak(front, user) + 1 else 1
  }

  /** The time of the last failure of anybody. */
  function Clock(events: seq<Event>): Option<int> {
    if events == [] then None
    else if events[|events| - 1].Failure? then Some(events[|events| - 1].at)
    else Clock(events[..|events| - 1])
  }

  predicate InOrder(events: seq<Event>) {
    events == []
    || (InOrder(events[..|events| - 1])
        && (events[|events| - 1].Failure? && Clock(events[..|events| - 1]).Some?
            ==> Clock(events[..|events| - 1]).value <= events[|events| - 1].at))
  }

  /** The table knows the streak, unless the sweep already dropped it as over. */
  ghost predicate Tracks(t: Table, events: seq<Event>, user: string) {
    var last := LastFailure(events, user);
    if user in t then
      && last == Some(t[user].lastSeen) && t[user].failures == Streak(events, user) > 0
      && t[user].lockedUntil == if Streak(events, user) > FREE_ATTEMPTS
          then Some(last.value + Backoff(Streak(events, user))) else None
    else last.Some? ==> Clock(events).Some? && Clock(events).value - last.value > STALE
  }

  lemma {:induction false} FailureTracked(before: Table, front: seq<Event>, e: Event, user: string)
    requires e.Failure? && Tracks(before, front, user) && InOrder(front + [e])
    requires LastFailure(front, user).Some? ==>
        Clock(front).Some? && LastFailure(front, user).value <= Clock(front).value
    ensures Tracks(AfterFailure(before, e.user, e.at), front + [e], user)
  {
    var events := front + [e];
    assert events[..|events| - 1] == front && events[|events| - 1] == e;
    assert Clock(events) == Some(e.at);
    var swept := Sweep(before, e.at);
    var last := LastFailure(front, user);
    if e.user == user {
      assert LastFailure(events, user) == Some(e.at);
      if user in before {
        assert user in swept <==> e.at - last.value <= STALE;
      } else if last.Some? {
        assert e.at - last.value > STALE;
      }
    } else {
      assert LastFailure(events, user) == last && Streak(events, user) == Streak(front, user);
    }
  }

  lemma {:induction false} LastBeforeClock(events: seq<Event>, user: string)
    requires InOrder(events)
    ensures LastFailure(events, user).Some? ==>
        Clock(events).Some? && LastFailure(events, user).value <= Clock(events).value
    decreases |events|
  {
    if events != [] { LastBeforeClock(events[..|events| - 1], user); }
  }

  lemma {:induction false} TableTracks(events: seq<Event>, user: string)
    requires InOrder(events)
    ensures Tracks(After(events), events, user)
    decreases |events|
  {
    if events != [] {
      var front, e := events[..|events| - 1], events[|events| - 1];
      TableTracks(front, user);
      if e.Failure? {
        LastBeforeClock(front, user);
        assert front + [e] == events;
        FailureTracked(After(front), front, e, user);
      }
    }
  }

  /** Whatever logins came before, of anybody: an account is locked exactly while the
      lock set by its present run of failures lasts, five minutes at most after the last. */
  lemma {:induction false} LockedExactly(events: seq<Event>, user: string, now: int)
    requires InOrder(events) && (Clock(events).Some? ==> Clock(events).value <= now)
    ensures LockedAt(After(events), user, now)
            <==> Streak(events, user) >= 6 && LastFailure(events, user).Some?
                 && now < LastFailure(events, user).value + Backoff(Streak(events, user))
    ensures LockedAt(After(events), user, now) ==> now < LastFailure(events, user).value + CAP
  {
    TableTracks(events, user);
    LocksExactly(Streak(events, user));
  }

  /** A success starts over. */
  lemma {:induction false} SuccessResets(events: seq<Event>, user: string, now: int)
    requires InOrder(events)
    ensures !LockedAt(After(events + [Success(user)]), user, now) && Streak(events + [Success(user)], user) == 0
  {
    var all := events + [Success(user)];
    assert all[..|all| - 1] == events && all[|all| - 1] == Success(user);
  }
}
