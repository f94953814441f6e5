/** The login throttle: how many wrong passwords one address may try, and how long it is told to wait. Here logins
    come one after another; `LoginOverlap` lets them overlap.

    Times are in nanoseconds; zero stands for a time that is not set, as the zero time does in the program. */
module LoginThrottle {
  import opened Text
  import opened FreshNames

  const SECOND: int := 1_000_000_000
  const WINDOW: int := 900 * SECOND
  const LOCKOUT: int := 900 * SECOND
  const LIMIT := 5

  datatype Attempts = Attempts(failures: nat, first: int, lockedUntil: int)

  const NEVER := Attempts(0, 0, 0)

  /** How long the lock still holds. */
  function Remaining(a: Attempts, now: int): int {
    if a.lockedUntil != 0 && now < a.lockedUntil then a.lockedUntil - now else 0
  }

  predicate Outdated(a: Attempts, now: int) { a.first == 0 || now - a.first > WINDOW }

  /** `loginRetryAfter` drops an outdated entry unless its lock still holds. */
  function Looked(entry: Option<Attempts>, now: int): Option<Attempts> {
    match entry
    case None => None
    case Some(a) => if Remaining(a, now) > 0 then entry else if Outdated(a, now) then None else entry
  }

  /** `recordLoginFailure`: a failure joins the entry's epoch or starts a new one. */
  function Failed(entry: Option<Attempts>, now: int): Attempts {
    var a := entry.GetOr(NEVER);
    var b := if Outdated(a, now) || (a.lockedUntil != 0 && a.lockedUntil <= now) then Attempts(0, now, 0) else a;
    var c := b.(failures := b.failures + 1);
    if c.failures >= LIMIT then c.(lockedUntil := now + LOCKOUT) else c
  }

  /** The header of `writeRetryAfter`: the wait in whole seconds, rounded up. */
  function HeaderSeconds(wait: int): Option<int> {
    if wait <= 0 then None else Some((wait + SECOND - 1) / SECOND)
  }

  /** The header names the least number of seconds that covers the wait. */
  lemma HeaderCovers(wait: int)
    ensures match HeaderSeconds(wait)
      case None => wait <= 0
      case Some(seconds) => wait > 0 && (seconds - 1) * SECOND < wait <= seconds * SECOND
  {
  }

  datatype Outcome = Refused(retryAfter: Option<int>) | WrongPassword(retryAfter: Option<int>) | Granted

  /** One login with no other in between: what becomes of the entry of its key, and the answer. */
  function Attempted(entry: Option<Attempts>, now: int, correct: bool): (Option<Attempts>, Outcome) {
    if entry.Some? && Remaining(entry.value, now) > 0 then (entry, Refused(HeaderSeconds(Remaining(entry.value, now))))
    else if correct then (None, Granted)
    else
      var a := Failed(Looked(entry, now), now);
      (Some(a), WrongPassword(HeaderSeconds(Remaining(a, now))))
  }

  class Throttle {
    var attempts: map<string, Attempts>

    ghost function Entry(key: string): Option<Attempts>
      reads this
    {
      if key in attempts then Some(attempts[key]) else None
    }

    constructor ()
      ensures attempts == map[]
    {
      attempts := map[];
    }

    method RetryAfter(key: string, now: int) returns (wait: int)
      modifies this
      ensures wait == match old(Entry(key)) case None => 0 case Some(a) => Remaining(a, now)
      ensures Entry(key) == Looked(old(Entry(key)), now)
      ensures forall k :: k != key ==> Entry(k) == old(Entry(k))
    {
      if key !in attempts {
        return 0;
      }
      var state := attempts[key];
      if state.lockedUntil != 0 && now < state.lockedUntil {
        return state.lockedUntil - now;
      }
      if state.first == 0 || now - state.first > WINDOW {
        attempts := attempts - {key};
      }
      return 0;
    }

    method RecordFailure(key: string, now: int) returns (wait: int)
      modifies this
      ensures Entry(key) == Some(Failed(old(Entry(key)), now))
      ensures wait == Remaining(Failed(old(Entry(key)), now), now)
      ensures forall k :: k != key ==> Entry(k) == old(Entry(k))
    {
      var state := if key in attempts then attempts[key] else NEVER;
      if state.first == 0 || now - state.first > WINDOW || (state.lockedUntil != 0 && !(now < state.lockedUntil)) {
        state := Attempts(0, now, 0);
      }
      state := state.(failures := state.failures + 1);
      if state.failures >= LIMIT {
        state := state.(lockedUntil := now + LOCKOUT);
      }
      attempts := attempts[key := state];
      if state.lockedUntil != 0 && now < state.lockedUntil {
        return state.lockedUntil - now;
      }
      return 0;
    }

    method ClearFailures(key: string)
      modifies this
      ensures Entry(key) == None
      ensures forall k :: k != key ==> Entry(k) == old(Entry(k))
    {
      attempts := attempts - {key};
    }

    /** The program locks `RetryAfter`, `RecordFailure` and `ClearFailures` each for itself, not the login as a
        whole; this is the login that no other comes between. */
    method LoginPost(key: string, now: int, correct: bool) returns (outcome: Outcome)
      modifies this
      ensures (Entry(key), outcome) == Attempted(old(Entry(key)), now, correct)
      ensures forall k :: k != key ==> Entry(k) == old(Entry(k))
    {
      var wait := RetryAfter(key, now);
      if wait > 0 {
        return Refused(HeaderSeconds(wait));
      }
      if !correct {
        wait := RecordFailure(key, now);
        return WrongPassword(HeaderSeconds(wait));
      }
      ClearFailures(key);
      return Granted;
    }
  }

  // ---------------------------------------------------------------- runs

  datatype Login = Login(key: string, now: int, correct: bool)

  /** Logins one after another, with a clock that never goes back. */
  ghost predicate Sequential(run: seq<Login>) {
    && (forall i :: 0 <= i < |run| ==> run[i].now > 0)
    && (forall i, j :: 0 <= i < j < |run| ==> run[i].now <= run[j].now)
  }

  ghost predicate NoSuccess(run: seq<Login>, key: string) {
    forall i :: 0 <= i < |run| && run[i].key == key ==> !run[i].correct
  }

  function EntryAfter(run: seq<Login>, key: string): Option<Attempts> {
    if run == [] then None
    else
      var before, login := EntryAfter(run[..|run| - 1], key), run[|run| - 1];
      if login.key == key then Attempted(before, login.now, login.correct).0 else before
  }

  /** The times at which a password of this key was checked and found wrong. */
  function FailedChecks(run: seq<Login>, key: string): seq<int> {
    if run == [] then []
    else
      var init, login := run[..|run| - 1], run[|run| - 1];
      FailedChecks(init, key)
      + (if login.key == key && Attempted(EntryAfter(init, key), login.now, login.correct).1.WrongPassword? then [login.now] else [])
  }

  /** The answers, in order. */
  function Outcomes(run: seq<Login>): seq<Outcome> {
    if run == [] then []
    else
      var init, login := run[..|run| - 1], run[|run| - 1];
      Outcomes(init) + [Attempted(EntryAfter(init, login.key), login.now, login.correct).1]
  }

  lemma OneMore(run: seq<Login>, i: nat, key: string)
    requires i < |run|
    ensures var before, login := EntryAfter(run[..i], key), run[i];
            EntryAfter(run[..i + 1], key)
            == if login.key == key then Attempted(before, login.now, login.correct).0 else before
    ensures Outcomes(run[..i + 1])
            == Outcomes(run[..i]) + [Attempted(EntryAfter(run[..i], run[i].key), run[i].now, run[i].correct).1]
  {
    assert run[..i + 1][..i] == run[..i];
  }

  /** The throttle serving logins one after another: the entry of each key depends on the logins of that key alone. */
  method Serve(run: seq<Login>) returns (throttle: Throttle, outcomes: seq<Outcome>)
    ensures fresh(throttle) && forall key :: throttle.Entry(key) == EntryAfter(run, key)
    ensures outcomes == Outcomes(run)
  {
    hide Attempted, EntryAfter, Outcomes;
    throttle := new Throttle();
    outcomes := [];
    NoLogins();
    for i := 0 to |run|
      invariant fresh(throttle) && forall key :: throttle.Entry(key) == EntryAfter(run[..i], key)
      invariant outcomes == Outcomes(run[..i])
    {
      forall key { OneMore(run, i, key); }
      var outcome := throttle.LoginPost(run[i].key, run[i].now, run[i].correct);
      outcomes := outcomes + [outcome];
    }
    assert run[..|run|] == run;
  }

  lemma NoLogins()
    ensures Outcomes([]) == [] && forall key :: EntryAfter([], key) == None
  {
  }

  /** A login that is granted wipes the slate clean: from then on the key is as if it had never been seen before. */
  lemma {:induction false} GrantForgets(before: seq<Login>, granted: Login, after: seq<Login>)
    requires Attempted(EntryAfter(before, granted.key), granted.now, granted.correct).1.Granted?
    ensures EntryAfter(before + [granted] + after, granted.key) == EntryAfter(after, granted.key)
    decreases |after|
  {
    hide Failed, Looked, Remaining, HeaderSeconds;
    var run := before + [granted] + after;
    if after == [] {
      assert run == before + [granted] && run[..|run| - 1] == before;
    } else {
      assert run[..|run| - 1] == before + [granted] + after[..|after| - 1];
      GrantForgets(before, granted, after[..|after| - 1]);
    }
  }

  // ---------------------------------------------------------------- epochs

  /** Failures come in epochs; `start[i]` is the failure that began the epoch of failure `i`. */
  ghost predicate Epochs(fails: seq<int>, start: seq<nat>) {
    && |start| == |fails|
    && (forall i :: 0 <= i < |fails| ==> start[i] <= i < start[i] + LIMIT)
    && (forall i :: 0 < i < |fails| && start[i] != i ==> start[i] == start[i - 1])
    && (forall i :: 0 < i < |fails| && start[i] == i ==> EpochsApart(fails, start[i - 1], i))
    && (forall i, j :: 0 <= i < j < |fails| ==> fails[i] <= fails[j])
  }

  /** The epoch from `p` to before `i` is over when failure `i` comes: a window after it began, or, if it used up
      the limit, a lockout after it ended. */
  ghost predicate EpochsApart(fails: seq<int>, p: nat, i: nat)
    requires p < i < |fails|
  {
    && fails[i] >= fails[p] + WINDOW
    && (i - p == LIMIT ==> fails[i] >= fails[i - 1] + LOCKOUT)
  }

  /** What the entry says about the failures so far, at time `now`. */
  ghost predicate Tracks(entry: Option<Attempts>, fails: seq<int>, start: seq<nat>, now: int) {
    && Epochs(fails, start)
    && (fails != [] ==> fails[|fails| - 1] <= now)
    && match entry
       case None => fails != [] ==> Over(fails, start, now)
       case Some(a) =>
         && fails != []
         && (var p := start[|fails| - 1];
             && a.failures == |fails| - p
             && a.first == fails[p]
             && a.first > 0
             && a.lockedUntil == if a.failures == LIMIT then fails[|fails| - 1] + LOCKOUT else 0)
  }

  /** A failure at `now` or later begins a new epoch. */
  ghost predicate Over(fails: seq<int>, start: seq<nat>, now: int)
    requires fails != [] && |start| == |fails| && start[|fails| - 1] < |fails|
  {
    var last := |fails| - 1;
    && now >= fails[start[last]] + WINDOW
    && (last - start[last] + 1 == LIMIT ==> now >= fails[last] + LOCKOUT)
  }

  lemma NewEpoch(fails: seq<int>, start: seq<nat>, now: int)
    requires Epochs(fails, start) && now > 0 && (fails != [] ==> fails[|fails| - 1] <= now && Over(fails, start, now))
    ensures Tracks(Some(Attempts(1, now, 0)), fails + [now], start + [|fails|], now)
  {
    var f, s, n := fails + [now], start + [|fails|], |fails|;
    if n > 0 {
      assert EpochsApart(f, s[n - 1], n);
    }
    forall i | 0 < i < |f| && s[i] == i ensures EpochsApart(f, s[i - 1], i) {
      if i < n { assert EpochsApart(fails, start[i - 1], i); }
    }
  }

  lemma SameEpoch(a: Attempts, fails: seq<int>, start: seq<nat>, now: int)
    requires Tracks(Some(a), fails, start, now) && a.failures < LIMIT
    ensures var p := start[|fails| - 1];
            var more := a.failures + 1;
            Tracks(Some(Attempts(more, a.first, if more == LIMIT then now + LOCKOUT else 0)), fails + [now], start + [p], now)
  {
    var n, p := |fails|, start[|fails| - 1];
    var f, s := fails + [now], start + [p];
    forall i | 0 < i < |f| && s[i] == i ensures EpochsApart(f, s[i - 1], i) {
      assert i < n;
      assert EpochsApart(fails, start[i - 1], i);
    }
  }

  lemma LaterTracks(entry: Option<Attempts>, fails: seq<int>, start: seq<nat>, now: int, later: int)
    requires Tracks(entry, fails, start, now) && now <= later
    ensures Tracks(entry, fails, start, later)
  {
  }

  /** One more wrong password. */
  lemma FailureTracked(entry: Option<Attempts>, fails: seq<int>, start: seq<nat>, now: int) returns (start': seq<nat>)
    requires Tracks(entry, fails, start, now) && now > 0
    requires entry.Some? ==> Remaining(entry.value, now) <= 0
    ensures Tracks(Some(Failed(Looked(entry, now), now)), fails + [now], start', now)
  {
    if entry.None? || Outdated(entry.value, now) || entry.value.lockedUntil != 0 {
      start' := start + [|fails|];
      NewEpoch(fails, start, now);
    } else {
      start' := start + [start[|fails| - 1]];
      SameEpoch(entry.value, fails, start, now);
    }
  }

  /** What the last login of a run adds. */
  lemma LastLogin(run: seq<Login>, key: string)
    requires run != [] && NoSuccess(run, key)
    ensures var init, login := run[..|run| - 1], run[|run| - 1];
            var entry := EntryAfter(init, key);
            if login.key == key && (entry.None? || Remaining(entry.value, login.now) <= 0) then
              && EntryAfter(run, key) == Some(Failed(Looked(entry, login.now), login.now))
              && FailedChecks(run, key) == FailedChecks(init, key) + [login.now]
            else
              && EntryAfter(run, key) == entry
              && FailedChecks(run, key) == FailedChecks(init, key)
  {
    hide Failed, Looked, Remaining, HeaderSeconds;
  }

  lemma {:induction false} RunTracked(run: seq<Login>, key: string, now: int) returns (start: seq<nat>)
    requires Sequential(run) && NoSuccess(run, key) && (run != [] ==> run[|run| - 1].now <= now)
    ensures Tracks(EntryAfter(run, key), FailedChecks(run, key), start, now)
  {
    hide Tracks, Failed, Looked, EntryAfter, FailedChecks;
    start := [];
    if run == [] {
      NothingTracked(key, now);
    } else {
      var init, login := run[..|run| - 1], run[|run| - 1];
      start := RunTracked(init, key, login.now);
      LastLogin(run, key);
      var entry, fails := EntryAfter(init, key), FailedChecks(init, key);
      if login.key == key && (entry.None? || Remaining(entry.value, login.now) <= 0) {
        start := FailureTracked(entry, fails, start, login.now);
        LaterTracks(Some(Failed(Looked(entry, login.now), login.now)), fails + [login.now], start, login.now, now);
      } else {
        LaterTracks(entry, fails, start, login.now, now);
      }
    }
  }

  lemma NothingTracked(key: string, now: int)
    ensures Tracks(EntryAfter([], key), FailedChecks([], key), [], now)
  {
  }

  /** Nine failures in a row take at least a window. */
  lemma NinthIsLater(fails: seq<int>, start: seq<nat>, j: nat)
    requires Epochs(fails, start) && j + 8 < |fails|
    ensures fails[j + 8] >= fails[j] + WINDOW
  {
    var e := start[j + 8];
    StartsItself(fails, start, j + 8);
    var p := start[e - 1];
    assert EpochsApart(fails, p, e);
  }

  lemma {:induction false} StartsItself(fails: seq<int>, start: seq<nat>, i: nat)
    requires Epochs(fails, start) && i < |fails|
    ensures start[start[i]] == start[i]
  {
    if start[i] != i { StartsItself(fails, start, i - 1); }
  }

  ghost function Within(fails: seq<int>, from: int): set<int> {
    set i | 0 <= i < |fails| && from <= fails[i] < from + WINDOW
  }

  ghost function Range(lo: int, n: nat): (r: set<int>)
    ensures |r| == n && forall i :: lo <= i < lo + n ==> i in r
    ensures forall i :: i in r ==> lo <= i < lo + n
  {
    if n == 0 then {} else Range(lo, n - 1) + {lo + n - 1}
  }

  lemma {:induction false} Least(fails: seq<int>, from: int, i: int) returns (lo: int)
    requires i in Within(fails, from)
    ensures lo in Within(fails, from) && forall k :: k in Within(fails, from) ==> lo <= k
    decreases i
  {
    if k :| k in Within(fails, from) && k < i {
      lo := Least(fails, from, k);
    } else {
      lo := i;
    }
  }

  /** Of logins that come one after another, without a successful one of that key, no more than eight passwords are
      checked for a key in any fifteen minutes. */
  lemma EightPerWindow(run: seq<Login>, key: string, from: int)
    requires Sequential(run) && NoSuccess(run, key)
    ensures |Within(FailedChecks(run, key), from)| <= 8
  {
    hide Epochs, EntryAfter, FailedChecks;
    var fails := FailedChecks(run, key);
    var start := RunTracked(run, key, if run == [] then 0 else run[|run| - 1].now);
    var s := Within(fails, from);
    if i :| i in s {
      var lo := Least(fails, from, i);
      forall k | k in s ensures k in Range(lo, 8) {
        if k >= lo + 8 {
          NinthIsLater(fails, start, lo);
          Monotone(fails, start, lo + 8, k);
        }
      }
      SubsetSize(s, Range(lo, 8));
    }
  }

  lemma Monotone(fails: seq<int>, start: seq<nat>, i: nat, j: nat)
    requires Epochs(fails, start) && i <= j < |fails|
    ensures fails[i] <= fails[j]
  {
  }

  /** Every epoch has at most five failures, and begins at least fifteen minutes after the one before. */
  lemma EpochsOfRun(run: seq<Login>, key: string) returns (start: seq<nat>)
    requires Sequential(run) && NoSuccess(run, key)
    ensures Epochs(FailedChecks(run, key), start)
  {
    start := RunTracked(run, key, if run == [] then 0 else run[|run| - 1].now);
  }

  // ---------------------------------------------------------------- eight is reached

  function At(seconds: nat): Login { Login("k", seconds * SECOND, false) }

  const BUSY := [At(1), At(901), At(901), At(901), At(902), At(902), At(902), At(902), At(902)]

  lemma NextCheck(run: seq<Login>, seconds: nat, before: Option<Attempts>, after: Attempts)
    requires EntryAfter(run, "k") == before && (before.Some? ==> Remaining(before.value, seconds * SECOND) == 0)
    requires Failed(Looked(before, seconds * SECOND), seconds * SECOND) == after
    ensures EntryAfter(run + [At(seconds)], "k") == Some(after)
    ensures FailedChecks(run + [At(seconds)], "k") == FailedChecks(run, "k") + [seconds * SECOND]
  {
    var longer := run + [At(seconds)];
    assert longer[..|longer| - 1] == run;
  }

  /** The bound is the best one: one failure, three more at the very end of its window, then a full epoch. */
  lemma EightHappens()
    ensures Sequential(BUSY) && NoSuccess(BUSY, "k")
    ensures |Within(FailedChecks(BUSY, "k"), 3 * SECOND)| == 8
  {
    hide EntryAfter, FailedChecks, Within;
    var s, run := SECOND, [];
    NoChecks();
    NextCheck(run, 1, None, Attempts(1, s, 0));
    run := run + [At(1)];
    NextCheck(run, 901, Some(Attempts(1, s, 0)), Attempts(2, s, 0));
    run := run + [At(901)];
    NextCheck(run, 901, Some(Attempts(2, s, 0)), Attempts(3, s, 0));
    run := run + [At(901)];
    NextCheck(run, 901, Some(Attempts(3, s, 0)), Attempts(4, s, 0));
    run := run + [At(901)];
    NextCheck(run, 902, Some(Attempts(4, s, 0)), Attempts(1, 902 * s, 0));
    run := run + [At(902)];
    NextCheck(run, 902, Some(Attempts(1, 902 * s, 0)), Attempts(2, 902 * s, 0));
    run := run + [At(902)];
    NextCheck(run, 902, Some(Attempts(2, 902 * s, 0)), Attempts(3, 902 * s, 0));
    run := run + [At(902)];
    NextCheck(run, 902, Some(Attempts(3, 902 * s, 0)), Attempts(4, 902 * s, 0));
    run := run + [At(902)];
    NextCheck(run, 902, Some(Attempts(4, 902 * s, 0)), Attempts(5, 902 * s, 1802 * s));
    run := run + [At(902)];
    assert run == BUSY;
    EightOfNine(FailedChecks(BUSY, "k"));
  }

  lemma EightOfNine(fails: seq<int>)
    requires var s := SECOND; fails == [s, 901 * s, 901 * s, 901 * s, 902 * s, 902 * s, 902 * s, 902 * s, 902 * s]
    ensures |Within(fails, 3 * SECOND)| == 8
  {
    assert Within(fails, 3 * SECOND) == Range(1, 8);
  }

  lemma NoChecks()
    ensures EntryAfter([], "k") == None && FailedChecks([], "k") == []
  {
  }

  // ---------------------------------------------------------------- waiting

  /** While the lock holds nothing is checked, not even a correct password, and the lock is not prolonged. */
  lemma {:induction false} LockHolds(run: seq<Login>, more: seq<Login>, key: string, a: Attempts)
    requires EntryAfter(run, key) == Some(a)
    requires forall i :: 0 <= i < |more| && more[i].key == key ==> Remaining(a, more[i].now) > 0
    ensures EntryAfter(run + more, key) == Some(a) && FailedChecks(run + more, key) == FailedChecks(run, key)
    decreases |more|
  {
    hide Remaining, HeaderSeconds;
    if more == [] {
      assert run + more == run;
    } else {
      assert (run + more)[..|run + more| - 1] == run + more[..|more| - 1];
      LockHolds(run, more[..|more| - 1], key, a);
    }
  }

  /** Whoever waits as long as the header says is let through to the password check, and a second less would not
      do. The answer may come from a refused login or from the failure that set the lock. */
  lemma WaitingEndsTheLock(a: Attempts, now: int, later: int, correct: bool)
    requires Remaining(a, now) > 0
    ensures var header := HeaderSeconds(Remaining(a, now));
            && header.Some?
            && (later >= now + header.value * SECOND ==> !Attempted(Some(a), later, correct).1.Refused?)
            && Remaining(a, now + (header.value - 1) * SECOND) > 0
  {
    var wait := Remaining(a, now);
    var s := (wait + SECOND - 1) / SECOND;
    assert s * SECOND <= wait + SECOND - 1 < s * SECOND + SECOND;
  }
}
