/** Logins that overlap. A login reads the clock, looks at the throttle under the lock, checks the password without
    it, and takes the lock again to record a failure, so other logins of the same address can look in between.

    With at most `m` logins of an address under way at a time, at most 2m^2 + 7m - 1 of its failed checks carry a
    time of any fifteen minutes: eight for logins one after another. Without a limit on `m` there is no bound. */
module LoginOverlap {
  import opened Text
  import opened FreshNames
  import opened LoginThrottle

  type Thread = nat

  /** Where a login is: the clock is read, or the throttle has let it through to the password. */
  datatype Call = Arrived(key: string, now: int) | Checking(key: string, now: int)

  datatype State = State(attempts: map<string, Attempts>, clock: int, calls: map<Thread, Call>)

  const INIT := State(map[], 0, map[])

  datatype Step =
    | Arrive(t: Thread, key: string, now: int)
    | Look(t: Thread)       // `loginRetryAfter`; a login that is refused is over
    | Fail(t: Thread)       // the password is wrong: `recordLoginFailure`
    | Succeed(t: Thread)    // it is right: `clearLoginFailures`

  function Entry(s: State, key: string): Option<Attempts> {
    if key in s.attempts then Some(s.attempts[key]) else None
  }

  function WithEntry(s: State, key: string, entry: Option<Attempts>): State {
    match entry
    case None => s.(attempts := s.attempts - {key})
    case Some(a) => s.(attempts := s.attempts[key := a])
  }

  predicate Enabled(s: State, step: Step) {
    match step
    case Arrive(t, _, now) => t !in s.calls && now >= s.clock && now > 0
    case Look(t) => t in s.calls && s.calls[t].Arrived?
    case Fail(t) => t in s.calls && s.calls[t].Checking?
    case Succeed(t) => t in s.calls && s.calls[t].Checking?
  }

  predicate LetsIn(entry: Option<Attempts>, now: int) { entry.None? || Remaining(entry.value, now) <= 0 }

  function Apply(s: State, step: Step): State
    requires Enabled(s, step)
  {
    match step
    case Arrive(t, key, now) => s.(clock := now, calls := s.calls[t := Arrived(key, now)])
    case Look(t) =>
      var (key, now) := (s.calls[t].key, s.calls[t].now);
      if LetsIn(Entry(s, key), now) then
        WithEntry(s, key, Looked(Entry(s, key), now)).(calls := s.calls[t := Checking(key, now)])
      else s.(calls := s.calls - {t})
    case Fail(t) =>
      var (key, now) := (s.calls[t].key, s.calls[t].now);
      WithEntry(s, key, Some(Failed(Entry(s, key), now))).(calls := s.calls - {t})
    case Succeed(t) => WithEntry(s, s.calls[t].key, None).(calls := s.calls - {t})
  }

  ghost predicate ValidRun(s: State, steps: seq<Step>)
    decreases |steps|
  {
    steps != [] ==> Enabled(s, steps[0]) && ValidRun(Apply(s, steps[0]), steps[1..])
  }

  /** A login that no other comes between is the one of `LoginThrottle`: it is refused or decided alike, and leaves
      the same entry and nothing else behind. */
  lemma AloneIsOneLogin(s: State, t: Thread, key: string, now: int, correct: bool)
    requires Enabled(s, Arrive(t, key, now))
    ensures var (entry, outcome) := Attempted(Entry(s, key), now, correct);
            var looking := Apply(s, Arrive(t, key, now));
            && Enabled(looking, Look(t))
            && (var looked := Apply(looking, Look(t));
                if outcome.Refused? then LeavesBehind(s, looked, key, now, entry)
                else
                  var last := if correct then Succeed(t) else Fail(t);
                  Enabled(looked, last) && LeavesBehind(s, Apply(looked, last), key, now, entry))
  {
    hide Failed, Outdated, HeaderSeconds;
    RemainingSeen(Entry(s, key), now);
    assert s.calls - {t} == s.calls;
    assert s.calls[t := Arrived(key, now)] - {t} == s.calls;
    assert s.calls[t := Arrived(key, now)][t := Checking(key, now)] - {t} == s.calls;
  }

  lemma RemainingSeen(entry: Option<Attempts>, now: int)
    ensures entry.Some? && Remaining(entry.value, now) > 0 ==> Looked(entry, now) == entry
  {
  }

  ghost predicate LeavesBehind(s: State, s': State, key: string, now: int, entry: Option<Attempts>) {
    && s'.calls == s.calls
    && s'.clock == now
    && Entry(s', key) == entry
    && forall k :: k != key ==> Entry(s', k) == Entry(s, k)
  }

  /** The logins of one address that are under way. */
  function UnderWay(s: State, key: string): set<Thread> {
    set t | t in s.calls && s.calls[t].key == key
  }

  /** Along the run no login of the address succeeds, and never more than `m` are under way. */
  ghost predicate Within(s: State, steps: seq<Step>, key: string, m: nat)
    requires ValidRun(s, steps)
    decreases |steps|
  {
    && |UnderWay(s, key)| <= m
    && (steps != [] ==>
          && (steps[0].Succeed? ==> s.calls[steps[0].t].key != key)
          && Within(Apply(s, steps[0]), steps[1..], key, m))
  }

  predicate InWindow(now: int, from: int) { from <= now < from + WINDOW }

  predicate Counts(s: State, step: Step, key: string, from: int)
    requires Enabled(s, step)
  {
    step.Fail? && s.calls[step.t].key == key && InWindow(s.calls[step.t].now, from)
  }

  /** The failed checks of the address with a time in the window that begins at `from`. */
  ghost function FailedChecksIn(s: State, steps: seq<Step>, key: string, from: int): nat
    requires ValidRun(s, steps)
    decreases |steps|
  {
    if steps == [] then 0
    else
      (if Counts(s, steps[0], key, from) then 1 else 0)
      + FailedChecksIn(Apply(s, steps[0]), steps[1..], key, from)
  }

  // ---------------------------------------------------------------- invariants

  /** Five failures, and only they, set a lock. */
  predicate Sound(a: Attempts) {
    && a.failures >= 1 && a.first > 0
    && (a.failures < LIMIT ==> a.lockedUntil == 0)
    && (a.failures >= LIMIT ==> a.lockedUntil > 0)
  }

  ghost predicate Inv(s: State) {
    && (forall key :: key in s.attempts ==> Sound(s.attempts[key]))
    && (forall t :: t in s.calls ==> 0 < s.calls[t].now <= s.clock)
  }

  lemma KeepsInv(s: State, step: Step)
    requires Inv(s) && Enabled(s, step)
    ensures Inv(Apply(s, step)) && Apply(s, step).clock >= s.clock
  {
    if step.Fail? {
      var call := s.calls[step.t];
      FailedSound(Entry(s, call.key), call.now);
    }
  }

  lemma FailedSound(entry: Option<Attempts>, now: int)
    requires now > 0 && (entry.Some? ==> Sound(entry.value))
    ensures Sound(Failed(entry, now))
  {
  }

  // ---------------------------------------------------------------- how many checks can still come

  /** Logins under way with a time before the window, in the window, and of the latter those let in. */
  function Older(s: State, key: string, from: int): set<Thread> {
    set t | t in s.calls && s.calls[t].key == key && s.calls[t].now < from
  }

  function Inside(s: State, key: string, from: int): set<Thread> {
    set t | t in s.calls && s.calls[t].key == key && InWindow(s.calls[t].now, from)
  }

  function LetIn(s: State, key: string, from: int): set<Thread> {
    set t | t in s.calls && s.calls[t].key == key && InWindow(s.calls[t].now, from) && s.calls[t].Checking?
  }

  /** A lock that holds to the end of the window. */
  predicate Closed(a: Attempts, from: int) { a.lockedUntil >= from + WINDOW }

  function Most(m: nat): nat { 2 * m + 6 }

  /** The checks that can still come before the next one by a login older than the window. `letIn` of them have
      passed the throttle already. An epoch that began before the window can be closed and opened again by one of
      them, since it may be outdated for it. */
  function Left(entry: Option<Attempts>, from: int, m: nat, letIn: nat): int {
    match entry
    case None => m + 4
    case Some(a) =>
      if a.failures < LIMIT then if a.first >= from then LIMIT - a.failures + m - 1 else 2 * m + 7 - a.failures
      else if !Closed(a, from) then Most(m)
      else if a.first >= from || letIn == 0 then letIn
      else letIn + m + 3
  }

  function Potential(s: State, key: string, from: int, m: nat): int {
    |Older(s, key, from)| * Most(m) + Left(Entry(s, key), from, m, |LetIn(s, key, from)|)
  }

  lemma LeftAtMost(entry: Option<Attempts>, from: int, m: nat, letIn: nat)
    requires m >= 1 && letIn <= m && (entry.Some? ==> Sound(entry.value))
    ensures 0 <= Left(entry, from, m, letIn) <= Most(m)
  {
  }

  /** A failure inside the window uses up one of the checks that are left. */
  lemma FailureUses(entry: Option<Attempts>, from: int, m: nat, letIn: nat, now: int)
    requires 1 <= letIn <= m && InWindow(now, from) && now > 0 && (entry.Some? ==> Sound(entry.value))
    ensures Left(Some(Failed(entry, now)), from, m, letIn - 1) <= Left(entry, from, m, letIn) - 1
  {
  }

  /** Being let in uses up nothing; nor does being refused. */
  lemma LookUses(entry: Option<Attempts>, from: int, m: nat, letIn: nat, now: int)
    requires letIn <= m && m >= 1 && now < from + WINDOW && LetsIn(entry, now) && (entry.Some? ==> Sound(entry.value))
    ensures Left(Looked(entry, now), from, m, letIn) <= Left(entry, from, m, letIn)
    ensures now >= from ==> Left(Looked(entry, now), from, m, letIn + 1) <= Left(entry, from, m, letIn)
  {
  }

  // ---------------------------------------------------------------- steps

  /** Steps of other addresses do not matter. */
  lemma OtherStep(s: State, step: Step, key: string, from: int)
    requires Enabled(s, step) && (if step.Arrive? then step.key else s.calls[step.t].key) != key
    ensures var s' := Apply(s, step);
            && Entry(s', key) == Entry(s, key)
            && Older(s', key, from) == Older(s, key, from)
            && Inside(s', key, from) == Inside(s, key, from)
            && LetIn(s', key, from) == LetIn(s, key, from)
            && !Counts(s, step, key, from)
  {
    hide Failed, Looked, Remaining;
  }

  lemma ArriveStep(s: State, step: Step, key: string, from: int)
    requires Enabled(s, step) && step.Arrive? && step.key == key && step.now >= from
    ensures var s' := Apply(s, step);
            && Entry(s', key) == Entry(s, key)
            && Older(s', key, from) == Older(s, key, from)
            && Inside(s', key, from) == Inside(s, key, from) + (if InWindow(step.now, from) then {step.t} else {})
            && LetIn(s', key, from) == LetIn(s, key, from)
            && step.t in UnderWay(s', key) && step.t !in Older(s', key, from)
  {
  }

  lemma LookStep(s: State, step: Step, key: string, from: int)
    requires Enabled(s, step) && step.Look? && s.calls[step.t].key == key
    ensures var s', now := Apply(s, step), s.calls[step.t].now;
            if LetsIn(Entry(s, key), now) then
              && Entry(s', key) == Looked(Entry(s, key), now)
              && Older(s', key, from) == Older(s, key, from)
              && Inside(s', key, from) == Inside(s, key, from)
              && LetIn(s', key, from) == LetIn(s, key, from) + (if InWindow(now, from) then {step.t} else {})
              && step.t !in LetIn(s, key, from)
            else
              && Entry(s', key) == Entry(s, key)
              && Older(s', key, from) == Older(s, key, from) - {step.t}
              && Inside(s', key, from) == Inside(s, key, from) - {step.t}
              && LetIn(s', key, from) == LetIn(s, key, from)
  {
    hide Failed, Looked, Remaining;
  }

  lemma FailStep(s: State, step: Step, key: string, from: int)
    requires Enabled(s, step) && step.Fail? && s.calls[step.t].key == key
    ensures var s', now := Apply(s, step), s.calls[step.t].now;
            && Entry(s', key) == Some(Failed(Entry(s, key), now))
            && Older(s', key, from) == Older(s, key, from) - {step.t}
            && Inside(s', key, from) == Inside(s, key, from) - {step.t}
            && LetIn(s', key, from) == LetIn(s, key, from) - {step.t}
            && (now < from ==> step.t in Older(s, key, from))
            && (InWindow(now, from) ==> step.t in Inside(s, key, from) && step.t in LetIn(s, key, from))
  {
    hide Failed, Looked, Remaining;
  }

  predicate IsOf(s: State, step: Step, key: string)
    requires Enabled(s, step)
  {
    (if step.Arrive? then step.key else s.calls[step.t].key) == key
  }

  lemma Smaller(a: set<Thread>, t: Thread)
    ensures |a - {t}| == |a| - (if t in a then 1 else 0)
  {
  }

  lemma UnderWayParts(s: State, key: string, from: int)
    ensures |LetIn(s, key, from)| <= |Inside(s, key, from)| <= |UnderWay(s, key)|
    ensures |Older(s, key, from)| + |Inside(s, key, from)| <= |UnderWay(s, key)|
  {
    SubsetSize(LetIn(s, key, from), Inside(s, key, from));
    SubsetSize(Inside(s, key, from), UnderWay(s, key));
    assert Older(s, key, from) !! Inside(s, key, from);
    SubsetSize(Older(s, key, from) + Inside(s, key, from), UnderWay(s, key));
  }

  lemma EntrySound(s: State, key: string)
    requires Inv(s)
    ensures Entry(s, key).Some? ==> Sound(Entry(s, key).value)
  {
  }

  /** Nobody of this address has come after the window. */
  ghost predicate NoneLater(s: State, key: string, from: int) {
    forall t :: t in s.calls && s.calls[t].key == key ==> s.calls[t].now < from + WINDOW
  }

  /** No step but an arrival after the window raises the potential, and a counted failure lowers it. */
  lemma PotentialFalls(s: State, step: Step, key: string, from: int, m: nat)
    requires Inv(s) && Enabled(s, step) && s.clock >= from && NoneLater(s, key, from)
    requires |UnderWay(s, key)| <= m && 1 <= m
    requires step.Succeed? ==> !IsOf(s, step, key)
    requires step.Arrive? && step.key == key ==> InWindow(step.now, from)
    ensures Potential(Apply(s, step), key, from, m) <= Potential(s, key, from, m) - (if Counts(s, step, key, from) then 1 else 0)
  {
    hide Apply, Older, Inside, LetIn, Entry, Left, Most, Failed, Looked, UnderWay, Inv, LetsIn;
    if !IsOf(s, step, key) {
      OtherStep(s, step, key, from);
    } else {
      UnderWayParts(s, key, from);
      EntrySound(s, key);
      var entry, letIn := Entry(s, key), LetIn(s, key, from);
      match step {
        case Arrive(t, _, now) => ArriveStep(s, step, key, from);
        case Look(t) =>
          LookStep(s, step, key, from);
          Smaller(Older(s, key, from), t);
          if LetsIn(entry, s.calls[t].now) {
            LookUses(entry, from, m, |letIn|, s.calls[t].now);
          } else {
            FewerOlder(|Older(s, key, from)|, |Older(s, key, from) - {t}|, m);
          }
        case Fail(t) =>
          FailFalls(s, step, key, from, m);
      }
    }
  }

  lemma FailFalls(s: State, step: Step, key: string, from: int, m: nat)
    requires Inv(s) && Enabled(s, step) && s.clock >= from && NoneLater(s, key, from)
    requires |UnderWay(s, key)| <= m && 1 <= m
    requires step.Fail? && IsOf(s, step, key)
    ensures Potential(Apply(s, step), key, from, m) <= Potential(s, key, from, m) - (if Counts(s, step, key, from) then 1 else 0)
  {
    hide Apply, Older, Inside, LetIn, Entry, Left, Most, Failed, Looked, UnderWay, Inv, LetsIn;
    UnderWayParts(s, key, from);
    EntrySound(s, key);
    var entry, letIn, t := Entry(s, key), LetIn(s, key, from), step.t;
    FailStep(s, step, key, from);
    var now := s.calls[t].now;
    Smaller(letIn, t);
    Smaller(Older(s, key, from), t);
    if now < from {
      OlderFails(s, step, key, from, m);
    } else {
      TimesPositive(s, t);
      FailureUses(entry, from, m, |letIn|, now);
      assert t !in Older(s, key, from) by { NotOlder(s, key, from, t); }
    }
  }

  lemma TimesPositive(s: State, t: Thread)
    requires Inv(s) && t in s.calls
    ensures s.calls[t].now > 0
  {
  }

  lemma NotOlder(s: State, key: string, from: int, t: Thread)
    requires t in s.calls && s.calls[t].now >= from
    ensures t !in Older(s, key, from)
  {
  }

  lemma FewerOlder(a: nat, b: nat, m: nat)
    requires b <= a
    ensures b * Most(m) <= a * Most(m)
  {
  }

  /** An older login takes its share with it, whatever it does to the entry. */
  lemma OlderFails(s: State, step: Step, key: string, from: int, m: nat)
    requires Inv(s) && Enabled(s, step) && step.Fail? && s.calls[step.t].key == key && s.calls[step.t].now < from
    requires |UnderWay(s, key)| <= m && 1 <= m
    ensures Potential(Apply(s, step), key, from, m) <= Potential(s, key, from, m)
  {
    hide Apply, Older, Inside, LetIn, Entry, Left, Failed, Looked, UnderWay, Inv;
    var s' := Apply(s, step);
    FailStep(s, step, key, from);
    KeepsInv(s, step);
    EntrySound(s, key);
    EntrySound(s', key);
    UnderWayParts(s, key, from);
    Smaller(Older(s, key, from), step.t);
    SubsetSize(LetIn(s', key, from), LetIn(s, key, from));
    LeftAtMost(Entry(s, key), from, m, |LetIn(s, key, from)|);
    LeftAtMost(Entry(s', key), from, m, |LetIn(s', key, from)|);
    var n := |Older(s, key, from)|;
    assert (n - 1) * Most(m) == n * Most(m) - Most(m);
  }

  // ---------------------------------------------------------------- the bound

  /** After the window, what is under way is all that can still count. */
  lemma {:induction false} AfterWindow(s: State, steps: seq<Step>, key: string, from: int, m: nat)
    requires Inv(s) && ValidRun(s, steps) && Within(s, steps, key, m) && s.clock >= from + WINDOW
    ensures FailedChecksIn(s, steps, key, from) <= |Inside(s, key, from)|
    decreases |steps|
  {
    hide Apply, Older, Inside, LetIn, Entry, UnderWay, Inv;
    if steps != [] {
      var step := steps[0];
      KeepsInv(s, step);
      AfterWindow(Apply(s, step), steps[1..], key, from, m);
      if !IsOf(s, step, key) {
        OtherStep(s, step, key, from);
      } else {
        Smaller(Inside(s, key, from), step.t);
        match step {
          case Arrive(t, _, now) => ArriveStep(s, step, key, from);
          case Look(t) => LookStep(s, step, key, from);
          case Fail(t) => FailStep(s, step, key, from);
        }
      }
    }
  }

  lemma {:induction false} InsideWindow(s: State, steps: seq<Step>, key: string, from: int, m: nat)
    requires Inv(s) && ValidRun(s, steps) && Within(s, steps, key, m) && 1 <= m
    requires s.clock >= from && NoneLater(s, key, from)
    ensures FailedChecksIn(s, steps, key, from) <= Potential(s, key, from, m) + m - 1
    decreases |steps|
  {
    hide Apply, Older, Inside, LetIn, Entry, UnderWay, Inv, Potential, NoneLater;
    if steps == [] {
      PotentialPositive(s, key, from, m);
    } else {
      var step := steps[0];
      KeepsInv(s, step);
      var s' := Apply(s, step);
      if step.Arrive? && step.key == key && !InWindow(step.now, from) {
        LateLeaves(s, step, key, from, m);
        AfterWindow(s', steps[1..], key, from, m);
        PotentialPositive(s, key, from, m);
      } else {
        StillNoneLater(s, step, key, from);
        InsideWindow(s', steps[1..], key, from, m);
        PotentialFalls(s, step, key, from, m);
      }
    }
  }

  lemma PotentialPositive(s: State, key: string, from: int, m: nat)
    requires Inv(s) && |UnderWay(s, key)| <= m && 1 <= m
    ensures Potential(s, key, from, m) >= 0
  {
    hide Left, Older, LetIn, UnderWay, Inv, Entry;
    UnderWayParts(s, key, from);
    EntrySound(s, key);
    LeftAtMost(Entry(s, key), from, m, |LetIn(s, key, from)|);
  }

  /** Whoever comes after the window takes one of the places. */
  lemma LateLeaves(s: State, step: Step, key: string, from: int, m: nat)
    requires Enabled(s, step) && step.Arrive? && step.key == key && step.now >= from + WINDOW
    requires |UnderWay(Apply(s, step), key)| <= m
    ensures |Inside(Apply(s, step), key, from)| <= m - 1 && Apply(s, step).clock >= from + WINDOW
  {
    var s' := Apply(s, step);
    assert step.t in UnderWay(s', key) && step.t !in Inside(s', key, from);
    SubsetSize(Inside(s', key, from), UnderWay(s', key) - {step.t});
  }

  lemma StillNoneLater(s: State, step: Step, key: string, from: int)
    requires Enabled(s, step) && NoneLater(s, key, from)
    requires step.Arrive? && step.key == key ==> step.now < from + WINDOW
    ensures NoneLater(Apply(s, step), key, from)
  {
  }

  /** The bound on the failed checks of fifteen minutes, with `m` logins under way at most. */
  function Bound(m: nat): int { m * Most(m) + m - 1 }

  lemma {:induction false} BeforeWindow(s: State, steps: seq<Step>, key: string, from: int, m: nat)
    requires Inv(s) && ValidRun(s, steps) && Within(s, steps, key, m) && 1 <= m && Inside(s, key, from) == {}
    ensures FailedChecksIn(s, steps, key, from) <= Bound(m)
    decreases |steps|
  {
    hide Apply, Older, LetIn, Entry, UnderWay, Inv, Potential, NoneLater;
    if steps != [] {
      var step := steps[0];
      KeepsInv(s, step);
      var s' := Apply(s, step);
      CountedIsInside(s, step, key, from);
      if step.Arrive? && step.key == key && InWindow(step.now, from) {
        OnTime(s, step, key, from);
        FirstInside(s, step, key, from, m);
        InsideWindow(s', steps[1..], key, from, m);
      } else {
        StaysEmpty(s, step, key, from);
        BeforeWindow(s', steps[1..], key, from, m);
      }
    }
  }

  lemma CountedIsInside(s: State, step: Step, key: string, from: int)
    requires Enabled(s, step)
    ensures Counts(s, step, key, from) ==> step.t in Inside(s, key, from)
  {
  }

  lemma OnTime(s: State, step: Step, key: string, from: int)
    requires Inv(s) && Enabled(s, step) && step.Arrive? && InWindow(step.now, from)
    ensures NoneLater(Apply(s, step), key, from)
  {
  }

  lemma StaysEmpty(s: State, step: Step, key: string, from: int)
    requires Enabled(s, step) && Inside(s, key, from) == {}
    requires !(step.Arrive? && step.key == key && InWindow(step.now, from))
    ensures Inside(Apply(s, step), key, from) == {}
  {
    hide Failed, Looked, Remaining;
    assert Inside(Apply(s, step), key, from) <= Inside(s, key, from);
  }

  /** When the first login of the window arrives, the others under way are older. */
  lemma FirstInside(s: State, step: Step, key: string, from: int, m: nat)
    requires Inv(s) && Enabled(s, step) && step.Arrive? && step.key == key && InWindow(step.now, from)
    requires |UnderWay(Apply(s, step), key)| <= m && 1 <= m
    ensures Apply(s, step).clock >= from
    ensures Potential(Apply(s, step), key, from, m) <= m * Most(m)
  {
    hide Left, Entry, LetIn, Inv;
    var s' := Apply(s, step);
    KeepsInv(s, step);
    UnderWayParts(s', key, from);
    EntrySound(s', key);
    LeftAtMost(Entry(s', key), from, m, |LetIn(s', key, from)|);
    assert step.t in Inside(s', key, from);
    assert |Inside(s', key, from)| >= 1;
    var n := |Older(s', key, from)|;
    assert n <= m - 1;
    FewerOlder(m - 1, n, m);
    assert (m - 1) * Most(m) == m * Most(m) - Most(m);
  }

  /** With a clock that never goes back, no successful login of the address and at most `m` of its logins under way
      at a time, in every interleaving. */
  lemma BoundedByOverlap(steps: seq<Step>, key: string, from: int, m: nat)
    requires ValidRun(INIT, steps) && Within(INIT, steps, key, m)
    ensures FailedChecksIn(INIT, steps, key, from) <= if m == 0 then 0 else 2 * m * m + 7 * m - 1
  {
    assert Inv(INIT) && Inside(INIT, key, from) == {};
    if m == 0 {
      NobodyChecks(INIT, steps, key, from);
    } else {
      BeforeWindow(INIT, steps, key, from, m);
      assert Bound(m) == 2 * m * m + 7 * m - 1;
    }
  }

  lemma {:induction false} NobodyChecks(s: State, steps: seq<Step>, key: string, from: int)
    requires ValidRun(s, steps) && Within(s, steps, key, 0)
    ensures FailedChecksIn(s, steps, key, from) == 0
    decreases |steps|
  {
    hide Apply;
    if steps != [] {
      CountedIsInside(s, steps[0], key, from);
      UnderWayParts(s, key, from);
      NobodyChecks(Apply(s, steps[0]), steps[1..], key, from);
    }
  }

  // ---------------------------------------------------------------- all at once

  const KEY := "k"

  function ArriveAll(i: nat, n: nat): seq<Step>
    requires i <= n
    decreases n - i
  {
    if i == n then [] else [Arrive(i, KEY, 1)] + ArriveAll(i + 1, n)
  }

  function LookAll(i: nat, n: nat): seq<Step>
    requires i <= n
    decreases n - i
  {
    if i == n then [] else [Look(i)] + LookAll(i + 1, n)
  }

  function FailAll(i: nat, n: nat): seq<Step>
    requires i <= n
    decreases n - i
  {
    if i == n then [] else [Fail(i)] + FailAll(i + 1, n)
  }

  /** The run is possible, keeps to the limit, and checks that many passwords. */
  ghost predicate Checks(s: State, steps: seq<Step>, n: nat, count: nat) {
    && ValidRun(s, steps)
    && Within(s, steps, KEY, n)
    && FailedChecksIn(s, steps, KEY, 1) == count
  }

  ghost predicate Crowd(s: State, n: nat) {
    forall t :: t in s.calls ==> t < n && s.calls[t].key == KEY && s.calls[t].now == 1
  }

  lemma CrowdSize(s: State, n: nat)
    requires Crowd(s, n)
    ensures |UnderWay(s, KEY)| <= n
  {
    forall t | t in UnderWay(s, KEY) ensures t in Range(0, n) { assert t in s.calls; }
    SubsetSize(UnderWay(s, KEY), Range(0, n));
  }

  lemma OneStep(s: State, step: Step, rest: seq<Step>, n: nat, count: nat)
    requires Crowd(s, n) && Enabled(s, step) && !step.Succeed? && Checks(Apply(s, step), rest, n, count)
    ensures Checks(s, [step] + rest, n, count + (if Counts(s, step, KEY, 1) then 1 else 0))
  {
    hide Apply, Enabled, Counts;
    CrowdSize(s, n);
    assert ([step] + rest)[1..] == rest;
  }

  lemma {:induction false} AllFail(s: State, i: nat, n: nat)
    requires i <= n && Crowd(s, n) && forall t: nat :: i <= t < n ==> t in s.calls && s.calls[t].Checking?
    ensures Checks(s, FailAll(i, n), n, n - i)
    decreases n - i
  {
    hide Failed;
    if i == n {
      CrowdSize(s, n);
    } else {
      AllFail(Apply(s, Fail(i)), i + 1, n);
      OneStep(s, Fail(i), FailAll(i + 1, n), n, n - i - 1);
    }
  }

  /** All have arrived, and the first `i` have been let in. */
  ghost predicate HalfIn(s: State, i: nat, n: nat) {
    && Crowd(s, n) && KEY !in s.attempts
    && forall t: nat :: t < n ==> t in s.calls && (t < i ==> s.calls[t].Checking?) && (t >= i ==> s.calls[t].Arrived?)
  }

  lemma NextIn(s: State, i: nat, n: nat)
    requires i < n && HalfIn(s, i, n)
    ensures Enabled(s, Look(i)) && HalfIn(Apply(s, Look(i)), i + 1, n)
  {
    hide Remaining;
  }

  lemma {:induction false} AllLook(s: State, i: nat, n: nat)
    requires i <= n && HalfIn(s, i, n)
    ensures Checks(s, LookAll(i, n) + FailAll(0, n), n, n)
    decreases n - i
  {
    hide Apply, Enabled, Checks;
    if i == n {
      AllFail(s, 0, n);
      assert LookAll(n, n) + FailAll(0, n) == FailAll(0, n);
    } else {
      NextIn(s, i, n);
      AllLook(Apply(s, Look(i)), i + 1, n);
      OneStep(s, Look(i), LookAll(i + 1, n) + FailAll(0, n), n, n);
      assert LookAll(i, n) + FailAll(0, n) == [Look(i)] + (LookAll(i + 1, n) + FailAll(0, n));
    }
  }

  lemma {:induction false} AllArrive(s: State, i: nat, n: nat)
    requires i <= n && Crowd(s, n) && KEY !in s.attempts && s.clock <= 1
    requires forall t: nat :: t in s.calls <==> t < i
    requires forall t :: t in s.calls ==> s.calls[t].Arrived?
    ensures Checks(s, ArriveAll(i, n) + (LookAll(0, n) + FailAll(0, n)), n, n)
    decreases n - i
  {
    hide Checks, LookAll, FailAll;
    var rest := LookAll(0, n) + FailAll(0, n);
    if i == n {
      AllLook(s, 0, n);
      assert ArriveAll(n, n) + rest == rest;
    } else {
      AllArrive(Apply(s, Arrive(i, KEY, 1)), i + 1, n);
      OneStep(s, Arrive(i, KEY, 1), ArriveAll(i + 1, n) + rest, n, n);
      assert ArriveAll(i, n) + rest == [Arrive(i, KEY, 1)] + (ArriveAll(i + 1, n) + rest);
    }
  }

  /** However many logins arrive together, all get their password checked: nine in one window, or any number. */
  lemma AllAtOnce(n: nat)
    ensures var steps := ArriveAll(0, n) + (LookAll(0, n) + FailAll(0, n));
            ValidRun(INIT, steps) && Within(INIT, steps, KEY, n) && FailedChecksIn(INIT, steps, KEY, 1) == n
  {
    AllArrive(INIT, 0, n);
  }
}
