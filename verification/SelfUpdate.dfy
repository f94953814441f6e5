/** Handing a requested update to the update loop: a flag that is swapped atomically, a channel with room for one
    version, and a loop that waits for the channel and for a timer. */
module SelfUpdate {
  import opened Text

  type Thread = nat

  /** Where the loop is. */
  datatype Loop =
    | Waiting                      // in `select`
    | Manual(version: string)      // runs the command for a request
    | Clearing                     // the command has returned, the flag is still set
    | StoppingTimer
    | Draining                     // the timer had expired already
    | Automatic                    // runs the command because of the timer
    | Resetting

  /** The timer is `armed` until it expires; expiring puts a `tick` into its channel. */
  datatype Timer = Timer(armed: bool, tick: bool)

  datatype State = State(
    pending: bool, queue: seq<string>, senders: map<Thread, string>, loop: Loop, timer: Timer, exited: bool,
    ghost accepted: seq<string>, ghost started: seq<string>)

  const CAPACITY := 1

  ghost const INIT := State(false, [], map[], Waiting, Timer(true, false), false, [], [])

  /** `Swap` is the compare-and-swap of a request that finds the flag free; a request that finds it set is refused
      and changes nothing. */
  datatype Step =
    | Swap(t: Thread, version: string)
    | Refuse(version: string)
    | Send(t: Thread)
    | Receive
    | FinishManual(restart: bool)
    | Clear
    | StopTimer
    | Drain
    | Expire
    | TakeTick
    | FinishAutomatic(restart: bool)
    | Reset

  predicate Enabled(s: State, step: Step) {
    && !s.exited
    && match step
       case Swap(t, _) => !s.pending && t !in s.senders
       case Refuse(_) => s.pending
       case Send(t) => t in s.senders && |s.queue| < CAPACITY
       case Receive => s.loop.Waiting? && s.queue != []
       case FinishManual(_) => s.loop.Manual?
       case Clear => s.loop.Clearing?
       case StopTimer => s.loop.StoppingTimer?
       case Drain => s.loop.Draining?
       case Expire => s.timer.armed
       case TakeTick => s.loop.Waiting? && s.timer.tick
       case FinishAutomatic(_) => s.loop.Automatic?
       case Reset => s.loop.Resetting?
  }

  ghost function Apply(s: State, step: Step): State
    requires Enabled(s, step)
  {
    match step
    case Swap(t, version) =>
      s.(pending := true, senders := s.senders[t := version], accepted := s.accepted + [version])
    case Refuse(_) => s
    case Send(t) => s.(queue := s.queue + [s.senders[t]], senders := s.senders - {t})
    case Receive => s.(queue := s.queue[1..], loop := Manual(s.queue[0]), started := s.started + [s.queue[0]])
    case FinishManual(restart) => if restart then s.(exited := true) else s.(loop := Clearing)
    case Clear => s.(pending := false, loop := StoppingTimer)
    case StopTimer => s.(timer := s.timer.(armed := false), loop := if s.timer.armed then Resetting else Draining)
    case Drain => s.(timer := s.timer.(tick := false), loop := Resetting)
    case Expire => s.(timer := Timer(false, true))
    case TakeTick => s.(timer := s.timer.(tick := false), loop := Automatic)
    case FinishAutomatic(restart) => if restart then s.(exited := true) else s.(loop := Resetting)
    case Reset => s.(timer := s.timer.(armed := true), loop := Waiting)
  }

  ghost predicate ValidRun(s: State, steps: seq<Step>)
    decreases |steps|
  {
    steps != [] ==> Enabled(s, steps[0]) && ValidRun(Apply(s, steps[0]), steps[1..])
  }

  ghost function Final(s: State, steps: seq<Step>): State
    requires ValidRun(s, steps)
    decreases |steps|
  {
    if steps == [] then s else Final(Apply(s, steps[0]), steps[1..])
  }

  // ---------------------------------------------------------------- invariants

  function Busy(loop: Loop): nat { if loop.Manual? || loop.Clearing? then 1 else 0 }

  /** The requests between the swap and the clearing of the flag. */
  ghost function UnderWay(s: State): nat { |s.senders| + |s.queue| + Busy(s.loop) }

  /** The flag is set exactly when there is one such request; there are never two. */
  ghost predicate FlagCounts(s: State) {
    UnderWay(s) == if s.pending then 1 else 0
  }

  /** Accepted versions are started in order; the last one may still be on its way. */
  ghost predicate InOrder(s: State) {
    && (s.senders != map[] ==> s.accepted != [])
    && s.accepted == s.started + s.queue + (if s.senders == map[] then [] else [s.accepted[|s.accepted| - 1]])
    && forall t :: t in s.senders ==> s.senders[t] == s.accepted[|s.accepted| - 1]
  }

  /** The timer never has a stale tick while it is armed, and is never forgotten while the loop waits. */
  ghost predicate TimerSound(s: State) {
    && !(s.timer.armed && s.timer.tick)
    && (s.loop.Waiting? ==> s.timer.armed || s.timer.tick)
    && (s.loop.Automatic? || s.loop.Resetting? ==> !s.timer.armed && !s.timer.tick)
    && (s.loop.Draining? ==> !s.timer.armed)
    && (s.loop.Manual? || s.loop.Clearing? || s.loop.StoppingTimer? ==> s.timer.armed || s.timer.tick)
  }

  ghost predicate Inv(s: State) { FlagCounts(s) && InOrder(s) && TimerSound(s) }

  lemma InitInv()
    ensures Inv(INIT)
  {
  }

  lemma SenderCount(senders: map<Thread, string>, t: Thread)
    requires t in senders
    ensures |senders| >= 1 && |senders - {t}| == |senders| - 1 && (|senders| == 1 ==> senders - {t} == map[])
  {
    assert (senders - {t}).Keys == senders.Keys - {t};
    assert |senders| == |senders.Keys| && |senders - {t}| == |(senders - {t}).Keys|;
    if |senders| == 1 { assert |(senders - {t}).Keys| == 0; }
  }

  lemma NewSender(senders: map<Thread, string>, t: Thread, version: string)
    requires |senders| == 0
    ensures senders == map[] && |senders[t := version]| == 1
  {
    assert senders.Keys == {};
    assert senders[t := version].Keys == {t};
    assert |senders[t := version]| == |senders[t := version].Keys|;
  }

  lemma SwapKeepsFlag(s: State, t: Thread, version: string)
    requires FlagCounts(s) && Enabled(s, Swap(t, version))
    ensures FlagCounts(Apply(s, Swap(t, version)))
  {
    NewSender(s.senders, t, version);
  }

  lemma SendKeepsFlag(s: State, t: Thread)
    requires FlagCounts(s) && Enabled(s, Send(t))
    ensures FlagCounts(Apply(s, Send(t)))
  {
    SenderCount(s.senders, t);
  }

  lemma LoopKeepsFlag(s: State, step: Step)
    requires FlagCounts(s) && Enabled(s, step) && !step.Swap? && !step.Send?
    ensures FlagCounts(Apply(s, step))
  {
    var senders := s.senders;
    assert Apply(s, step).senders == senders;
  }

  lemma KeepsFlag(s: State, step: Step)
    requires Inv(s) && Enabled(s, step)
    ensures FlagCounts(Apply(s, step))
  {
    hide InOrder, TimerSound, FlagCounts, Apply, Enabled;
    match step {
      case Swap(t, version) => SwapKeepsFlag(s, t, version);
      case Send(t) => SendKeepsFlag(s, t);
      case _ => LoopKeepsFlag(s, step);
    }
  }

  lemma SwapKeepsOrder(s: State, t: Thread, version: string)
    requires FlagCounts(s) && InOrder(s) && Enabled(s, Swap(t, version))
    ensures InOrder(Apply(s, Swap(t, version)))
  {
    NewSender(s.senders, t, version);
  }

  lemma SendKeepsOrder(s: State, t: Thread)
    requires FlagCounts(s) && InOrder(s) && Enabled(s, Send(t))
    ensures InOrder(Apply(s, Send(t)))
  {
    SenderCount(s.senders, t);
  }

  lemma ReceiveKeepsOrder(s: State)
    requires FlagCounts(s) && InOrder(s) && Enabled(s, Receive)
    ensures InOrder(Apply(s, Receive))
  {
    hide FlagCounts;
    NoSender(s);
    assert s.queue == [s.queue[0]] + s.queue[1..];
  }

  lemma KeepsOrder(s: State, step: Step)
    requires Inv(s) && Enabled(s, step)
    ensures InOrder(Apply(s, step))
  {
    hide TimerSound, FlagCounts;
    if step.Swap? {
      SwapKeepsOrder(s, step.t, step.version);
    } else if step.Send? {
      SendKeepsOrder(s, step.t);
    } else if step.Receive? {
      ReceiveKeepsOrder(s);
    }
  }

  lemma NoSender(s: State)
    requires FlagCounts(s)
    ensures s.queue != [] || s.loop.Manual? || s.loop.Clearing? ==> s.senders == map[]
  {
    if s.queue != [] || s.loop.Manual? || s.loop.Clearing? {
      assert |s.senders| == 0;
      assert s.senders.Keys == {};
    }
  }

  lemma KeepsTimer(s: State, step: Step)
    requires Inv(s) && Enabled(s, step)
    ensures TimerSound(Apply(s, step))
  {
    hide InOrder, FlagCounts;
  }

  lemma KeepsInv(s: State, step: Step)
    requires Inv(s) && Enabled(s, step)
    ensures Inv(Apply(s, step))
  {
    hide InOrder, FlagCounts, TimerSound, Apply, Enabled;
    KeepsFlag(s, step);
    KeepsOrder(s, step);
    KeepsTimer(s, step);
  }

  lemma {:induction false} RunKeepsInv(s: State, steps: seq<Step>)
    requires Inv(s) && ValidRun(s, steps)
    ensures Inv(Final(s, steps))
    decreases |steps|
  {
    hide Inv, Enabled, Apply;
    if steps != [] {
      KeepsInv(s, steps[0]);
      RunKeepsInv(Apply(s, steps[0]), steps[1..]);
    }
  }

  // ---------------------------------------------------------------- main results

  /** In every reachable state the flag tells whether exactly one request is between its swap and the end of its
      run, and then it is in exactly one place. */
  lemma FlagMeansOneRequest(steps: seq<Step>)
    requires ValidRun(INIT, steps)
    ensures var s := Final(INIT, steps);
            && (s.pending <==> s.senders != map[] || s.queue != [] || s.loop.Manual? || s.loop.Clearing?)
            && UnderWay(s) <= 1
  {
    hide Enabled, Apply, ValidRun, Final, InOrder, TimerSound;
    InitInv();
    RunKeepsInv(INIT, steps);
    var s := Final(INIT, steps);
    assert |s.senders| == |s.senders.Keys|;
    if s.senders != map[] { assert s.senders.Keys != {}; }
  }

  /** Whoever has swapped the flag can send at once: the channel has room. */
  lemma SendNeverBlocks(steps: seq<Step>, t: Thread)
    requires ValidRun(INIT, steps)
    requires var s := Final(INIT, steps); !s.exited && t in s.senders
    ensures Enabled(Final(INIT, steps), Send(t))
  {
    hide Apply, ValidRun, Final, InOrder, TimerSound;
    InitInv();
    RunKeepsInv(INIT, steps);
    SenderCount(Final(INIT, steps).senders, t);
  }

  /** What has been started is a beginning of what was accepted, in the same order, each version once per request,
      and at most one accepted request has not been started. */
  lemma StartedInOrder(steps: seq<Step>)
    requires ValidRun(INIT, steps)
    ensures var s := Final(INIT, steps);
            s.started <= s.accepted && |s.accepted| <= |s.started| + 1
  {
    hide Enabled, Apply, ValidRun, Final, TimerSound;
    InitInv();
    RunKeepsInv(INIT, steps);
    var s := Final(INIT, steps);
    NoSender(s);
  }

  /** Nothing happens after a command has asked for a restart: no request is accepted and no update started. */
  lemma {:induction false} RestartIsLast(s: State, steps: seq<Step>, i: nat)
    requires ValidRun(s, steps) && i < |steps|
    requires steps[i] == FinishManual(true) || steps[i] == FinishAutomatic(true)
    ensures i == |steps| - 1
    decreases |steps|
  {
    if i > 0 {
      RestartIsLast(Apply(s, steps[0]), steps[1..], i - 1);
    } else {
      assert Apply(s, steps[0]).exited;
    }
  }

  /** The loop is never stuck: unless the program has exited, it has a step of its own, or waits with an empty
      channel and a timer that will expire. */
  lemma LoopNeverStuck(steps: seq<Step>)
    requires ValidRun(INIT, steps) && !Final(INIT, steps).exited
    ensures var s := Final(INIT, steps);
            || (s.loop.Waiting? && s.queue == [] && s.timer == Timer(true, false) && Enabled(s, Expire))
            || exists step :: LoopStep(step) && Enabled(s, step)
  {
    hide Apply, ValidRun, Final, InOrder, FlagCounts;
    InitInv();
    RunKeepsInv(INIT, steps);
    var s := Final(INIT, steps);
    var step := match s.loop
      case Waiting => if s.queue != [] then Receive else TakeTick
      case Manual(_) => FinishManual(false)
      case Clearing => Clear
      case StoppingTimer => StopTimer
      case Draining => Drain
      case Automatic => FinishAutomatic(false)
      case Resetting => Reset;
    assert LoopStep(step);
    assert Enabled(s, step) || (s.loop.Waiting? && s.queue == [] && s.timer.armed);
  }

  predicate LoopStep(step: Step) { !step.Swap? && !step.Refuse? && !step.Send? && !step.Expire? }

  // ---------------------------------------------------------------- the objects

  /** The flag and the channel. A send with a full channel would block for ever. */
  class Handoff {
    var pending: bool
    var queue: seq<string>

    ghost predicate Valid()
      reads this
    {
      |queue| <= CAPACITY && (!pending ==> queue == [])
    }

    constructor ()
      ensures Valid() && !pending && queue == []
    {
      pending, queue := false, [];
    }

    /** The channel send: `requires` is the room without which it would not return. */
    method Put(version: string)
      requires |queue| < CAPACITY
      modifies this`queue
      ensures queue == old(queue) + [version]
    {
      queue := queue + [version];
    }

    /** The trigger the server calls. */
    method Trigger(version: string) returns (accepted: bool)
      requires Valid()
      modifies this
      ensures Valid() && pending && accepted == !old(pending)
      ensures queue == if accepted then [version] else old(queue)
    {
      if pending {
        return false;
      }
      pending := true;
      Put(version);
      return true;
    }

    /** The loop takes a version; the flag stays set while its command runs. */
    method Take() returns (version: string)
      requires Valid() && queue != []
      modifies this`queue
      ensures Valid() && pending && queue == [] && old(queue) == [version]
    {
      version := queue[0];
      queue := queue[1..];
    }

    method Done()
      requires Valid() && queue == []
      modifies this`pending
      ensures Valid() && !pending
    {
      pending := false;
    }

    /** One turn of the loop: a queued version is run, and only then is the next request accepted. */
    method Turn() returns (ran: Option<string>)
      requires Valid()
      modifies this
      ensures Valid() && queue == []
      ensures match ran
        case None => old(queue) == [] && pending == old(pending)
        case Some(version) => old(queue) == [version] && old(pending) && !pending
    {
      if queue == [] {
        return None;
      }
      var version := Take();
      Done();
      return Some(version);
    }
  }
}
