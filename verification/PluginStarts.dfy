/** Which plugins are started, over whole runs of the plugin host: those asked for, and those a reconcile is to start. */
module PluginStarts {
  import opened Text
  import opened PluginHost

  // ---------------------------------------------------------------- what one reconcile starts

  /** The packs for which call `t` starts further calls in a run, in order. */
  function StartedBy(s: State, steps: seq<Step>, t: Thread): seq<Pack>
    requires ValidRun(s, steps)
    decreases |steps|
  {
    if steps == [] then [] else NewCall(s, steps[0], t) + StartedBy(Apply(s, steps[0]), steps[1..], t)
  }

  function NewCall(s: State, step: Step, t: Thread): seq<Pack>
    requires Enabled(s, step)
  {
    if !step.Launch? || step.t != t || step.started !in Apply(s, step).calls then []
    else match Apply(s, step).calls[step.started]
      case Checking(pack) => [pack]
      case _ => []
  }

  /** The packs a reconcile still has before it. */
  function Remaining(call: Call): Option<seq<Pack>> {
    match call
    case AwaitSweep(packs) => Some(packs)
    case Sweeping(packs, _, _, _) => Some(packs)
    case Launching(packs) => Some(packs)
    case _ => None
  }

  predicate Reconciling(s: State, t: Thread, rest: seq<Pack>) {
    t in s.calls && Remaining(s.calls[t]) == Some(rest)
  }

  /** A step of any call leaves a reconcile with its packs, but for the one that is being launched. */
  lemma StepLaunches(s: State, step: Step, t: Thread, rest: seq<Pack>) returns (rest': seq<Pack>)
    requires Enabled(s, step) && Reconciling(s, t, rest)
    ensures Reconciling(Apply(s, step), t, rest')
    ensures NewCall(s, step, t) + Wanted(rest') == Wanted(rest)
    ensures rest' != rest ==> s.calls[t].Launching? && rest != [] && rest' == rest[1..]
  {
    hide Matches, ActivePacks, IsRunning;
    rest' := Remaining(Apply(s, step).calls[t]).value;
  }

  lemma {:induction false} LaunchesInOrder(s: State, steps: seq<Step>, t: Thread, rest: seq<Pack>) returns (rest': seq<Pack>)
    requires ValidRun(s, steps) && Reconciling(s, t, rest)
    ensures Reconciling(Final(s, steps), t, rest')
    ensures StartedBy(s, steps, t) + Wanted(rest') == Wanted(rest)
    decreases |steps|
  {
    hide Reconciling, Wanted, Enabled, Apply, NewCall;
    if steps == [] {
      rest' := rest;
    } else {
      var next := StepLaunches(s, steps[0], t, rest);
      rest' := LaunchesInOrder(Apply(s, steps[0]), steps[1..], t, next);
      var first, later := NewCall(s, steps[0], t), StartedBy(Apply(s, steps[0]), steps[1..], t);
      assert (first + later) + Wanted(rest') == first + (later + Wanted(rest'));
    }
  }

  /** A call does not begin anew. */
  lemma {:induction false} BeginsOnce(s: State, steps: seq<Step>, t: Thread, i: nat, packs: seq<Pack>)
    requires ValidRun(s, steps) && i < |steps| && steps[i] == Reconcile(t, packs)
    ensures t !in s.calls
    decreases |steps|
  {
    hide Apply;
    if i > 0 {
      BeginsOnce(Apply(s, steps[0]), steps[1..], t, i - 1, packs);
      CallsStay(s, steps[0]);
    }
  }

  lemma CallsStay(s: State, step: Step)
    requires Enabled(s, step)
    ensures s.calls.Keys <= Apply(s, step).calls.Keys
  {
    hide Matches, ActivePacks, RunsInBackground, IsRunning;
  }

  /** In every interleaving: what a reconcile has started so far, and what it is still to start, are the wanted ones
      of its packs, each once and in order. */
  lemma {:induction false} ReconcileStarts(s: State, steps: seq<Step>, i: nat, t: Thread, packs: seq<Pack>) returns (rest: seq<Pack>)
    requires ValidRun(s, steps) && i < |steps| && steps[i] == Reconcile(t, packs)
    ensures Reconciling(Final(s, steps), t, rest)
    ensures StartedBy(s, steps, t) + Wanted(rest) == Wanted(packs)
    decreases |steps|
  {
    hide Wanted, Enabled, Apply;
    var s' := Apply(s, steps[0]);
    BeginsOnce(s, steps, t, i, packs);
    NoneBefore(s, steps[0], t);
    if i == 0 {
      assert Reconciling(s', t, packs) by { ReconcileBegins(s, t, packs); }
      rest := LaunchesInOrder(s', steps[1..], t, packs);
    } else {
      rest := ReconcileStarts(s', steps[1..], i - 1, t, packs);
    }
  }

  lemma ReconcileBegins(s: State, t: Thread, packs: seq<Pack>)
    requires Enabled(s, Reconcile(t, packs))
    ensures Reconciling(Apply(s, Reconcile(t, packs)), t, packs)
  {
  }

  lemma NoneBefore(s: State, step: Step, t: Thread)
    requires Enabled(s, step) && t !in s.calls
    ensures NewCall(s, step, t) == []
  {
  }

  /** A reconcile that is through has started one call for each wanted pack, in order, and no other. */
  lemma ReconcileStartsTheWanted(steps: seq<Step>, i: nat, t: Thread, packs: seq<Pack>)
    requires ValidRun(INIT, steps) && i < |steps| && steps[i] == Reconcile(t, packs)
    requires t in Final(INIT, steps).calls && Final(INIT, steps).calls[t] == Launching([])
    ensures StartedBy(INIT, steps, t) == Wanted(packs)
  {
    hide ValidRun, Final;
    var rest := ReconcileStarts(INIT, steps, i, t, packs);
  }

  // ---------------------------------------------------------------- what is started at all

  /** The packs a step asks to be run. */
  function AskedBy(step: Step): set<Pack> {
    match step
    case Invoke(_, pack) => if pack.grpc then {pack} else {}
    case Reconcile(_, packs) => set p | p in Wanted(packs)
    case _ => {}
  }

  function AskedIn(steps: seq<Step>): set<Pack> {
    if steps == [] then {} else AskedBy(steps[0]) + AskedIn(steps[1..])
  }

  predicate CallAsked(call: Call, asked: set<Pack>) {
    match call
    case Checking(pack) => pack in asked
    case Starting(pack) => pack in asked
    case Started(pack, _) => pack in asked
    case Rechecking(pack, _) => pack in asked
    case _ => Remaining(call).Some? ==> forall p :: p in Wanted(Remaining(call).value) ==> p in asked
  }

  predicate OnlyAsked(s: State, asked: set<Pack>) {
    && (forall t :: t in s.calls ==> CallAsked(s.calls[t], asked))
    && (forall id :: id in s.clients ==> s.clients[id].pack in asked)
  }

  lemma MoreAsked(call: Call, asked: set<Pack>, more: set<Pack>)
    requires CallAsked(call, asked) && asked <= more
    ensures CallAsked(call, more)
  {
    hide Wanted;
  }

  lemma CallStaysAsked(s: State, step: Step, asked: set<Pack>, t: Thread)
    requires Enabled(s, step) && OnlyAsked(s, asked) && t in Apply(s, step).calls
    ensures CallAsked(Apply(s, step).calls[t], asked + AskedBy(step))
  {
    hide Matches, ActivePacks, IsRunning, Wanted, RunsInBackground;
    var more := asked + AskedBy(step);
    if t in s.calls { MoreAsked(s.calls[t], asked, more); }
    if Actor(step).Some? && step.t in s.calls {
      assert CallAsked(s.calls[step.t], asked);
      if step.Launch? { LaunchAsked(s, step, asked); }
    }
  }

  lemma LaunchAsked(s: State, step: Step, asked: set<Pack>)
    requires Enabled(s, step) && step.Launch? && CallAsked(s.calls[step.t], asked)
    ensures var packs := s.calls[step.t].packs;
            (RunsInBackground(packs[0]) ==> packs[0] in asked) && forall p :: p in Wanted(packs[1..]) ==> p in asked
  {
    var packs := s.calls[step.t].packs;
    assert forall p :: p in Wanted(packs[1..]) ==> p in Wanted(packs);
  }

  lemma EntriesStayAsked(s: State, step: Step, asked: set<Pack>)
    requires Enabled(s, step) && OnlyAsked(s, asked)
    ensures forall id :: id in Apply(s, step).clients ==> Apply(s, step).clients[id].pack in asked
  {
    hide Matches, ActivePacks, IsRunning, Wanted, RunsInBackground;
    if step.Recheck? { assert CallAsked(s.calls[step.t], asked); }
  }

  lemma {:induction false} RunOnlyAsked(s: State, steps: seq<Step>, asked: set<Pack>)
    requires ValidRun(s, steps) && OnlyAsked(s, asked)
    ensures OnlyAsked(Final(s, steps), asked + AskedIn(steps))
    decreases |steps|
  {
    hide Apply, Enabled, CallAsked;
    if steps == [] {
      assert asked + AskedIn(steps) == asked;
    } else {
      var s', more := Apply(s, steps[0]), asked + AskedBy(steps[0]);
      forall t | t in s'.calls ensures CallAsked(s'.calls[t], more) {
        CallStaysAsked(s, steps[0], asked, t);
      }
      EntriesStayAsked(s, steps[0], asked);
      RunOnlyAsked(s', steps[1..], more);
      assert more + AskedIn(steps[1..]) == asked + AskedIn(steps);
    }
  }

  /** In every interleaving a process is spawned only for a pack that a request named or that a reconcile had to
      start, and only such packs are ever registered. */
  lemma SpawnedWereAskedFor(steps: seq<Step>, t: Thread, pid: Pid)
    requires ValidRun(INIT, steps) && Enabled(Final(INIT, steps), Spawn(t, pid))
    ensures Final(INIT, steps).calls[t].pack in AskedIn(steps)
    ensures forall id :: id in Final(INIT, steps).clients ==> Final(INIT, steps).clients[id].pack in AskedIn(steps)
  {
    RunOnlyAsked(INIT, steps, {});
    assert {} + AskedIn(steps) == AskedIn(steps);
    assert CallAsked(Final(INIT, steps).calls[t], AskedIn(steps));
  }
}
