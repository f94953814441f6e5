/** The plugin host: a map of running plugin processes, used by concurrent calls under one mutex.

    Starting a process happens outside the mutex, so a call checks the map, starts, and checks again. The
    interleavings are the runs of a state machine; each critical section is also a method of `Host`. */
module PluginHost {
  import opened Text

  /** `grpc` and `background` are what the runtime declares. */
  datatype Pack = Pack(
    id: string, version: string, rootDir: string, grpc: bool, background: bool, permissions: seq<string>)

  type Pid = nat

  datatype Client = Client(pack: Pack, pid: Pid)

  /** A process runs, is gone but not yet waited for, or has its `done` channel closed. */
  datatype Status = Running | Dead | Reaped

  /** Where a goroutine is. */
  datatype Call =
    | Checking(pack: Pack)                 // before the first locked check
    | Starting(pack: Pack)                 // unlocked, nothing started yet
    | Started(pack: Pack, pid: Pid)        // process started, handshake under way
    | Rechecking(pack: Pack, pid: Pid)     // ready, before the second locked check
    | Stopping(pid: Pid)                   // start failed or lost the race
    | AwaitSweep(packs: seq<Pack>)
    | Sweeping(packs: seq<Pack>, before: map<string, Client>, todo: set<string>, victim: Option<string>)
    | Launching(packs: seq<Pack>)
    | AwaitDrain
    | Draining(todo: set<string>, victim: Option<string>)
    | Returned

  type Thread = nat

  datatype State = State(
    clients: map<string, Client>, procs: map<Pid, Status>, calls: map<Thread, Call>, lock: Option<Thread>)

  const INIT := State(map[], map[], map[], None)

  datatype Step =
    | Invoke(t: Thread, pack: Pack)
    | Check(t: Thread)
    | Spawn(t: Thread, pid: Pid)
    | SpawnFails(t: Thread)
    | Handshake(t: Thread, ok: bool)
    | Recheck(t: Thread)
    | Kill(t: Thread)
    | Dies(pid: Pid)
    | Reap(pid: Pid)
    | Reconcile(t: Thread, packs: seq<Pack>)
    | SweepBegin(t: Thread)
    | SweepVisit(t: Thread, id: string)
    | SweepDelete(t: Thread)
    | SweepEnd(t: Thread)
    | Launch(t: Thread, started: Thread)
    | Close(t: Thread)
    | DrainBegin(t: Thread)
    | DrainVisit(t: Thread, id: string)
    | DrainDelete(t: Thread)
    | DrainEnd(t: Thread)

  // ---------------------------------------------------------------- the critical sections

  /** `pluginRunning`: the `done` channel is still open. */
  predicate IsRunning(s: State, client: Client) {
    client.pid in s.procs && s.procs[client.pid] != Reaped
  }

  function Killed(procs: map<Pid, Status>, pid: Pid): map<Pid, Status> {
    if pid in procs && procs[pid] == Running then procs[pid := Dead] else procs
  }

  /** The active packs by ID; a later pack with the same ID wins. */
  function ActivePacks(packs: seq<Pack>): map<string, Pack> {
    if packs == [] then map[]
    else ActivePacks(packs[..|packs| - 1])[packs[|packs| - 1].id := packs[|packs| - 1]]
  }

  predicate Matches(client: Client, id: string, active: map<string, Pack>) {
    id in active && client.pack.version == active[id].version && client.pack.rootDir == active[id].rootDir
  }

  function Matching(clients: map<string, Client>, active: map<string, Pack>): map<string, Client> {
    map id | id in clients && Matches(clients[id], id, active) :: clients[id]
  }

  predicate RunsInBackground(pack: Pack) { pack.grpc && pack.background && "background.run" in pack.permissions }

  // ---------------------------------------------------------------- steps

  predicate At(s: State, t: Thread) { t in s.calls }

  predicate Enabled(s: State, step: Step) {
    match step
    case Invoke(t, _) => t !in s.calls
    case Check(t) => At(s, t) && s.calls[t].Checking? && s.lock.None?
    case Spawn(t, pid) => At(s, t) && s.calls[t].Starting? && pid !in s.procs
    case SpawnFails(t) => At(s, t) && s.calls[t].Starting?
    case Handshake(t, _) => At(s, t) && s.calls[t].Started?
    case Recheck(t) => At(s, t) && s.calls[t].Rechecking? && s.lock.None?
    case Kill(t) => At(s, t) && s.calls[t].Stopping?
    case Dies(pid) => pid in s.procs && s.procs[pid] == Running
    case Reap(pid) => pid in s.procs && s.procs[pid] == Dead
    case Reconcile(t, _) => t !in s.calls
    case SweepBegin(t) => At(s, t) && s.calls[t].AwaitSweep? && s.lock.None?
    case SweepVisit(t, id) =>
      At(s, t) && s.calls[t].Sweeping? && s.calls[t].victim.None? && id in s.calls[t].todo && id in s.clients
    case SweepDelete(t) => At(s, t) && s.calls[t].Sweeping? && s.calls[t].victim.Some?
    case SweepEnd(t) => At(s, t) && s.calls[t].Sweeping? && s.calls[t].victim.None? && s.calls[t].todo == {}
    case Launch(t, started) => At(s, t) && s.calls[t].Launching? && s.calls[t].packs != [] && started !in s.calls
    case Close(t) => t !in s.calls
    case DrainBegin(t) => At(s, t) && s.calls[t].AwaitDrain? && s.lock.None?
    case DrainVisit(t, id) =>
      At(s, t) && s.calls[t].Draining? && s.calls[t].victim.None? && id in s.calls[t].todo && id in s.clients
    case DrainDelete(t) => At(s, t) && s.calls[t].Draining? && s.calls[t].victim.Some?
    case DrainEnd(t) => At(s, t) && s.calls[t].Draining? && s.calls[t].victim.None? && s.calls[t].todo == {}
  }

  /** The first critical section of a call: reuse a running client, or drop the entry and start one. */
  function AfterCheck(s: State, t: Thread, pack: Pack): State {
    if pack.id in s.clients && IsRunning(s, s.clients[pack.id]) then s.(calls := s.calls[t := Returned])
    else s.(clients := s.clients - {pack.id}, calls := s.calls[t := Starting(pack)])
  }

  /** The second: a call that finds a running client stops its own process, any other registers it. */
  function AfterRecheck(s: State, t: Thread, pack: Pack, pid: Pid): State {
    if pack.id in s.clients && IsRunning(s, s.clients[pack.id]) then s.(calls := s.calls[t := Stopping(pid)])
    else s.(clients := s.clients[pack.id := Client(pack, pid)], calls := s.calls[t := Returned])
  }

  function Apply(s: State, step: Step): State
    requires Enabled(s, step)
  {
    match step
    case Invoke(t, pack) => s.(calls := s.calls[t := if pack.grpc then Checking(pack) else Returned])
    case Check(t) => AfterCheck(s, t, s.calls[t].pack)
    case Spawn(t, pid) =>
      s.(procs := s.procs[pid := Running], calls := s.calls[t := Started(s.calls[t].pack, pid)])
    case SpawnFails(t) => s.(calls := s.calls[t := Returned])
    case Handshake(t, ok) =>
      var Started(pack, pid) := s.calls[t];
      s.(calls := s.calls[t := if ok then Rechecking(pack, pid) else Stopping(pid)])
    case Recheck(t) => AfterRecheck(s, t, s.calls[t].pack, s.calls[t].pid)
    case Kill(t) => s.(procs := Killed(s.procs, s.calls[t].pid), calls := s.calls[t := Returned])
    case Dies(pid) => s.(procs := s.procs[pid := Dead])
    case Reap(pid) => s.(procs := s.procs[pid := Reaped])
    case Reconcile(t, packs) => s.(calls := s.calls[t := AwaitSweep(packs)])
    case SweepBegin(t) =>
      s.(lock := Some(t), calls := s.calls[t := Sweeping(s.calls[t].packs, s.clients, s.clients.Keys, None)])
    case SweepVisit(t, id) =>
      var Sweeping(packs, before, todo, _) := s.calls[t];
      if Matches(s.clients[id], id, ActivePacks(packs)) then
        s.(calls := s.calls[t := Sweeping(packs, before, todo - {id}, None)])
      else
        s.(procs := Killed(s.procs, s.clients[id].pid),
           calls := s.calls[t := Sweeping(packs, before, todo, Some(id))])
    case SweepDelete(t) =>
      var Sweeping(packs, before, todo, victim) := s.calls[t];
      s.(clients := s.clients - {victim.value},
         calls := s.calls[t := Sweeping(packs, before, todo - {victim.value}, None)])
    case SweepEnd(t) => s.(lock := None, calls := s.calls[t := Launching(s.calls[t].packs)])
    case Launch(t, started) =>
      var packs := s.calls[t].packs;
      var launched := if RunsInBackground(packs[0]) then map[started := Checking(packs[0])] else map[];
      s.(calls := s.calls[t := Launching(packs[1..])] + launched)
    case Close(t) => s.(calls := s.calls[t := AwaitDrain])
    case DrainBegin(t) => s.(lock := Some(t), calls := s.calls[t := Draining(s.clients.Keys, None)])
    case DrainVisit(t, id) =>
      s.(procs := Killed(s.procs, s.clients[id].pid), calls := s.calls[t := Draining(s.calls[t].todo, Some(id))])
    case DrainDelete(t) =>
      var Draining(todo, victim) := s.calls[t];
      s.(clients := s.clients - {victim.value}, calls := s.calls[t := Draining(todo - {victim.value}, None)])
    case DrainEnd(t) => s.(lock := None, calls := s.calls[t := Returned])
  }

  /** An interleaving: each step is enabled in the state the steps before it lead to. */
  predicate ValidRun(s: State, steps: seq<Step>)
    decreases |steps|
  {
    steps != [] ==> Enabled(s, steps[0]) && ValidRun(Apply(s, steps[0]), steps[1..])
  }

  function Final(s: State, steps: seq<Step>): State
    requires ValidRun(s, steps)
    decreases |steps|
  {
    if steps == [] then s else Final(Apply(s, steps[0]), steps[1..])
  }

  // ---------------------------------------------------------------- ownership

  /** A process belongs to a map entry, or to the call that starts or stops it. */
  datatype Owner = Entry(id: string) | InFlight(t: Thread)

  function Held(call: Call): Option<Pid> {
    if call.Started? || call.Rechecking? || call.Stopping? then Some(call.pid) else None
  }

  function Owned(s: State, o: Owner): Option<Pid> {
    match o
    case Entry(id) => if id in s.clients then Some(s.clients[id].pid) else None
    case InFlight(t) => if t in s.calls then Held(s.calls[t]) else None
  }

  /** No process has two owners, and every owned process exists. */
  ghost predicate OneOwner(s: State) {
    && (forall o :: Owned(s, o).Some? ==> Owned(s, o).value in s.procs)
    && (forall o, o' :: Owned(s, o).Some? && Owned(s, o) == Owned(s, o') ==> o == o')
  }

  ghost predicate LiveAreOwned(s: State) {
    forall pid :: pid in s.procs && s.procs[pid] == Running ==> exists o :: Owned(s, o) == Some(pid)
  }

  ghost predicate UnderOwnID(s: State) {
    forall id :: id in s.clients ==> s.clients[id].pack.id == id
  }

  predicate HoldsLock(call: Call) { call.Sweeping? || call.Draining? }

  ghost predicate LockHeld(s: State) {
    forall t :: t in s.calls && HoldsLock(s.calls[t]) ==> s.lock == Some(t)
  }

  /** A sweep has dealt with every entry it need not visit again: the others are as before, or match. */
  ghost predicate SweepAt(s: State, call: Call)
    requires call.Sweeping?
  {
    var Sweeping(packs, before, todo, victim) := call;
    && todo <= s.clients.Keys <= before.Keys
    && (forall id :: id in s.clients ==> s.clients[id] == before[id])
    && (forall id :: id in before && id !in todo ==>
          (id in s.clients <==> Matches(before[id], id, ActivePacks(packs))))
    && (victim.Some? ==> victim.value in todo && !Matches(before[victim.value], victim.value, ActivePacks(packs)))
  }

  /** An entry about to be deleted by the holder of the lock no longer has a live process. */
  ghost predicate VictimDead(s: State, call: Call)
    requires HoldsLock(call)
  {
    call.victim.Some? ==>
      var id := call.victim.value;
      id in s.clients && (s.clients[id].pid in s.procs ==> s.procs[s.clients[id].pid] != Running)
  }

  /** What is true of the call that holds the lock. */
  ghost predicate HolderSound(s: State, call: Call)
    requires HoldsLock(call)
  {
    && (call.Sweeping? ==> SweepAt(s, call))
    && (call.Draining? ==> s.clients.Keys == call.todo)
    && VictimDead(s, call)
  }

  ghost predicate HoldersSound(s: State) {
    forall t :: t in s.calls && HoldsLock(s.calls[t]) ==> HolderSound(s, s.calls[t])
  }

  ghost predicate Inv(s: State) {
    OneOwner(s) && LiveAreOwned(s) && UnderOwnID(s) && LockHeld(s) && HoldersSound(s)
  }

  lemma InitInv()
    ensures Inv(INIT)
  {
  }

  /** A call that is about to put its own process into the map. */
  predicate Registers(s: State, step: Step) {
    && step.Recheck? && Enabled(s, step)
    && (var pack := s.calls[step.t].pack; !(pack.id in s.clients && IsRunning(s, s.clients[pack.id])))
  }

  /** The owner that `o` took its process over from. */
  function Source(s: State, step: Step, o: Owner): Owner {
    if Registers(s, step) && o == Entry(s.calls[step.t].pack.id) then InFlight(step.t) else o
  }

  /** A step hands over at most one process, to an owner that gives up its own; only a start brings a new one. */
  lemma OwnedAfter(s: State, step: Step, o: Owner)
    requires Enabled(s, step)
    ensures var s' := Apply(s, step);
            Owned(s', o).Some? ==>
              if step.Spawn? && o == InFlight(step.t) then Owned(s', o) == Some(step.pid)
              else Owned(s', o) == Owned(s, Source(s, step, o))
    ensures Registers(s, step) ==> Owned(Apply(s, step), InFlight(step.t)).None?
    ensures s.procs.Keys <= Apply(s, step).procs.Keys
    ensures step.Spawn? ==> step.pid !in s.procs && step.pid in Apply(s, step).procs
  {
    hide Matches, ActivePacks, RunsInBackground;
  }

  lemma KeepsOneOwner(s: State, step: Step)
    requires Inv(s) && Enabled(s, step)
    ensures OneOwner(Apply(s, step))
  {
    hide Apply, Enabled, LiveAreOwned, HoldersSound, UnderOwnID, LockHeld, Registers;
    var s' := Apply(s, step);
    forall o | Owned(s', o).Some? ensures Owned(s', o).value in s'.procs {
      OwnedAfter(s, step, o);
    }
    forall o, o' | Owned(s', o).Some? && Owned(s', o) == Owned(s', o') ensures o == o' {
      OwnedAfter(s, step, o);
      OwnedAfter(s, step, o');
      assert Owned(s, Source(s, step, o)).Some? ==> Owned(s, Source(s, step, o)).value in s.procs;
      assert Owned(s, Source(s, step, o')).Some? ==> Owned(s, Source(s, step, o')).value in s.procs;
    }
  }

  lemma KeepsUnderOwnID(s: State, step: Step)
    requires Inv(s) && Enabled(s, step)
    ensures UnderOwnID(Apply(s, step))
  {
    hide OneOwner, LiveAreOwned, HoldersSound, Matches, ActivePacks, RunsInBackground;
  }

  /** The call that takes a step; processes die and are waited for on their own. */
  function Actor(step: Step): Option<Thread> {
    if step.Dies? || step.Reap? then None else Some(step.t)
  }

  /** A call that holds the lock after someone else's step held it before, and nothing it relies on has changed. */
  lemma HolderUndisturbed(s: State, step: Step, t: Thread)
    requires LockHeld(s) && Enabled(s, step) && Actor(step) != Some(t)
    requires t in Apply(s, step).calls && HoldsLock(Apply(s, step).calls[t])
    ensures t in s.calls && Apply(s, step).calls[t] == s.calls[t]
    ensures Apply(s, step).clients == s.clients && Apply(s, step).lock == s.lock == Some(t)
    ensures forall pid :: pid in s.procs && s.procs[pid] != Running ==>
      pid in Apply(s, step).procs && Apply(s, step).procs[pid] != Running
  {
    hide Matches, ActivePacks, RunsInBackground, IsRunning;
    assert t in s.calls && s.calls[t] == Apply(s, step).calls[t];
    assert s.lock == Some(t);
  }

  lemma KeepsLock(s: State, step: Step)
    requires Inv(s) && Enabled(s, step)
    ensures LockHeld(Apply(s, step))
  {
    hide OneOwner, LiveAreOwned, UnderOwnID, HoldersSound, Enabled, Apply;
    var s' := Apply(s, step);
    forall t | t in s'.calls && HoldsLock(s'.calls[t]) ensures s'.lock == Some(t) {
      if Actor(step) == Some(t) {
        ActorsLock(s, step);
      } else {
        HolderUndisturbed(s, step, t);
      }
    }
  }

  lemma ActorsLock(s: State, step: Step)
    requires LockHeld(s) && Enabled(s, step) && Actor(step).Some?
    ensures var s' := Apply(s, step); step.t in s'.calls && HoldsLock(s'.calls[step.t]) ==> s'.lock == Some(step.t)
  {
    hide Matches, ActivePacks, RunsInBackground, IsRunning;
  }

  lemma ActorSound(s: State, step: Step)
    requires Inv(s) && Enabled(s, step) && Actor(step).Some?
    requires step.t in Apply(s, step).calls && HoldsLock(Apply(s, step).calls[step.t])
    ensures HolderSound(Apply(s, step), Apply(s, step).calls[step.t])
  {
    hide OneOwner, LiveAreOwned, UnderOwnID, Matches, ActivePacks, RunsInBackground, IsRunning;
    assert step.t in s.calls;
    var call := s.calls[step.t];
    match step {
      case SweepBegin(t) =>
      case SweepVisit(t, id) => assert HolderSound(s, call);
      case SweepDelete(t) => assert HolderSound(s, call);
      case DrainBegin(t) =>
      case DrainVisit(t, id) => assert HolderSound(s, call);
      case DrainDelete(t) => assert HolderSound(s, call);
      case _ =>
    }
  }

  lemma KeepsHolders(s: State, step: Step)
    requires Inv(s) && Enabled(s, step)
    ensures HoldersSound(Apply(s, step))
  {
    hide LiveAreOwned, UnderOwnID, Matches, ActivePacks, Enabled, Apply, SweepAt;
    var s' := Apply(s, step);
    forall t | t in s'.calls && HoldsLock(s'.calls[t]) ensures HolderSound(s', s'.calls[t]) {
      if Actor(step) == Some(t) {
        ActorSound(s, step);
      } else {
        HolderUndisturbed(s, step, t);
        assert HolderSound(s, s.calls[t]);
        SameSweep(s, s', s.calls[t]);
        EntriesExist(s);
      }
    }
  }

  lemma SameSweep(s: State, s': State, call: Call)
    requires call.Sweeping? ==> SweepAt(s, call)
    requires s'.clients == s.clients
    ensures call.Sweeping? ==> SweepAt(s', call)
  {
    hide Matches, ActivePacks;
  }

  lemma EntriesExist(s: State)
    requires OneOwner(s)
    ensures forall id :: id in s.clients ==> s.clients[id].pid in s.procs
  {
    forall id | id in s.clients ensures s.clients[id].pid in s.procs {
      assert Owned(s, Entry(id)) == Some(s.clients[id].pid);
    }
  }

  /** The owner after the step of a live process that `o` owned before it. */
  function Successor(s: State, step: Step, o: Owner): Owner {
    if Registers(s, step) && o == InFlight(step.t) then Entry(s.calls[step.t].pack.id) else o
  }

  /** No step drops a live process: what an entry or a call gives up is dead, or has been handed over. */
  lemma LiveKeepsOwner(s: State, step: Step, o: Owner, pid: Pid)
    requires Inv(s) && Enabled(s, step) && Owned(s, o) == Some(pid)
    requires pid in s.procs && s.procs[pid] == Running
    requires pid in Apply(s, step).procs && Apply(s, step).procs[pid] == Running
    ensures Owned(Apply(s, step), Successor(s, step, o)) == Some(pid)
  {
    hide SweepAt, LiveAreOwned, Matches, ActivePacks, RunsInBackground, UnderOwnID;
    if step.SweepDelete? || step.DrainDelete? { assert HolderSound(s, s.calls[step.t]); }
  }

  lemma KeepsLiveOwned(s: State, step: Step)
    requires Inv(s) && Enabled(s, step)
    ensures LiveAreOwned(Apply(s, step))
  {
    hide HoldersSound, Matches, ActivePacks, RunsInBackground, OneOwner, LockHeld, UnderOwnID;
    var s' := Apply(s, step);
    forall pid | pid in s'.procs && s'.procs[pid] == Running ensures exists o :: Owned(s', o) == Some(pid) {
      if step.Spawn? && pid == step.pid {
        assert Owned(s', InFlight(step.t)) == Some(pid);
      } else {
        assert pid in s.procs && s.procs[pid] == Running;
        var o :| Owned(s, o) == Some(pid);
        LiveKeepsOwner(s, step, o, pid);
      }
    }
  }

  lemma KeepsInv(s: State, step: Step)
    requires Inv(s) && Enabled(s, step)
    ensures Inv(Apply(s, step))
  {
    hide Apply, Enabled, OneOwner, LiveAreOwned, UnderOwnID, LockHeld, HoldersSound;
    KeepsOneOwner(s, step);
    KeepsLiveOwned(s, step);
    KeepsUnderOwnID(s, step);
    KeepsLock(s, step);
    KeepsHolders(s, step);
  }

  // ---------------------------------------------------------------- over whole runs

  lemma {:induction false} RunKeepsInv(s: State, steps: seq<Step>)
    requires Inv(s) && ValidRun(s, steps)
    ensures Inv(Final(s, steps))
    decreases |steps|
  {
    hide Inv, Apply, Enabled;
    if steps != [] {
      KeepsInv(s, steps[0]);
      RunKeepsInv(Apply(s, steps[0]), steps[1..]);
    }
  }

  /** In every interleaving a live process is registered under its own ID or held by exactly one call that
      starts or stops it, and never both. */
  lemma LiveProcessesAreAccountedFor(steps: seq<Step>, pid: Pid)
    requires ValidRun(INIT, steps)
    requires var s := Final(INIT, steps); pid in s.procs && s.procs[pid] == Running
    ensures var s := Final(INIT, steps);
            exists o :: Owned(s, o) == Some(pid)
              && (forall o' :: Owned(s, o') == Some(pid) ==> o' == o)
              && (o.Entry? ==> s.clients[o.id].pack.id == o.id)
  {
    hide HoldersSound, LockHeld;
    InitInv();
    RunKeepsInv(INIT, steps);
    var s := Final(INIT, steps);
    var o :| Owned(s, o) == Some(pid);
    assert forall o' :: Owned(s, o') == Some(pid) ==> o' == o;
  }

  /** Registering over an existing entry loses no live process: the client replaced has exited and been waited for. */
  lemma OverwriteOrphansNothing(steps: seq<Step>, step: Step)
    requires ValidRun(INIT, steps) && Registers(Final(INIT, steps), step)
    ensures var s := Final(INIT, steps);
            var id := s.calls[step.t].pack.id;
            && Apply(s, step).clients[id].pid == s.calls[step.t].pid
            && (id in s.clients ==> s.clients[id].pid in s.procs && s.procs[s.clients[id].pid] == Reaped)
  {
    hide HoldersSound, LockHeld, LiveAreOwned;
    InitInv();
    RunKeepsInv(INIT, steps);
    var s := Final(INIT, steps);
    var id := s.calls[step.t].pack.id;
    assert id in s.clients ==> Owned(s, Entry(id)) == Some(s.clients[id].pid);
  }

  /** When the locked part of a reconcile ends, exactly the clients that match an active pack are left. */
  lemma SweepLeavesMatching(steps: seq<Step>, t: Thread)
    requires ValidRun(INIT, steps) && Enabled(Final(INIT, steps), SweepEnd(t))
    ensures var s := Final(INIT, steps);
            var active := ActivePacks(s.calls[t].packs);
            && s.clients == Matching(s.calls[t].before, active)
            && forall id :: id in s.clients ==> Matches(s.clients[id], id, active)
  {
    hide OneOwner, LiveAreOwned, LockHeld, Matches, ActivePacks;
    InitInv();
    RunKeepsInv(INIT, steps);
    assert HolderSound(Final(INIT, steps), Final(INIT, steps).calls[t]);
  }

  // ---------------------------------------------------------------- how long entries match

  predicate Fits(pack: Pack, active: map<string, Pack>) {
    pack.id in active && pack.version == active[pack.id].version && pack.rootDir == active[pack.id].rootDir
  }

  ghost predicate AllMatch(s: State, active: map<string, Pack>) {
    forall id :: id in s.clients ==> Matches(s.clients[id], id, active)
  }

  /** In every state of the run. */
  ghost predicate AlwaysMatch(s: State, steps: seq<Step>, active: map<string, Pack>)
    requires ValidRun(s, steps)
    decreases |steps|
  {
    AllMatch(s, active) && (steps != [] ==> AlwaysMatch(Apply(s, steps[0]), steps[1..], active))
  }

  /** Whatever is registered is an active pack. */
  ghost predicate OnlyFittingRegister(s: State, steps: seq<Step>, active: map<string, Pack>)
    requires ValidRun(s, steps)
    decreases |steps|
  {
    steps != [] ==>
      && (Registers(s, steps[0]) ==> Fits(s.calls[steps[0].t].pack, active))
      && OnlyFittingRegister(Apply(s, steps[0]), steps[1..], active)
  }

  lemma StepMatches(s: State, step: Step, active: map<string, Pack>)
    requires Enabled(s, step) && AllMatch(s, active)
    ensures AllMatch(Apply(s, step), active) <==> (Registers(s, step) ==> Fits(s.calls[step.t].pack, active))
  {
    hide ActivePacks, RunsInBackground, IsRunning;
    if Registers(s, step) {
      var s', pack := Apply(s, step), s.calls[step.t].pack;
      assert s'.clients == s.clients[pack.id := Client(pack, s.calls[step.t].pid)];
      assert Matches(s'.clients[pack.id], pack.id, active) <==> Fits(pack, active);
    } else {
      OnlyFewer(s, step);
    }
  }

  lemma OnlyFewer(s: State, step: Step)
    requires Enabled(s, step) && !Registers(s, step)
    ensures forall id :: id in Apply(s, step).clients ==> id in s.clients && Apply(s, step).clients[id] == s.clients[id]
  {
    hide Matches, ActivePacks, RunsInBackground, IsRunning;
  }

  /** From the end of a reconcile on, the entries match for as long as no other pack is registered, and no longer. */
  lemma {:induction false} MatchingLasts(s: State, steps: seq<Step>, active: map<string, Pack>)
    requires ValidRun(s, steps) && AllMatch(s, active)
    ensures AlwaysMatch(s, steps, active) <==> OnlyFittingRegister(s, steps, active)
    decreases |steps|
  {
    hide Apply, Enabled, AllMatch, Fits, Registers;
    if steps != [] {
      StepMatches(s, steps[0], active);
      if AllMatch(Apply(s, steps[0]), active) { MatchingLasts(Apply(s, steps[0]), steps[1..], active); }
    }
  }

  predicate AllFit(packs: seq<Pack>, active: map<string, Pack>) {
    forall i :: 0 <= i < |packs| ==> Fits(packs[i], active)
  }

  /** The starts under way, and the packs that reconciles under way will start, are active ones. */
  predicate CallFits(call: Call, active: map<string, Pack>) {
    match call
    case Checking(pack) => Fits(pack, active)
    case Starting(pack) => Fits(pack, active)
    case Started(pack, _) => Fits(pack, active)
    case Rechecking(pack, _) => Fits(pack, active)
    case AwaitSweep(packs) => AllFit(packs, active)
    case Sweeping(packs, _, _, _) => AllFit(packs, active)
    case Launching(packs) => AllFit(packs, active)
    case _ => true
  }

  predicate CallsFit(s: State, active: map<string, Pack>) {
    forall t :: t in s.calls ==> CallFits(s.calls[t], active)
  }

  predicate RequestFits(step: Step, active: map<string, Pack>) {
    match step
    case Invoke(_, pack) => Fits(pack, active)
    case Reconcile(_, packs) => AllFit(packs, active)
    case _ => true
  }

  lemma StepKeepsFit(s: State, step: Step, active: map<string, Pack>)
    requires Enabled(s, step) && CallsFit(s, active) && RequestFits(step, active)
    ensures CallsFit(Apply(s, step), active)
    ensures Registers(s, step) ==> Fits(s.calls[step.t].pack, active)
  {
    hide Fits, Matches, ActivePacks, RunsInBackground, IsRunning;
  }

  /** So they go on matching if only active packs are being started and asked for. */
  lemma {:induction false} ActiveRequestsKeepMatching(s: State, steps: seq<Step>, active: map<string, Pack>)
    requires ValidRun(s, steps) && AllMatch(s, active) && CallsFit(s, active)
    requires forall i :: 0 <= i < |steps| ==> RequestFits(steps[i], active)
    ensures AlwaysMatch(s, steps, active)
    decreases |steps|
  {
    hide Apply, Enabled, AllMatch, Fits, Registers, CallsFit, RequestFits;
    if steps != [] {
      StepKeepsFit(s, steps[0], active);
      StepMatches(s, steps[0], active);
      ActiveRequestsKeepMatching(Apply(s, steps[0]), steps[1..], active);
    }
  }

  const OLD := Pack("p", "1", "r", true, false, [])
  const NEW := Pack("p", "2", "r", true, false, [])

  /** A start of the old version, a reconcile for the new one while it is under way, and the end of the start. */
  const UPGRADE := [
    Invoke(1, OLD), Check(1), Spawn(1, 7), Handshake(1, true),
    Reconcile(2, [NEW]), SweepBegin(2), SweepEnd(2), Recheck(1)]

  lemma RunFirst(s: State, step: Step, rest: seq<Step>)
    requires Enabled(s, step) && ValidRun(Apply(s, step), rest)
    ensures ValidRun(s, [step] + rest) && Final(s, [step] + rest) == Final(Apply(s, step), rest)
  {
    hide Enabled, Apply;
    assert ([step] + rest)[1..] == rest;
  }

  const CHECKED := State(map[], map[], map[1 := Starting(OLD)], None)
  const READY := State(map[], map[7 := Running], map[1 := Rechecking(OLD, 7)], None)
  const SWEPT := State(map[], map[7 := Running], map[1 := Rechecking(OLD, 7), 2 := Launching([NEW])], None)

  lemma OldIsChecked()
    ensures Enabled(INIT, Invoke(1, OLD)) && Enabled(Apply(INIT, Invoke(1, OLD)), Check(1))
    ensures Apply(Apply(INIT, Invoke(1, OLD)), Check(1)) == CHECKED
  {
    assert INIT.clients - {OLD.id} == INIT.clients;
  }

  lemma OldIsReady()
    ensures Enabled(CHECKED, Spawn(1, 7)) && Enabled(Apply(CHECKED, Spawn(1, 7)), Handshake(1, true))
    ensures Apply(Apply(CHECKED, Spawn(1, 7)), Handshake(1, true)) == READY
  {
  }

  lemma NothingToSweep()
    ensures Enabled(READY, Reconcile(2, [NEW]))
    ensures var s := Apply(READY, Reconcile(2, [NEW]));
            && Enabled(s, SweepBegin(2))
            && Enabled(Apply(s, SweepBegin(2)), SweepEnd(2))
            && Apply(Apply(s, SweepBegin(2)), SweepEnd(2)) == SWEPT
  {
  }

  /** After it the old version is registered, although the reconcile had left nothing that does not match. */
  lemma OldStartOutlivesReconcile()
    ensures ValidRun(INIT, UPGRADE) && !AllMatch(Final(INIT, UPGRADE), ActivePacks([NEW]))
  {
    hide ValidRun, Final, ActivePacks, Matches, Enabled, Apply;
    OldIsChecked();
    OldIsReady();
    NothingToSweep();
    OldIsRegistered();
    NothingRun(Apply(SWEPT, Recheck(1)));
    var last := [Recheck(1)] + [];
    RunFirst(SWEPT, Recheck(1), []);
    RunFirst(Apply(Apply(READY, Reconcile(2, [NEW])), SweepBegin(2)), SweepEnd(2), last);
    RunFirst(Apply(READY, Reconcile(2, [NEW])), SweepBegin(2), [SweepEnd(2)] + last);
    var sweep := [SweepBegin(2)] + ([SweepEnd(2)] + last);
    RunFirst(READY, Reconcile(2, [NEW]), sweep);
    RunFirst(Apply(CHECKED, Spawn(1, 7)), Handshake(1, true), [Reconcile(2, [NEW])] + sweep);
    var start := [Handshake(1, true)] + ([Reconcile(2, [NEW])] + sweep);
    RunFirst(CHECKED, Spawn(1, 7), start);
    RunFirst(Apply(INIT, Invoke(1, OLD)), Check(1), [Spawn(1, 7)] + start);
    RunFirst(INIT, Invoke(1, OLD), [Check(1)] + ([Spawn(1, 7)] + start));
    assert UPGRADE == [Invoke(1, OLD)] + ([Check(1)] + ([Spawn(1, 7)] + start));
    OldIsNotNew(Apply(SWEPT, Recheck(1)).clients["p"]);
  }

  lemma OldIsRegistered()
    ensures Enabled(SWEPT, Recheck(1)) && Apply(SWEPT, Recheck(1)).clients == map["p" := Client(OLD, 7)]
  {
  }

  lemma NothingRun(s: State)
    ensures ValidRun(s, []) && Final(s, []) == s
  {
  }

  lemma OldIsNotNew(client: Client)
    requires client.pack == OLD
    ensures !Matches(client, "p", ActivePacks([NEW]))
  {
    assert [NEW][..0] == [];
    assert ActivePacks([NEW])["p"] == NEW;
  }

  /** Once a close has drained the map and every other call has returned, no plugin process is alive. */
  lemma CloseLeavesNothing(steps: seq<Step>, t: Thread, pid: Pid)
    requires ValidRun(INIT, steps) && Enabled(Final(INIT, steps), DrainEnd(t))
    requires var s := Final(INIT, steps); forall t' :: t' in s.calls && t' != t ==> s.calls[t'] == Returned
    requires pid in Final(INIT, steps).procs
    ensures Final(INIT, steps).procs[pid] != Running
  {
    hide OneOwner, LockHeld;
    InitInv();
    RunKeepsInv(INIT, steps);
    var s := Final(INIT, steps);
    assert HolderSound(s, s.calls[t]);
    assert s.clients.Keys == {};
    forall o ensures Owned(s, o) != Some(pid) {
      assert o.Entry? ==> o.id !in s.clients.Keys;
    }
  }

  /** What can become of a process in a step: it dies, it is waited for, or its owner stops it. */
  lemma OnlyOwnersStop(s: State, step: Step, pid: Pid)
    requires Enabled(s, step) && pid in s.procs
    requires pid in Apply(s, step).procs ==> Apply(s, step).procs[pid] != s.procs[pid]
    ensures pid in Apply(s, step).procs
    ensures var now := Apply(s, step).procs[pid];
            || (step == Dies(pid) && s.procs[pid] == Running && now == Dead)
            || (step == Reap(pid) && s.procs[pid] == Dead && now == Reaped)
            || (s.procs[pid] == Running && now == Dead && exists o :: Owned(s, o) == Some(pid) && Stops(s, step, o))
  {
    hide ActivePacks, RunsInBackground, IsRunning;
    match step {
      case Kill(t) => assert Owned(s, InFlight(t)) == Some(s.calls[t].pid);
      case SweepVisit(t, id) => assert Owned(s, Entry(id)) == Some(s.clients[id].pid);
      case DrainVisit(t, id) => assert Owned(s, Entry(id)) == Some(s.clients[id].pid);
      case _ =>
    }
  }

  /** A call stops its own process, a sweep those of the entries that do not match, a drain those of all. */
  predicate Stops(s: State, step: Step, o: Owner)
    requires Enabled(s, step)
  {
    || (step.Kill? && o == InFlight(step.t))
    || (step.SweepVisit? && o == Entry(step.id) && !Fits(s.clients[step.id].pack.(id := step.id), ActivePacks(s.calls[step.t].packs)))
    || (step.DrainVisit? && o == Entry(step.id))
  }

  /** The packs with a gRPC runtime that runs in the background and may do so, in their order. */
  function Wanted(packs: seq<Pack>): seq<Pack> {
    if packs == [] then []
    else
      var first := packs[0];
      (if first.grpc && first.background && "background.run" in first.permissions then [first] else []) + Wanted(packs[1..])
  }

  // ---------------------------------------------------------------- the critical sections as code

  /** The fields the mutex guards; `alive` holds the processes whose `done` channel is open. */
  class Host {
    var clients: map<string, Client>

    constructor ()
      ensures clients == map[]
    {
      clients := map[];
    }

    ghost predicate Models(s: State)
      reads this
    {
      clients == s.clients
    }

    /** The first locked section of `client`. */
    method CheckExisting(pack: Pack, alive: set<Pid>, ghost s: State, ghost t: Thread) returns (reuse: bool)
      requires Models(s) && alive == set pid | pid in s.procs && s.procs[pid] != Reaped
      modifies this
      ensures Models(AfterCheck(s, t, pack))
      ensures reuse <==> AfterCheck(s, t, pack).calls[t] == Returned
    {
      if pack.id in clients {
        if clients[pack.id].pid in alive {
          return true;
        }
        clients := clients - {pack.id};
      }
      assert clients == s.clients - {pack.id};
      return false;
    }

    /** The second locked section of `client`. */
    method Register(pack: Pack, pid: Pid, alive: set<Pid>, ghost s: State, ghost t: Thread) returns (stop: bool)
      requires Models(s) && alive == set pid | pid in s.procs && s.procs[pid] != Reaped
      modifies this
      ensures Models(AfterRecheck(s, t, pack, pid))
      ensures stop <==> AfterRecheck(s, t, pack, pid).calls[t] == Stopping(pid)
    {
      if pack.id in clients && clients[pack.id].pid in alive {
        return true;
      }
      clients := clients[pack.id := Client(pack, pid)];
      return false;
    }

    /** The locked pass of `ReconcileBackground`; `killed` are the processes it stops. */
    method Sweep(packs: seq<Pack>) returns (killed: set<Pid>)
      modifies this
      ensures clients == Matching(old(clients), ActivePacks(packs))
      ensures killed == set id | id in old(clients) && id !in clients :: old(clients)[id].pid
    {
      hide Matches;
      var active: map<string, Pack> := map[];
      for i := 0 to |packs|
        invariant active == ActivePacks(packs[..i])
      {
        active := active[packs[i].id := packs[i]];
        assert packs[..i + 1][..i] == packs[..i];
      }
      assert packs[..|packs|] == packs;
      killed := {};
      var todo := clients.Keys;
      while todo != {}
        invariant todo <= clients.Keys <= old(clients).Keys
        invariant forall id :: id in clients ==> clients[id] == old(clients)[id]
        invariant forall id :: id in old(clients) && id !in todo ==>
                    (id in clients <==> Matches(old(clients)[id], id, active))
        invariant killed == set id | id in old(clients) && id !in clients :: old(clients)[id].pid
      {
        var id :| id in todo;
        todo := todo - {id};
        if !Matches(clients[id], id, active) {
          killed := killed + {clients[id].pid};
          clients := clients - {id};
        }
      }
    }

    /** The loop of `ReconcileBackground` that starts calls; `launched` are the packs they are for. */
    method Launch(packs: seq<Pack>) returns (launched: seq<Pack>)
      ensures launched == Wanted(packs)
    {
      launched := [];
      for i := 0 to |packs|
        invariant launched + Wanted(packs[i..]) == Wanted(packs)
      {
        assert packs[i..][1..] == packs[i + 1..];
        var permitted := HasPermission(packs[i], "background.run");
        if !packs[i].grpc || !packs[i].background || !permitted {
          continue;
        }
        launched := launched + [packs[i]];
      }
    }

    method HasPermission(pack: Pack, permission: string) returns (has: bool)
      ensures has <==> permission in pack.permissions
    {
      for i := 0 to |pack.permissions|
        invariant permission !in pack.permissions[..i]
      {
        if pack.permissions[i] == permission {
          return true;
        }
      }
      assert pack.permissions[..|pack.permissions|] == pack.permissions;
      return false;
    }

    /** `Close`. */
    method Drain() returns (killed: set<Pid>)
      modifies this
      ensures clients == map[]
      ensures killed == set id | id in old(clients) :: old(clients)[id].pid
    {
      killed := {};
      while clients != map[]
        invariant clients.Keys <= old(clients).Keys
        invariant forall id :: id in clients ==> clients[id] == old(clients)[id]
        invariant killed == set id | id in old(clients) && id !in clients :: old(clients)[id].pid
        decreases clients.Keys
      {
        assert clients.Keys != {};
        var id :| id in clients.Keys;
        killed := killed + {clients[id].pid};
        clients := clients - {id};
      }
    }
  }
}
