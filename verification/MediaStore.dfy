/** The media store: files on disk, an index on disk and a list in memory that must never name a missing file.

    The runs of the state machine are all interleavings of uploads, edits and deletions, with a crash possible
    between any two file operations. Writing the index is one step: it happens or it does not. */
module MediaStore {
  import opened Text
  import opened MediaPaths

  datatype Item = Item(
    id: string, path: string, originalPath: string, name: string, alt: string, caption: string,
    image: bool, width: nat, height: nat)

  ghost predicate WellFormed(item: Item) {
    && HexID(item.id)
    && MEDIA <= item.path && StoredFile(FileOf(item.path), item.id)
    && (item.originalPath != "" ==> MEDIA <= item.originalPath && OriginalFile(FileOf(item.originalPath), item.id))
  }

  function FilesOf(item: Item): set<string> {
    {FileOf(item.path)} + (if item.originalPath == "" then {} else {FileOf(item.originalPath)})
  }

  /** What deleting an item removes from disk. */
  function Removed(path: string): set<string> {
    match Resolve(path) case None => {} case Some(file) => {file}
  }

  lemma FilesOwned(item: Item, file: string)
    requires WellFormed(item) && file in FilesOf(item)
    ensures Owner(file) == item.id
  {
    hide StoredFile, OriginalFile, Owner, HexID;
    FilesHaveOwner(file, item.id);
  }

  lemma RemovedOwned(item: Item, file: string)
    requires WellFormed(item) && (file in Removed(item.path) || file in Removed(item.originalPath))
    ensures Owner(file) == item.id
  {
    hide StoredFile, OriginalFile, Owner, HexID, Resolve;
    ResolvesToOwn(item.path, item.id);
    if item.originalPath != "" {
      ResolvesToOwn(item.originalPath, item.id);
    } else {
      assert Resolve("").None? by { NoPath(); }
    }
  }

  lemma NoPath()
    ensures Resolve("").None?
  {
  }

  // ---------------------------------------------------------------- lists

  function IDs(items: seq<Item>): set<string> { set i | 0 <= i < |items| :: items[i].id }

  function Position(items: seq<Item>, id: string): (r: Option<nat>)
    ensures r.Some? ==> r.value < |items| && items[r.value].id == id
    ensures r.None? <==> id !in IDs(items)
  {
    if items == [] then None
    else if items[|items| - 1].id == id && Position(items[..|items| - 1], id).None? then
      assert items[|items| - 1].id in IDs(items);
      Some(|items| - 1)
    else
      var before := Position(items[..|items| - 1], id);
      assert forall i :: 0 <= i < |items| - 1 ==> items[..|items| - 1][i] == items[i];
      before
  }

  function Without(items: seq<Item>, k: nat): seq<Item>
    requires k < |items|
  {
    items[..k] + items[k + 1..]
  }

  datatype Edit = Edit(name: string, alt: string, caption: string)

  function Edited(item: Item, e: Edit): Item {
    item.(name := if TrimSpace(e.name) != "" then TrimSpace(e.name) else item.name,
          alt := TrimSpace(e.alt), caption := TrimSpace(e.caption))
  }

  /** Dimensions found when the store is opened, by ID. */
  type Found = map<string, (nat, nat)>

  function BackfilledItem(item: Item, found: Found): Item {
    if (item.width > 0 && item.height > 0) || !item.image || item.id !in found then item
    else item.(width := found[item.id].0, height := found[item.id].1)
  }

  function Backfilled(items: seq<Item>, found: Found): (r: seq<Item>)
    ensures |r| == |items| && forall i :: 0 <= i < |r| ==> r[i] == BackfilledItem(items[i], found)
  {
    seq(|items|, i requires 0 <= i < |items| => BackfilledItem(items[i], found))
  }

  ghost predicate Sound(items: seq<Item>) {
    && (forall i :: 0 <= i < |items| ==> WellFormed(items[i]))
    && (forall i, j :: 0 <= i < j < |items| ==> items[i].id != items[j].id)
  }

  /** Every item has its stored file, and its original if one was kept. */
  ghost predicate Present(items: seq<Item>, files: set<string>) {
    forall i :: 0 <= i < |items| ==> FilesOf(items[i]) <= files
  }

  lemma WithoutSound(items: seq<Item>, k: nat)
    requires Sound(items) && k < |items|
    ensures Sound(Without(items, k)) && IDs(Without(items, k)) == IDs(items) - {items[k].id}
  {
    hide WellFormed;
    var r := Without(items, k);
    assert forall i :: 0 <= i < |r| ==> r[i] == items[if i < k then i else i + 1];
    forall i | 0 <= i < |items| && i != k ensures items[i].id in IDs(r) {
      assert r[if i < k then i else i - 1] == items[i];
    }
  }

  lemma WithoutPresent(items: seq<Item>, k: nat, files: set<string>)
    requires Present(items, files) && k < |items|
    ensures Present(Without(items, k), files)
  {
    hide FilesOf;
    var r := Without(items, k);
    assert forall i :: 0 <= i < |r| ==> r[i] == items[if i < k then i else i + 1];
  }

  lemma PrependSound(item: Item, items: seq<Item>)
    requires Sound(items) && WellFormed(item) && item.id !in IDs(items)
    ensures Sound([item] + items) && IDs([item] + items) == IDs(items) + {item.id}
  {
    hide WellFormed;
    var r := [item] + items;
    assert r[0] == item;
    forall i | 0 <= i < |items| ensures items[i].id in IDs(r) {
      assert r[i + 1] == items[i];
    }
    assert forall i :: 0 < i < |r| ==> r[i] == items[i - 1] && r[i].id in IDs(items);
  }

  lemma PrependPresent(item: Item, items: seq<Item>, files: set<string>)
    requires Present(items, files) && FilesOf(item) <= files
    ensures Present([item] + items, files)
  {
    hide FilesOf;
  }

  lemma EditKeeps(items: seq<Item>, k: nat, e: Edit, files: set<string>)
    requires Sound(items) && k < |items|
    ensures var r := items[k := Edited(items[k], e)];
            Sound(r) && IDs(r) == IDs(items) && (Present(items, files) ==> Present(r, files))
  {
    hide StoredFile, OriginalFile, HexID, TrimSpace, FileOf;
    var r := items[k := Edited(items[k], e)];
    assert forall i :: 0 <= i < |items| ==> r[i].id == items[i].id && FilesOf(r[i]) == FilesOf(items[i]);
    assert WellFormed(r[k]);
    SameIDs(items, r);
  }

  lemma SameIDs(a: seq<Item>, b: seq<Item>)
    requires |a| == |b| && forall i :: 0 <= i < |a| ==> b[i].id == a[i].id
    ensures IDs(a) == IDs(b)
  {
    forall i | 0 <= i < |a| ensures a[i].id in IDs(b) && b[i].id in IDs(a) {
      assert b[i].id == a[i].id;
    }
  }

  lemma BackfillKeeps(items: seq<Item>, found: Found, files: set<string>)
    requires Sound(items)
    ensures var r := Backfilled(items, found);
            Sound(r) && IDs(r) == IDs(items) && (Present(items, files) ==> Present(r, files))
  {
    hide StoredFile, OriginalFile, HexID, FileOf;
    var r := Backfilled(items, found);
    forall i | 0 <= i < |items| ensures r[i].id == items[i].id && FilesOf(r[i]) == FilesOf(items[i]) && WellFormed(r[i]) {
      assert WellFormed(items[i]);
    }
    SameIDs(items, r);
  }

  // ---------------------------------------------------------------- the state machine

  type Thread = nat

  /** Where a request is. The calls of the second group hold the lock. */
  datatype Call =
    | Uploading(item: Item)          // an ID has been drawn, nothing is written
    | StoredWritten(item: Item)      // the original is still to be written
    | Undoing(item: Item)            // the original could not be written
    | Registering(item: Item)        // all files are there; waits for the lock
    | SavingUpload(item: Item)
    | SavingEdit
    | SavingDelete(item: Item)       // gone from memory, not from the index
    | RemovingStored(item: Item)
    | RemovingOriginal(item: Item)
    | Returned

  datatype State = State(
    files: set<string>, index: seq<Item>, items: seq<Item>, running: bool,
    calls: map<Thread, Call>, lock: Option<Thread>, drawn: set<string>)

  const INIT := State({}, [], [], false, map[], None, {})

  datatype Step =
    | Upload(t: Thread, item: Item)
    | WriteStored(t: Thread, ok: bool)
    | WriteOriginal(t: Thread, ok: bool)
    | Undo(t: Thread)
    | Register(t: Thread)
    | SaveUpload(t: Thread, ok: bool)
    | Change(t: Thread, id: string, edit: Edit)
    | SaveChange(t: Thread, ok: bool)
    | Delete(t: Thread, id: string)
    | SaveDelete(t: Thread, ok: bool)
    | RemoveStored(t: Thread)
    | RemoveOriginal(t: Thread)
    | Crash
    | Reload(found: Found)

  predicate At(s: State, t: Thread) { t in s.calls }

  ghost predicate Enabled(s: State, step: Step) {
    match step
    case Upload(t, item) => s.running && t !in s.calls && WellFormed(item) && item.id !in s.drawn
    case WriteStored(t, _) => At(s, t) && s.calls[t].Uploading?
    case WriteOriginal(t, _) => At(s, t) && s.calls[t].StoredWritten?
    case Undo(t) => At(s, t) && s.calls[t].Undoing?
    case Register(t) => At(s, t) && s.calls[t].Registering? && s.lock.None?
    case SaveUpload(t, _) => At(s, t) && s.calls[t].SavingUpload?
    case Change(t, _, _) => s.running && t !in s.calls && s.lock.None?
    case SaveChange(t, _) => At(s, t) && s.calls[t].SavingEdit?
    case Delete(t, _) => s.running && t !in s.calls && s.lock.None?
    case SaveDelete(t, _) => At(s, t) && s.calls[t].SavingDelete?
    case RemoveStored(t) => At(s, t) && s.calls[t].RemovingStored?
    case RemoveOriginal(t) => At(s, t) && s.calls[t].RemovingOriginal?
    case Crash => s.running
    case Reload(_) => !s.running
  }

  function With(s: State, t: Thread, call: Call): State { s.(calls := s.calls[t := call]) }

  ghost function Apply(s: State, step: Step): State
    requires Enabled(s, step)
  {
    match step
    case Upload(t, item) => With(s, t, Uploading(item)).(drawn := s.drawn + {item.id})
    case WriteStored(t, ok) =>
      var item := s.calls[t].item;
      if !ok then With(s, t, Returned)
      else
        With(s, t, if item.originalPath != "" then StoredWritten(item) else Registering(item))
          .(files := s.files + {FileOf(item.path)})
    case WriteOriginal(t, ok) =>
      var item := s.calls[t].item;
      if !ok then With(s, t, Undoing(item))
      else With(s, t, Registering(item)).(files := s.files + {FileOf(item.originalPath)})
    case Undo(t) => With(s, t, Returned).(files := s.files - {FileOf(s.calls[t].item.path)})
    case Register(t) =>
      var item := s.calls[t].item;
      With(s, t, SavingUpload(item)).(items := [item] + s.items, lock := Some(t))
    case SaveUpload(t, ok) => With(s, t, Returned).(index := if ok then s.items else s.index, lock := None)
    case Change(t, id, e) =>
      (match Position(s.items, id)
       case None => With(s, t, Returned)
       case Some(k) => With(s, t, SavingEdit).(items := s.items[k := Edited(s.items[k], e)], lock := Some(t)))
    case SaveChange(t, ok) => With(s, t, Returned).(index := if ok then s.items else s.index, lock := None)
    case Delete(t, id) =>
      (match Position(s.items, id)
       case None => With(s, t, Returned)
       case Some(k) => With(s, t, SavingDelete(s.items[k])).(items := Without(s.items, k), lock := Some(t)))
    case SaveDelete(t, ok) =>
      if ok then With(s, t, RemovingStored(s.calls[t].item)).(index := s.items)
      else With(s, t, Returned).(lock := None)
    case RemoveStored(t) =>
      var item := s.calls[t].item;
      With(s, t, RemovingOriginal(item)).(files := s.files - Removed(item.path))
    case RemoveOriginal(t) =>
      With(s, t, Returned).(files := s.files - Removed(s.calls[t].item.originalPath), lock := None)
    case Crash => s.(running := false, items := [], calls := map[], lock := None)
    case Reload(found) =>
      var items := Backfilled(s.index, found);
      s.(running := true, items := items, index := items)
  }

  ghost predicate ValidRun(s: State, steps: seq<Step>)
    decreases |steps|
  {
    steps != [] ==> Enabled(s, steps[0]) && ValidRun(Apply(s, steps[0]), steps[1..])
  }

  ghost function Final(s: State, steps: seq<Step>): State
    requires ValidRun(s, steps)
    decreases |steps|
  {
    if steps == [] then s else Final(Apply(s, steps[0]), steps[1..])
  }

  // ---------------------------------------------------------------- invariants

  predicate HoldsLock(call: Call) {
    call.SavingUpload? || call.SavingEdit? || call.SavingDelete? || call.RemovingStored? || call.RemovingOriginal?
  }

  /** The ID a call deals with while the lists in memory do not have it. */
  function Private(call: Call): Option<string> {
    if call.Returned? || call.SavingEdit? || call.SavingUpload? then None else Some(call.item.id)
  }

  ghost predicate ListsSound(s: State) {
    && Sound(s.index) && Sound(s.items)
    && Present(s.index, s.files) && Present(s.items, s.files)
  }

  /** A call's item is well formed, known under a drawn ID, and its files are as far as the call has come. */
  ghost predicate CallSound(s: State, call: Call) {
    Private(call).Some? ==>
      && WellFormed(call.item)
      && call.item.id in s.drawn
      && call.item.id !in IDs(s.items)
      && (!call.SavingDelete? ==> call.item.id !in IDs(s.index))
      && (call.StoredWritten? ==> FileOf(call.item.path) in s.files)
      && (call.Registering? ==> FilesOf(call.item) <= s.files)
  }

  ghost predicate CallsSound(s: State) {
    forall t :: t in s.calls ==> CallSound(s, s.calls[t]) && (HoldsLock(s.calls[t]) ==> s.lock == Some(t))
  }

  ghost predicate PrivateApart(s: State) {
    forall t, t' :: t in s.calls && t' in s.calls && t != t' && Private(s.calls[t]).Some?
      ==> Private(s.calls[t]) != Private(s.calls[t'])
  }

  ghost predicate AllDrawn(s: State) {
    IDs(s.items) <= s.drawn && IDs(s.index) <= s.drawn
  }

  /** Nothing is under way while the program is down. */
  predicate DownIsQuiet(s: State) {
    !s.running ==> s.calls == map[] && s.items == []
  }

  ghost predicate Inv(s: State) {
    ListsSound(s) && CallsSound(s) && PrivateApart(s) && AllDrawn(s) && DownIsQuiet(s)
  }

  lemma InitInv()
    ensures Inv(INIT)
  {
  }

  /** Files with a certain owner may come and go without touching anyone else's. */
  lemma OthersPresent(items: seq<Item>, files: set<string>, gone: set<string>, id: string)
    requires Sound(items) && Present(items, files) && id !in IDs(items)
    requires forall f :: f in gone ==> Owner(f) == id
    ensures Present(items, files - gone)
  {
    hide WellFormed, FilesOf, Owner;
    forall i | 0 <= i < |items| ensures FilesOf(items[i]) <= files - gone {
      assert items[i].id in IDs(items);
      forall f | f in FilesOf(items[i]) ensures f in files - gone {
        FilesOwned(items[i], f);
      }
    }
  }

  lemma MorePresent(items: seq<Item>, files: set<string>, more: set<string>)
    requires Present(items, files)
    ensures Present(items, files + more)
  {
  }

  /** What a step takes off the disk, and the ID it belongs to. */
  ghost function Gone(s: State, step: Step): set<string>
    requires Enabled(s, step)
  {
    if step.Undo? then {FileOf(s.calls[step.t].item.path)}
    else if step.RemoveStored? then Removed(s.calls[step.t].item.path)
    else if step.RemoveOriginal? then Removed(s.calls[step.t].item.originalPath)
    else {}
  }

  predicate Removes(step: Step) { step.Undo? || step.RemoveStored? || step.RemoveOriginal? }

  lemma GoneIsOwn(s: State, step: Step)
    requires Inv(s) && Enabled(s, step) && Removes(step)
    ensures var item := s.calls[step.t].item;
            && Private(s.calls[step.t]) == Some(item.id)
            && item.id !in IDs(s.items) && item.id !in IDs(s.index)
            && forall f :: f in Gone(s, step) ==> Owner(f) == item.id
  {
    hide ListsSound, PrivateApart, AllDrawn, Owner, WellFormed;
    var item := s.calls[step.t].item;
    assert CallSound(s, s.calls[step.t]);
    forall f | f in Gone(s, step) ensures Owner(f) == item.id {
      if step.Undo? {
        FilesOwned(item, f);
      } else {
        RemovedOwned(item, f);
      }
    }
  }

  lemma KeepsLists(s: State, step: Step)
    requires Inv(s) && Enabled(s, step)
    ensures ListsSound(Apply(s, step))
  {
    hide Sound, Present, WellFormed, FilesOf, FileOf, Removed, Without, Edited, Backfilled, AllDrawn, PrivateApart, Position;
    match step {
      case Undo(t) => GoneKeepsLists(s, step);
      case RemoveStored(t) => GoneKeepsLists(s, step);
      case RemoveOriginal(t) => GoneKeepsLists(s, step);
      case WriteStored(t, ok) =>
        MorePresent(s.items, s.files, {FileOf(s.calls[t].item.path)});
        MorePresent(s.index, s.files, {FileOf(s.calls[t].item.path)});
      case WriteOriginal(t, ok) =>
        MorePresent(s.items, s.files, {FileOf(s.calls[t].item.originalPath)});
        MorePresent(s.index, s.files, {FileOf(s.calls[t].item.originalPath)});
      case Register(t) =>
        assert CallSound(s, s.calls[t]);
        PrependSound(s.calls[t].item, s.items);
        PrependPresent(s.calls[t].item, s.items, s.files);
      case Change(t, id, e) =>
        match Position(s.items, id) {
          case None =>
          case Some(k) => PositionFound(s.items, id); EditKeeps(s.items, k, e, s.files);
        }
      case Delete(t, id) =>
        match Position(s.items, id) {
          case None =>
          case Some(k) => PositionFound(s.items, id); WithoutSound(s.items, k); WithoutPresent(s.items, k, s.files);
        }
      case Crash => assert Sound([]) && Present([], s.files) by { EmptyLists(s.files); }
      case Reload(found) => BackfillKeeps(s.index, found, s.files);
      case _ =>
    }
  }

  lemma PositionFound(items: seq<Item>, id: string)
    ensures var r := Position(items, id);
            (r.Some? ==> r.value < |items| && items[r.value].id == id) && (r.None? <==> id !in IDs(items))
  {
  }

  lemma EmptyLists(files: set<string>)
    ensures Sound([]) && Present([], files) && IDs([]) == {}
  {
  }

  lemma GoneKeepsLists(s: State, step: Step)
    requires Inv(s) && Enabled(s, step) && Removes(step)
    ensures ListsSound(Apply(s, step))
  {
    hide Sound, Present, WellFormed, FilesOf, FileOf, Removed, AllDrawn, PrivateApart, CallsSound, Owner;
    GoneIsOwn(s, step);
    var id := s.calls[step.t].item.id;
    OthersPresent(s.items, s.files, Gone(s, step), id);
    OthersPresent(s.index, s.files, Gone(s, step), id);
    assert Apply(s, step).files == s.files - Gone(s, step);
  }

  /** How a step changes the IDs in the lists. */
  lemma IDsAfter(s: State, step: Step)
    requires Inv(s) && Enabled(s, step)
    ensures var s' := Apply(s, step);
            && IDs(s'.items) <= IDs(s.items) + IDs(s.index) + (if step.Register? then {s.calls[step.t].item.id} else {})
            && (!step.Reload? ==> IDs(s'.items) <= IDs(s.items) + (if step.Register? then {s.calls[step.t].item.id} else {}))
            && IDs(s'.index) <= IDs(s.items) + IDs(s.index)
            && s.drawn <= s'.drawn
    ensures step.Delete? && Position(s.items, step.id).Some? ==> step.id !in IDs(Apply(s, step).items) && step.id in IDs(s.items)
  {
    hide Sound, Present, WellFormed, FilesOf, FileOf, Removed, Without, Edited, Backfilled, PrivateApart, Position, IDs;
    match step {
      case Register(t) =>
        assert CallSound(s, s.calls[t]);
        PrependSound(s.calls[t].item, s.items);
      case Change(t, id, e) =>
        PositionFound(s.items, id);
        if Position(s.items, id).Some? { EditKeeps(s.items, Position(s.items, id).value, e, s.files); }
      case Delete(t, id) =>
        PositionFound(s.items, id);
        if Position(s.items, id).Some? { WithoutSound(s.items, Position(s.items, id).value); }
      case Crash => EmptyLists(s.files);
      case Reload(found) => BackfillKeeps(s.index, found, s.files);
      case _ =>
    }
  }

  /** A file a call has written for an item of its own stays while other calls take steps. */
  lemma FileStays(s: State, step: Step, call: Call, file: string)
    requires Inv(s) && Enabled(s, step) && CallSound(s, call) && Private(call).Some?
    requires Removes(step) ==> Private(s.calls[step.t]) != Private(call)
    requires file in FilesOf(call.item) && file in s.files
    ensures file in Apply(s, step).files
  {
    hide Inv, WellFormed, FilesOf, FileOf, Removed, Owner, Position, Without, Edited, Backfilled;
    FilesOwned(call.item, file);
    if Removes(step) {
      GoneIsOwn(s, step);
      assert Apply(s, step).files == s.files - Gone(s, step);
    }
  }

  predicate StepOf(step: Step, t: Thread) {
    !step.Crash? && !step.Reload? && step.t == t
  }

  lemma OtherCallSound(s: State, step: Step, t: Thread)
    requires Inv(s) && Enabled(s, step) && t in s.calls && t in Apply(s, step).calls && !StepOf(step, t) && !step.Reload?
    ensures Apply(s, step).calls[t] == s.calls[t] && CallSound(Apply(s, step), s.calls[t])
    ensures HoldsLock(s.calls[t]) ==> Apply(s, step).lock == Some(t)
  {
    hide ListsSound, AllDrawn, WellFormed, FilesOf, FileOf, Removed, Owner, Position, Without, Edited, Backfilled, IDs;
    var call, s' := s.calls[t], Apply(s, step);
    assert CallSound(s, call);
    IDsAfter(s, step);
    if Private(call).Some? {
      if call.StoredWritten? { FileStays(s, step, call, FileOf(call.item.path)) by { StoredIsOwn(call.item); } }
      if call.Registering? {
        forall f | f in FilesOf(call.item) ensures f in s'.files {
          FileStays(s, step, call, f);
        }
      }
    }
  }

  lemma StoredIsOwn(item: Item)
    ensures FileOf(item.path) in FilesOf(item)
  {
  }

  /** The call that takes the step. */
  lemma OwnCallSound(s: State, step: Step)
    requires Inv(s) && Enabled(s, step) && !step.Crash? && !step.Reload?
    ensures var s' := Apply(s, step);
            step.t in s'.calls && CallSound(s', s'.calls[step.t]) && (HoldsLock(s'.calls[step.t]) ==> s'.lock == Some(step.t))
  {
    hide ListsSound, FileOf, Removed, Owner, Without, Edited, IDs, Position, PrivateApart, WellFormed;
    IDsAfter(s, step);
    if step.t in s.calls { assert CallSound(s, s.calls[step.t]); }
    match step {
      case Delete(t, id) =>
        PositionFound(s.items, id);
        if Position(s.items, id).Some? {
          ItemOf(s, Position(s.items, id).value);
        }
      case _ =>
    }
  }

  lemma ItemOf(s: State, k: nat)
    requires Inv(s) && k < |s.items|
    ensures WellFormed(s.items[k]) && s.items[k].id in s.drawn
  {
    hide WellFormed, Present, CallsSound, PrivateApart;
    assert s.items[k].id in IDs(s.items);
  }

  lemma KeepsCalls(s: State, step: Step)
    requires Inv(s) && Enabled(s, step)
    ensures CallsSound(Apply(s, step))
  {
    hide Inv, Enabled, Apply, CallSound;
    var s' := Apply(s, step);
    forall t | t in s'.calls ensures CallSound(s', s'.calls[t]) && (HoldsLock(s'.calls[t]) ==> s'.lock == Some(t)) {
      CallsAfter(s, step, t);
      if StepOf(step, t) {
        OwnCallSound(s, step);
      } else {
        OtherCallSound(s, step, t);
      }
    }
  }

  lemma CallsAfter(s: State, step: Step, t: Thread)
    requires Inv(s) && Enabled(s, step)
    ensures t in Apply(s, step).calls && !StepOf(step, t) ==> t in s.calls && !step.Reload? && Apply(s, step).calls[t] == s.calls[t]
  {
    hide ListsSound, CallsSound, PrivateApart, AllDrawn, Position, Without, Edited, Backfilled, Removed;
  }

  lemma OwnPrivate(s: State, step: Step)
    requires Inv(s) && Enabled(s, step) && !step.Crash? && !step.Reload? && Private(Apply(s, step).calls[step.t]).Some?
    ensures var id := Private(Apply(s, step).calls[step.t]);
            id == (if step.t in s.calls then Private(s.calls[step.t]) else None)
            || (step.Upload? && id == Some(step.item.id))
            || (step.Delete? && id == Some(step.id) && step.id in IDs(s.items))
  {
    hide ListsSound, CallsSound, PrivateApart, AllDrawn, Without, Edited, Removed, IDs, Position;
    if step.Delete? { PositionFound(s.items, step.id); }
  }

  lemma KeepsApart(s: State, step: Step)
    requires Inv(s) && Enabled(s, step)
    ensures PrivateApart(Apply(s, step))
  {
    hide Apply, CallSound, ListsSound, AllDrawn, Private, IDs;
    var s' := Apply(s, step);
    forall t, t' | t in s'.calls && t' in s'.calls && t != t' && Private(s'.calls[t]).Some?
      ensures Private(s'.calls[t]) != Private(s'.calls[t'])
    {
      CallsAfter(s, step, t);
      CallsAfter(s, step, t');
      if StepOf(step, t) {
        OwnApart(s, step, t');
      } else if StepOf(step, t') && Private(s'.calls[t']).Some? {
        OwnApart(s, step, t);
      }
    }
  }

  lemma OwnApart(s: State, step: Step, other: Thread)
    requires Inv(s) && Enabled(s, step) && other in s.calls && !step.Crash? && !step.Reload? && step.t != other
    requires step.t in Apply(s, step).calls && Private(Apply(s, step).calls[step.t]).Some?
    ensures Private(Apply(s, step).calls[step.t]) != Private(s.calls[other])
  {
    hide Apply, ListsSound, AllDrawn, IDs;
    OwnPrivate(s, step);
    assert CallSound(s, s.calls[other]);
  }

  lemma KeepsRest(s: State, step: Step)
    requires Inv(s) && Enabled(s, step)
    ensures AllDrawn(Apply(s, step)) && DownIsQuiet(Apply(s, step))
  {
    hide ListsSound, PrivateApart, Position, Without, Edited, Backfilled, Removed, IDs, WellFormed;
    IDsAfter(s, step);
    if step.Register? { assert CallSound(s, s.calls[step.t]); }
  }

  /** Every step keeps the invariant, also a crash and what comes after it. */
  lemma KeepsInv(s: State, step: Step)
    requires Inv(s) && Enabled(s, step)
    ensures Inv(Apply(s, step))
  {
    hide ListsSound, CallsSound, PrivateApart, AllDrawn, DownIsQuiet, Apply, Enabled;
    KeepsLists(s, step);
    KeepsCalls(s, step);
    KeepsApart(s, step);
    KeepsRest(s, step);
  }

  lemma {:induction false} RunKeepsInv(s: State, steps: seq<Step>)
    requires Inv(s) && ValidRun(s, steps)
    ensures Inv(Final(s, steps))
    decreases |steps|
  {
    hide Inv, Enabled, Apply;
    if steps != [] {
      KeepsInv(s, steps[0]);
      RunKeepsInv(Apply(s, steps[0]), steps[1..]);
    }
  }

  // ---------------------------------------------------------------- main results

  /** In every reachable state each item of the index on disk and of the list in memory has its stored file and
      its kept original. */
  lemma FilesArePresent(steps: seq<Step>, item: Item)
    requires ValidRun(INIT, steps)
    requires item in Final(INIT, steps).index || item in Final(INIT, steps).items
    ensures FilesOf(item) <= Final(INIT, steps).files
  {
    hide Inv, Enabled, Apply, ValidRun, Final, FilesOf;
    InitInv();
    RunKeepsInv(INIT, steps);
    ListedPresent(Final(INIT, steps), item);
  }

  lemma ListedPresent(s: State, item: Item)
    requires Inv(s) && (item in s.index || item in s.items)
    ensures FilesOf(item) <= s.files
  {
    hide CallsSound, PrivateApart, AllDrawn, Sound, FilesOf;
  }

  /** Whatever takes files off the disk in a reachable state, no file of a listed item is among them, and none of
      an upload still under way. */
  lemma RemovalSparesOthers(steps: seq<Step>, step: Step, item: Item)
    requires ValidRun(INIT, steps)
    requires var s := Final(INIT, steps);
             && Enabled(s, step) && Removes(step)
             && (item in s.index || item in s.items || InFlight(s, step.t, item))
    ensures FilesOf(item) !! Gone(Final(INIT, steps), step)
  {
    hide Inv, Enabled, Apply, ValidRun, Final, FilesOf, Gone, Owner;
    InitInv();
    RunKeepsInv(INIT, steps);
    var s := Final(INIT, steps);
    GoneIsOwn(s, step);
    OthersHaveOtherID(s, step, item);
    forall f | f in FilesOf(item) ensures f !in Gone(s, step) {
      FilesOwned(item, f);
    }
  }

  /** An upload by another request. */
  predicate InFlight(s: State, t: Thread, item: Item) {
    exists t' :: t' in s.calls && t' != t && Private(s.calls[t']).Some? && s.calls[t'].item == item
  }

  lemma OthersHaveOtherID(s: State, step: Step, item: Item)
    requires Inv(s) && Enabled(s, step) && Removes(step)
    requires item in s.index || item in s.items || InFlight(s, step.t, item)
    ensures WellFormed(item) && item.id != s.calls[step.t].item.id
  {
    hide WellFormed, Present, AllDrawn;
    GoneIsOwn(s, step);
    if InFlight(s, step.t, item) {
      var t' :| t' in s.calls && t' != step.t && Private(s.calls[t']).Some? && s.calls[t'].item == item;
      assert CallSound(s, s.calls[t']);
    } else if item in s.items {
      var i :| 0 <= i < |s.items| && s.items[i] == item;
      assert item.id in IDs(s.items);
    } else {
      var i :| 0 <= i < |s.index| && s.index[i] == item;
      assert item.id in IDs(s.index);
    }
  }

  /** A deletion that is carried through takes the stored file with it, unless the path ends in white space: paths
      are trimmed before they are resolved, so such a file is left behind. */
  lemma DeletionRemovesOwnFile(s: State, t: Thread)
    requires Inv(s) && Enabled(s, RemoveStored(t)) && FileOf(s.calls[t].item.path) in s.files
    ensures var item := s.calls[t].item;
            FileOf(item.path) !in Apply(s, RemoveStored(t)).files <==> !IsSpace(item.path[|item.path| - 1])
  {
    hide StoredFile, OriginalFile, HexID, Resolve, IsSpace, FileOf, ListsSound, PrivateApart, AllDrawn;
    var item := s.calls[t].item;
    assert CallSound(s, s.calls[t]);
    ResolvesToOwn(item.path, item.id);
  }

  /** The same for the original that was kept. */
  lemma DeletionRemovesOwnOriginal(s: State, t: Thread)
    requires Inv(s) && Enabled(s, RemoveOriginal(t))
    requires var path := s.calls[t].item.originalPath; path != "" && FileOf(path) in s.files
    ensures var path := s.calls[t].item.originalPath;
            FileOf(path) !in Apply(s, RemoveOriginal(t)).files <==> !IsSpace(path[|path| - 1])
  {
    hide StoredFile, OriginalFile, HexID, Resolve, IsSpace, FileOf, ListsSound, PrivateApart, AllDrawn;
    var item := s.calls[t].item;
    assert CallSound(s, s.calls[t]);
    ResolvesToOwn(item.originalPath, item.id);
  }

  const ZEROS := Zeros(ID_LENGTH)

  /** What an upload named "a. " becomes: its extension is a dot and a space. */
  const SPACED := Item(ZEROS, MEDIA + Relative(Month("2024", "01"), ZEROS, ". "), "", "a. ", "", "", false, 0, 0)

  const UPLOADED := [Reload(map[]), Upload(1, SPACED), WriteStored(1, true), Register(1), SaveUpload(1, true)]
  const DELETED := [Delete(2, ZEROS), SaveDelete(2, true), RemoveStored(2), RemoveOriginal(2)]

  lemma SpacedIsWellFormed()
    ensures WellFormed(SPACED) && IsSpace(SPACED.path[|SPACED.path| - 1])
  {
    var month := Month("2024", "01");
    assert month.Valid();
    assert FileOf(SPACED.path) == Relative(month, ZEROS, ". ");
    assert '/' !in ". ";
    assert SPACED.path[|SPACED.path| - 1] == ". "[1];
  }

  lemma RunFirst(s: State, step: Step, rest: seq<Step>)
    requires Enabled(s, step) && ValidRun(Apply(s, step), rest)
    ensures ValidRun(s, [step] + rest) && Final(s, [step] + rest) == Final(Apply(s, step), rest)
  {
    hide Enabled, Apply;
    assert ([step] + rest)[1..] == rest;
  }

  /** Uploading that file and deleting it again leaves it on disk, and in no list. */
  lemma SpacedFileIsLeftBehind()
    ensures ValidRun(INIT, UPLOADED + DELETED)
    ensures var s := Final(INIT, UPLOADED + DELETED);
            s.items == [] && s.index == [] && FileOf(SPACED.path) in s.files && 2 in s.calls && s.calls[2].Returned?
  {
    hide WellFormed, Inv, Enabled, Apply, FileOf, ValidRun, Final;
    InitInv();
    StoreOpened();
    var s1 := Apply(INIT, Reload(map[]));
    KeepsInv(INIT, Reload(map[]));
    SpacedArrives(s1);
    var s2 := Apply(s1, Upload(1, SPACED));
    KeepsInv(s1, Upload(1, SPACED));
    SpacedWritten(s2);
    var s3 := Apply(s2, WriteStored(1, true));
    KeepsInv(s2, WriteStored(1, true));
    SpacedListed(s3);
    var s4 := Apply(s3, Register(1));
    KeepsInv(s3, Register(1));
    SpacedSaved(s4);
    var s5 := Apply(s4, SaveUpload(1, true));
    KeepsInv(s4, SaveUpload(1, true));
    DeletedLeavesFile(s5);
    var last, rest := SaveUpload(1, true), DELETED;
    RunFirst(s4, last, rest);
    RunFirst(s3, Register(1), [last] + rest);
    RunFirst(s2, WriteStored(1, true), [Register(1)] + ([last] + rest));
    RunFirst(s1, Upload(1, SPACED), [WriteStored(1, true)] + ([Register(1)] + ([last] + rest)));
    RunFirst(INIT, Reload(map[]), [Upload(1, SPACED)] + ([WriteStored(1, true)] + ([Register(1)] + ([last] + rest))));
    assert UPLOADED + rest
      == [Reload(map[])] + ([Upload(1, SPACED)] + ([WriteStored(1, true)] + ([Register(1)] + ([last] + rest))));
  }

  predicate OnlySpaced(s: State, call: Call, files: set<string>) {
    s.running && s.lock == None && s.calls == map[1 := call] && s.files == files && s.items == [] && s.index == []
  }

  lemma StoreOpened()
    ensures Enabled(INIT, Reload(map[]))
    ensures var s := Apply(INIT, Reload(map[]));
            s.running && s.lock == None && s.calls == map[] && s.files == {} && s.items == [] && s.index == [] && s.drawn == {}
  {
    EmptyBackfilled();
  }

  lemma SpacedArrives(s: State)
    requires s.running && s.lock == None && s.calls == map[] && s.files == {} && s.items == [] && s.index == [] && s.drawn == {}
    ensures Enabled(s, Upload(1, SPACED)) && OnlySpaced(Apply(s, Upload(1, SPACED)), Uploading(SPACED), {})
  {
    hide WellFormed;
    SpacedIsWellFormed();
  }

  lemma SpacedWritten(s: State)
    requires OnlySpaced(s, Uploading(SPACED), {})
    ensures Enabled(s, WriteStored(1, true))
    ensures OnlySpaced(Apply(s, WriteStored(1, true)), Registering(SPACED), {FileOf(SPACED.path)})
  {
    hide FileOf;
  }

  lemma SpacedListed(s: State)
    requires OnlySpaced(s, Registering(SPACED), {FileOf(SPACED.path)})
    ensures Enabled(s, Register(1))
    ensures var s' := Apply(s, Register(1));
            && s'.running && s'.calls == map[1 := SavingUpload(SPACED)] && s'.lock == Some(1)
            && s'.items == [SPACED] && s'.files == {FileOf(SPACED.path)}
  {
    hide FileOf;
    assert [SPACED] + [] == [SPACED];
  }

  lemma SpacedSaved(s: State)
    requires s.running && s.calls == map[1 := SavingUpload(SPACED)] && s.lock == Some(1)
    requires s.items == [SPACED] && s.files == {FileOf(SPACED.path)}
    ensures Enabled(s, SaveUpload(1, true))
    ensures var s' := Apply(s, SaveUpload(1, true));
            && s'.items == s'.index == [SPACED] && s'.lock == None && s'.running && 2 !in s'.calls
            && FileOf(SPACED.path) in s'.files
  {
    hide FileOf;
  }

  lemma EmptyBackfilled()
    ensures Backfilled([], map[]) == []
  {
  }

  lemma DeletedLeavesFile(s: State)
    requires Inv(s) && s.items == s.index == [SPACED] && s.lock == None && s.running && 2 !in s.calls
    requires FileOf(SPACED.path) in s.files
    ensures ValidRun(s, DELETED)
    ensures var s' := Final(s, DELETED);
            s'.items == [] && s'.index == [] && FileOf(SPACED.path) in s'.files && 2 in s'.calls && s'.calls[2].Returned?
  {
    hide WellFormed, Inv, Enabled, Apply, FileOf, ValidRun, Final;
    DeletedInMemory(s);
    var s1 := Apply(s, Delete(2, ZEROS));
    KeepsInv(s, Delete(2, ZEROS));
    DeletedOnDisk(s1);
    var s2 := Apply(s1, SaveDelete(2, true));
    KeepsInv(s1, SaveDelete(2, true));
    SpacedFileStays(s2);
    var s3 := Apply(s2, RemoveStored(2));
    OriginalGone(s3);
    var last := RemoveOriginal(2);
    NothingLeftToRun(Apply(s3, last));
    RunFirst(s3, last, []);
    RunFirst(s2, RemoveStored(2), [last] + []);
    RunFirst(s1, SaveDelete(2, true), [RemoveStored(2)] + ([last] + []));
    RunFirst(s, Delete(2, ZEROS), [SaveDelete(2, true)] + ([RemoveStored(2)] + ([last] + [])));
    assert DELETED == [Delete(2, ZEROS)] + ([SaveDelete(2, true)] + ([RemoveStored(2)] + ([last] + [])));
  }

  lemma NothingLeftToRun(s: State)
    ensures ValidRun(s, []) && Final(s, []) == s
  {
  }

  predicate SpacedBeing(s: State, call: Call) {
    2 in s.calls && s.calls[2] == call && s.items == [] && s.lock == Some(2) && FileOf(SPACED.path) in s.files
  }

  lemma DeletedInMemory(s: State)
    requires s.items == [SPACED] && s.lock == None && s.running && 2 !in s.calls && FileOf(SPACED.path) in s.files
    ensures Enabled(s, Delete(2, ZEROS)) && SpacedBeing(Apply(s, Delete(2, ZEROS)), SavingDelete(SPACED))
  {
    hide FileOf, Position;
    OnePosition();
    assert Without([SPACED], 0) == [];
  }

  lemma DeletedOnDisk(s: State)
    requires SpacedBeing(s, SavingDelete(SPACED))
    ensures Enabled(s, SaveDelete(2, true))
    ensures var s' := Apply(s, SaveDelete(2, true)); SpacedBeing(s', RemovingStored(SPACED)) && s'.index == []
  {
    hide FileOf;
  }

  lemma SpacedFileStays(s: State)
    requires Inv(s) && SpacedBeing(s, RemovingStored(SPACED)) && s.index == []
    ensures Enabled(s, RemoveStored(2))
    ensures var s' := Apply(s, RemoveStored(2)); SpacedBeing(s', RemovingOriginal(SPACED)) && s'.index == []
  {
    hide FileOf, Inv, Removed, IsSpace;
    SpacedIsWellFormed();
    DeletionRemovesOwnFile(s, 2);
  }

  lemma OriginalGone(s: State)
    requires SpacedBeing(s, RemovingOriginal(SPACED)) && s.index == []
    ensures Enabled(s, RemoveOriginal(2))
    ensures var s' := Apply(s, RemoveOriginal(2));
            2 in s'.calls && s'.calls[2].Returned? && s'.items == [] && s'.index == [] && FileOf(SPACED.path) in s'.files
  {
    hide FileOf, Resolve;
    NoPath();
  }

  lemma OnePosition()
    ensures Position([SPACED], ZEROS) == Some(0)
  {
    assert [SPACED][..0] == [];
  }

  /** After a crash and a reload the list in memory is the index that was on disk, up to dimensions found since. */
  lemma CrashRecovers(s: State, found: Found)
    requires Inv(s) && s.running
    ensures var s' := Apply(Apply(s, Crash), Reload(found));
            && Inv(s')
            && |s'.items| == |s.index|
            && forall i :: 0 <= i < |s.index| ==> s'.items[i].id == s.index[i].id && FilesOf(s'.items[i]) == FilesOf(s.index[i])
  {
    hide Inv, FilesOf;
    KeepsInv(s, Crash);
    KeepsInv(Apply(s, Crash), Reload(found));
    forall i | 0 <= i < |s.index| ensures FilesOf(BackfilledItem(s.index[i], found)) == FilesOf(s.index[i]) {
      SameFiles(s.index[i], found);
    }
  }

  lemma SameFiles(item: Item, found: Found)
    ensures FilesOf(BackfilledItem(item, found)) == FilesOf(item)
  {
  }

  // ---------------------------------------------------------------- the store object

  lemma {:induction false} PositionFirst(items: seq<Item>, i: nat, id: string)
    requires i < |items| && items[i].id == id && id !in IDs(items[..i])
    ensures Position(items, id) == Some(i)
  {
    hide IDs;
    PositionFound(items[..i], id);
    if i < |items| - 1 {
      assert items[..|items| - 1][..i] == items[..i];
      PositionFirst(items[..|items| - 1], i, id);
    }
  }

  lemma OneMoreID(items: seq<Item>, i: nat)
    requires i < |items|
    ensures IDs(items[..i + 1]) == IDs(items[..i]) + {items[i].id}
  {
    assert forall k :: 0 <= k < i ==> items[..i + 1][k] == items[..i][k];
    assert items[..i + 1][i].id == items[i].id;
    forall k | 0 <= k < i ensures items[k].id in IDs(items[..i + 1]) {
      assert items[..i + 1][k].id == items[k].id;
    }
  }

  /** Taking a new item's file away again leaves the files of the others. */
  lemma UndoKeeps(items: seq<Item>, files: set<string>, before: set<string>, item: Item)
    requires Sound(items) && Present(items, before) && WellFormed(item) && item.id !in IDs(items)
    requires files == before + {FileOf(item.path)} - {FileOf(item.path)}
    ensures Present(items, files) && files == before - {FileOf(item.path)}
  {
    hide Sound, Present, WellFormed, Owner, FileOf, IDs;
    FilesOwned(item, FileOf(item.path));
    OthersPresent(items, before, {FileOf(item.path)}, item.id);
    assert files == before - {FileOf(item.path)};
  }

  /** The operations one at a time, each with the outcome of its file operations given. `files` and `index` are on
      disk, `items` is in memory. */
  class Store {
    var files: set<string>
    var index: seq<Item>
    var items: seq<Item>

    ghost predicate Valid()
      reads this
    {
      Sound(index) && Sound(items) && Present(index, files) && Present(items, files)
    }

    constructor ()
      ensures Valid() && files == {} && index == [] && items == []
    {
      files, index, items := {}, [], [];
    }

    method SaveUpload(item: Item, stored: bool, original: bool, saved: bool)
      requires Valid() && WellFormed(item) && item.id !in IDs(items) && item.id !in IDs(index)
      modifies this
      ensures Valid()
      ensures !stored ==> items == old(items) && index == old(index) && files == old(files)
      ensures stored && item.originalPath != "" && !original ==>
        items == old(items) && index == old(index) && files == old(files) - {FileOf(item.path)}
      ensures stored && (item.originalPath == "" || original) ==>
        && items == [item] + old(items)
        && files == old(files) + FilesOf(item)
        && index == if saved then items else old(index)
    {
      hide Sound, Present, WellFormed, Owner, FileOf, IDs;
      if !stored {
        return;
      }
      files := files + {FileOf(item.path)};
      if item.originalPath != "" {
        if !original {
          UndoKeeps(items, files - {FileOf(item.path)}, old(files), item);
          UndoKeeps(index, files - {FileOf(item.path)}, old(files), item);
          files := files - {FileOf(item.path)};
          return;
        }
        files := files + {FileOf(item.originalPath)};
      }
      assert files == old(files) + FilesOf(item);
      MorePresent(items, old(files), FilesOf(item));
      MorePresent(index, old(files), FilesOf(item));
      PrependSound(item, items);
      PrependPresent(item, items, files);
      items := [item] + items;
      if saved {
        index := items;
      }
    }

    method Update(id: string, edit: Edit, saved: bool) returns (r: Option<Item>)
      requires Valid()
      modifies this
      ensures Valid() && files == old(files)
      ensures match Position(old(items), id)
        case None => r == None && items == old(items) && index == old(index)
        case Some(k) =>
          && items == old(items)[k := Edited(old(items)[k], edit)]
          && index == (if saved then items else old(index))
          && r == if saved then Some(items[k]) else None
    {
      hide Sound, Present, IDs, Position;
      NoIDs(items);
      for i := 0 to |items|
        invariant items == old(items) && index == old(index) && files == old(files)
        invariant id !in IDs(items[..i])
      {
        OneMoreID(items, i);
        if items[i].id != id {
          continue;
        }
        PositionFirst(items, i, id);
        EditKeeps(items, i, edit, files);
        var item := items[i];
        if TrimSpace(edit.name) != "" {
          item := item.(name := TrimSpace(edit.name));
        }
        item := item.(alt := TrimSpace(edit.alt), caption := TrimSpace(edit.caption));
        items := items[i := item];
        if !saved {
          return None;
        }
        index := items;
        return Some(items[i]);
      }
      assert items[..|items|] == items;
      PositionFound(items, id);
      return None;
    }

    method Delete(id: string, saved: bool) returns (found: bool)
      requires Valid()
      modifies this
      ensures Valid()
      ensures match Position(old(items), id)
        case None => !found && items == old(items) && index == old(index) && files == old(files)
        case Some(k) =>
          && found
          && items == Without(old(items), k)
          && index == (if saved then items else old(index))
          && files == if saved then old(files) - Removed(old(items)[k].path) - Removed(old(items)[k].originalPath) else old(files)
    {
      hide Sound, Present, IDs, Position, Removed, Owner;
      NoIDs(items);
      for i := 0 to |items|
        invariant items == old(items) && index == old(index) && files == old(files)
        invariant id !in IDs(items[..i])
      {
        OneMoreID(items, i);
        if items[i].id != id {
          continue;
        }
        PositionFirst(items, i, id);
        var item := items[i];
        assert WellFormed(item) by { MemberSound(items, i); }
        WithoutSound(items, i);
        WithoutPresent(items, i, files);
        items := items[..i] + items[i + 1..];
        if !saved {
          return true;
        }
        index := items;
        forall f | f in Removed(item.path) || f in Removed(item.originalPath) ensures Owner(f) == item.id {
          RemovedOwned(item, f);
        }
        OthersPresent(items, files, Removed(item.path), item.id);
        files := files - Removed(item.path);
        OthersPresent(items, files, Removed(item.originalPath), item.id);
        files := files - Removed(item.originalPath);
        return true;
      }
      assert items[..|items|] == items;
      PositionFound(items, id);
      return false;
    }

    /** Opening the store: the list is read from the index, and dimensions found for it are saved. */
    method Load(found: Found)
      requires Valid()
      modifies this
      ensures Valid() && files == old(files) && items == Backfilled(old(index), found) && index == items
    {
      hide Sound, Present;
      BackfillKeeps(index, found, files);
      items := index;
      var changed := false;
      for i := 0 to |items|
        invariant index == old(index) && files == old(files) && |items| == |index|
        invariant forall k :: 0 <= k < i ==> items[k] == BackfilledItem(index[k], found)
        invariant forall k :: i <= k < |items| ==> items[k] == index[k]
        invariant !changed ==> items == index
      {
        var item := items[i];
        if item.width > 0 && item.height > 0 {
          continue;
        }
        if !item.image || item.id !in found {
          continue;
        }
        var (width, height) := found[item.id];
        items := items[i := item.(width := width, height := height)];
        changed := true;
      }
      assert items == Backfilled(index, found);
      if changed {
        index := items;
      }
    }
  }

  lemma NoIDs(items: seq<Item>)
    ensures IDs(items[..0]) == {}
  {
  }

  lemma MemberSound(items: seq<Item>, i: nat)
    requires Sound(items) && i < |items|
    ensures WellFormed(items[i])
  {
  }
}
