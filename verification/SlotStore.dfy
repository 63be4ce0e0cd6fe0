/** The sidecar store shared by every image slot of a page (cloud-web/image-slot.js): hydration
    from a fetched file that local edits may overtake, and serialized writes back. */
module SlotStore {
  import opened Latch
  import opened Wrappers

  type Id = string

  /** What a drop or a crop stores; u is "" when it carries framing alone. */
  datatype Val = Val(u: string, s: real, x: real, y: real)

  /** A stored value: a bare URL (old files), an object, or anything else the file may hold. */
  datatype Stored = Bare(url: string) | Framed(val: Val) | Junk

  type Slots = map<Id, Stored>

  function UrlOf(v: Stored): string {
    match v
    case Bare(url) => url
    case Framed(val) => val.u
    case Junk => ""
  }

  predicate Truthy(v: Stored) {
    match v
    case Bare(url) => url != ""
    case Framed(_) => true
    case Junk => false
  }

  /** A local entry that lacks an image takes the file's. */
  function Inherited(v: Stored, file: Slots, id: Id): Stored {
    if v.Framed? && v.val.u == "" && id in file && Truthy(file[id]) then Framed(v.val.(u := UrlOf(file[id]))) else v
  }

  function Merged(file: Slots, slots: Slots, tombstones: set<Id>): Slots {
    map k | k in (file.Keys + slots.Keys) - tombstones :: if k in slots then Inherited(slots[k], file, k) else file[k]
  }

  datatype Load = NotStarted | Fetching | MergeDone | Loaded

  /** `deferred` counts the saves waiting for the load; `lastWrite`, `inFlight` (the writes whose
      promise has not settled) and `changed` are history. */
  datatype Store = Store(
    slots: Slots, tombstones: set<Id>, load: Load, saving: bool, saveDirty: bool, deferred: nat,
    lastWrite: Option<Slots>, inFlight: nat, changed: bool)

  const EMPTY := Store(map[], {}, NotStarted, false, false, 0, None, 0, false)

  /** The host's writeFile at one moment: not there, there, or there and throwing at once instead of
      returning a promise. */
  datatype Writer = Absent | Works | Throws

  datatype Step =
    | StartLoad
    | Merge(file: Option<Slots>)             // the fetch answered; None when that was not an object
    | FetchFailed                            // the fetch, or reading its body as JSON, was rejected
    | FinishLoad
    | Set(id: Id, val: Option<Val>, writer: Writer)
    | RunDeferred(writer: Writer)
    | WriteSettled(writer: Writer)
    | Flush(writer: Writer)

  predicate Enabled(s: Store, st: Step) {
    match st
    case StartLoad => true
    case Merge(_) => s.load.Fetching?
    case FetchFailed => s.load.Fetching?
    case FinishLoad => s.load.MergeDone?
    case Set(_, _, _) => true
    case RunDeferred(_) => s.load.Loaded? && s.deferred > 0
    case WriteSettled(_) => s.inFlight > 0
    case Flush(_) => true
  }

  /** The saving flag goes up before the writer is called, so one that throws leaves it up. */
  function Saved(s: Store, writer: Writer): Store {
    if s.saving then s.(saveDirty := true)
    else
      match writer
      case Absent => s
      case Throws => s.(saving := true)
      case Works => s.(saving := true, inFlight := s.inFlight + 1, lastWrite := Some(s.slots))
  }

  function Edited(s: Store, id: Id, val: Option<Val>): Store {
    if val.Some? then s.(slots := s.slots[id := Framed(val.value)], tombstones := s.tombstones - {id}, changed := true)
    else s.(slots := s.slots - {id}, tombstones := if s.load.Loaded? then s.tombstones else s.tombstones + {id}, changed := true)
  }

  function Apply(s: Store, st: Step): Store
    requires Enabled(s, st)
  {
    match st
    case StartLoad => if s.load.NotStarted? then s.(load := Fetching) else s
    case Merge(file) =>
      s.(load := MergeDone, tombstones := {}, slots := if file.Some? then Merged(file.value, s.slots, s.tombstones) else s.slots)
    case FetchFailed => s.(load := MergeDone)
    case FinishLoad => s.(load := Loaded)
    case Set(id, val, writer) =>
      if id == "" then s
      else
        var e := Edited(s, id, val);
        if s.load.Loaded? then Saved(e, writer)
        else e.(deferred := e.deferred + 1, load := if e.load.NotStarted? then Fetching else e.load)
    case RunDeferred(writer) => Saved(s.(deferred := s.deferred - 1), writer)
    case WriteSettled(writer) =>
      var s1 := s.(saving := false, inFlight := s.inFlight - 1);
      if s1.saveDirty then Saved(s1.(saveDirty := false), writer) else s1
    case Flush(writer) => if s.load.Loaded? && writer.Works? then s.(lastWrite := Some(s.slots)) else s
  }

  ghost predicate IsTrace(states: seq<Store>, steps: seq<Step>) {
    && |states| == |steps| + 1 && states[0] == EMPTY
    && forall i :: 0 <= i < |steps| ==> Enabled(states[i], steps[i]) && states[i + 1] == Apply(states[i], steps[i])
  }

  // ---------------------------------------------------------------- the module variables themselves

  class Sidecar {
    var slots: Slots
    var tombstones: set<Id>
    var load: Load
    var saving: bool
    var saveDirty: bool
    var deferred: nat
    ghost var lastWrite: Option<Slots>
    ghost var inFlight: nat
    ghost var changed: bool

    ghost function View(): Store
      reads this
    {
      Store(slots, tombstones, load, saving, saveDirty, deferred, lastWrite, inFlight, changed)
    }

    constructor ()
      ensures View() == EMPTY
    {
      slots, tombstones, load, saving, saveDirty, deferred := map[], {}, NotStarted, false, false, 0;
      lastWrite, inFlight, changed := None, 0, false;
    }

    /** The first continuation of the fetch: copy the file under the local entries, let framing-only
        entries take the file's image, then drop what was cleared. */
    method OnFetched(file: Option<Slots>)
      requires load.Fetching?
      modifies this
      ensures View() == Apply(old(View()), Merge(file))
    {
      if file.Some? {
        var merged := file.value + slots;
        var todo := slots.Keys;
        while todo != {}
          invariant todo <= slots.Keys && merged.Keys == file.value.Keys + slots.Keys
          invariant slots == old(slots) && tombstones == old(tombstones)
          invariant forall k :: k in merged ==>
            merged[k] == if k !in slots then file.value[k] else if k in todo then slots[k] else Inherited(slots[k], file.value, k)
          modifies {}
          decreases todo
        {
          var k :| k in todo;
          todo := todo - {k};
          var v := merged[k];
          if v.Framed? && v.val.u == "" && k in file.value && Truthy(file.value[k]) {
            merged := merged[k := Framed(v.val.(u := UrlOf(file.value[k])))];
          }
        }
        slots := merged - tombstones;
        assert slots == Merged(file.value, old(slots), tombstones);
      }
      tombstones := {};
      load := MergeDone;
    }

    /** `written` is the content handed to the host's writer, if any. */
    method Save(writer: Writer) returns (raised: bool, written: Option<Slots>)
      modifies this
      ensures View() == Saved(old(View()), writer)
      ensures raised <==> writer.Throws? && !old(saving)
      ensures written == (if !old(saving) && writer.Works? then Some(old(slots)) else None)
      ensures lastWrite == (if written.Some? then written else old(lastWrite)) && slots == old(slots)
    {
      raised, written := false, None;
      if saving { saveDirty := true; return; }
      if writer.Absent? { return; }
      saving := true;
      if writer.Throws? { raised := true; return; }
      written := Some(slots);
      inFlight, lastWrite := inFlight + 1, written;
    }

    method SetSlot(id: Id, val: Option<Val>, writer: Writer) returns (raised: bool)
      modifies this
      ensures View() == Apply(old(View()), Set(id, val, writer))
      ensures raised ==> id != "" && writer.Throws?
      ensures forall k :: k != id ==> (k in slots <==> k in old(slots)) && (k in slots ==> slots[k] == old(slots)[k])
      ensures id != "" ==> if val.Some? then id in slots && slots[id] == Framed(val.value) else id !in slots
    {
      raised := false;
      if id == "" { return; }
      changed := true;
      if val.Some? {
        slots := slots[id := Framed(val.value)];
        tombstones := tombstones - {id};
      } else {
        slots := slots - {id};
        if !load.Loaded? { tombstones := tombstones + {id}; }
      }
      if load.Loaded? {
        var threw, _ := Save(writer);
        raised := threw;
      } else {
        if load.NotStarted? { load := Fetching; }
        deferred := deferred + 1;
      }
    }

    method OnWriteSettled(writer: Writer)
      requires inFlight > 0
      modifies this
      ensures View() == Apply(old(View()), WriteSettled(writer))
    {
      saving := false;
      inFlight := inFlight - 1;
      if saveDirty {
        saveDirty := false;
        var _, _ := Save(writer);
      }
    }
  }

  // ---------------------------------------------------------------- hydration

  /** What the steps so far last did to an id: nothing, a value, or a clear. */
  datatype Last = Untouched | Gave(val: Val) | Cleared

  function Then(last: Last, st: Step, id: Id): Last {
    if st.Set? && st.id == id && id != "" then (if st.val.Some? then Gave(st.val.value) else Cleared) else last
  }

  function LastOf(steps: seq<Step>, id: Id): Last {
    if steps == [] then Untouched else Then(LastOf(steps[..|steps| - 1], id), steps[|steps| - 1], id)
  }

  /** Before the file arrives, memory holds exactly the local edits, and a tombstone marks a clear. */
  ghost predicate LocalOnly(s: Store, last: Last, id: Id) {
    match last
    case Untouched => id !in s.slots && id !in s.tombstones
    case Gave(v) => id in s.slots && s.slots[id] == Framed(v) && id !in s.tombstones
    case Cleared => id !in s.slots && id in s.tombstones
  }

  predicate Hydrated(s: Store) {
    s.load.MergeDone? || s.load.Loaded?
  }

  lemma LocalStep(s: Store, st: Step, last: Last, id: Id)
    requires LocalOnly(s, last, id) && !Hydrated(s) && Enabled(s, st) && !Hydrated(Apply(s, st))
    ensures LocalOnly(Apply(s, st), Then(last, st, id), id)
  {
  }

  lemma {:induction false} BeforeHydration(states: seq<Store>, steps: seq<Step>, i: nat, id: Id)
    requires IsTrace(states, steps) && i < |states| && !Hydrated(states[i])
    ensures LocalOnly(states[i], LastOf(steps[..i], id), id)
  {
    if i == 0 {
    } else {
      assert steps[..i][..i - 1] == steps[..i - 1];
      if Hydrated(states[i - 1]) { HydratedStays(states, steps, i - 1, i); }
      BeforeHydration(states, steps, i - 1, id);
      LocalStep(states[i - 1], steps[i - 1], LastOf(steps[..i - 1], id), id);
    }
  }

  /** When the file arrives: an id given a value locally keeps it, taking the file's image only if it
      carried framing alone; a cleared id stays absent; any other id takes the file's value. */
  lemma HydrationKeepsLocalEdits(states: seq<Store>, steps: seq<Step>, i: nat, file: Slots, id: Id)
    requires IsTrace(states, steps) && i < |steps| && steps[i] == Merge(Some(file))
    ensures var after := states[i + 1].slots;
            match LastOf(steps[..i], id)
            case Untouched => (id in after <==> id in file) && (id in file ==> after[id] == file[id])
            case Gave(v) =>
              && id in after
              && after[id] == Framed(if v.u != "" || id !in file then v
                                     else match file[id]
                                          case Bare(url) => v.(u := url)
                                          case Framed(stored) => v.(u := stored.u)
                                          case Junk => v)
            case Cleared => id !in after
  {
    BeforeHydration(states, steps, i, id);
  }

  /** What a store holds for an id, None when it holds nothing. */
  function Holding(slots: Slots, id: Id): Option<Stored> {
    if id in slots then Some(slots[id]) else None
  }

  /** What an id holds after these steps, from what it held before them: the last edit decides. */
  function Edits(held: Option<Stored>, steps: seq<Step>, id: Id): Option<Stored> {
    match LastOf(steps, id)
    case Untouched => held
    case Gave(v) => Some(Framed(v))
    case Cleared => None
  }

  lemma EditsSnoc(held: Option<Stored>, steps: seq<Step>, st: Step, id: Id)
    ensures Edits(held, steps + [st], id) ==
            if st.Set? && st.id == id && id != "" then (if st.val.Some? then Some(Framed(st.val.value)) else None) else Edits(held, steps, id)
  {
    assert (steps + [st])[..|steps|] == steps;
  }

  lemma EditStep(s: Store, st: Step, id: Id)
    requires Enabled(s, st) && !st.Merge?
    ensures Holding(Apply(s, st).slots, id) ==
            if st.Set? && st.id == id && id != "" then (if st.val.Some? then Some(Framed(st.val.value)) else None) else Holding(s.slots, id)
  {
  }

  /** From any moment on with no merge ahead, an id holds what its last edit since gave it, nothing once
      it was cleared, and what it held then if it was not edited. */
  lemma {:induction false} LastEditDecides(states: seq<Store>, steps: seq<Step>, i: nat, j: nat, id: Id)
    requires IsTrace(states, steps) && i <= j < |states| && forall k :: i <= k < j ==> !steps[k].Merge?
    ensures Holding(states[j].slots, id) == Edits(Holding(states[i].slots, id), steps[i..j], id)
  {
    if i == j {
      assert steps[i..j] == [];
    } else {
      LastEditDecides(states, steps, i, j - 1, id);
      assert steps[i..j] == steps[i..j - 1] + [steps[j - 1]];
      EditsSnoc(Holding(states[i].slots, id), steps[i..j - 1], steps[j - 1], id);
      EditStep(states[j - 1], steps[j - 1], id);
    }
  }

  /** After the load, for good: over the file's arrival or failure, every id holds what its last edit
      since gave it, and else what the load left. A load without a file leaves the local edits. */
  lemma EditsAfterLoad(states: seq<Store>, steps: seq<Step>, i: nat, j: nat, id: Id)
    requires IsTrace(states, steps) && i < j < |states| && (steps[i].Merge? || steps[i].FetchFailed?)
    ensures Holding(states[j].slots, id) == Edits(Holding(states[i + 1].slots, id), steps[i + 1..j], id)
    ensures steps[i] == Merge(None) || steps[i].FetchFailed? ==> Holding(states[i + 1].slots, id) == Edits(None, steps[..i], id)
  {
    forall k | i + 1 <= k < j ensures !steps[k].Merge? {
      if steps[k].Merge? { MergedOnce(states, steps, i, k); }
    }
    LastEditDecides(states, steps, i + 1, j, id);
    BeforeHydration(states, steps, i, id);
  }

  lemma {:induction false} HydratedStays(states: seq<Store>, steps: seq<Step>, i: nat, j: nat)
    requires IsTrace(states, steps) && i <= j < |states| && Hydrated(states[i])
    ensures Hydrated(states[j])
  {
    if i == j {
    } else {
      HydratedStays(states, steps, i, j - 1);
      OnceHydrated(states[j - 1], steps[j - 1]);
    }
  }

  lemma OnceHydrated(s: Store, st: Step)
    requires Hydrated(s) && Enabled(s, st)
    ensures Hydrated(Apply(s, st)) && !st.Merge? && !st.FetchFailed?
  {
  }

  /** The file is merged in at most once, and never after a failed fetch. */
  lemma MergedOnce(states: seq<Store>, steps: seq<Step>, i: nat, j: nat)
    requires IsTrace(states, steps) && i < |steps| && j < |steps|
    requires (steps[i].Merge? || steps[i].FetchFailed?) && (steps[j].Merge? || steps[j].FetchFailed?)
    ensures i == j
  {
    if i < j { HydratedStays(states, steps, i + 1, j); }
    if j < i { HydratedStays(states, steps, j + 1, i); }
  }

  // ---------------------------------------------------------------- writing back

  ghost predicate WritesOk(s: Store) {
    && s.inFlight <= 1 && (s.inFlight == 1 ==> s.saving)
    && (s.saveDirty ==> s.saving && s.changed)
    && (s.deferred > 0 ==> s.changed)
    && (!s.load.Loaded? ==> !s.saving && (s.changed ==> s.deferred > 0))
    && (s.inFlight == 1 && !s.saveDirty && s.deferred == 0 ==> s.lastWrite == Some(s.slots))
  }

  lemma WritesStep(s: Store, st: Step)
    requires WritesOk(s) && Enabled(s, st)
    ensures WritesOk(Apply(s, st))
  {
  }

  lemma {:induction false} WritesAlways(states: seq<Store>, steps: seq<Step>, i: nat)
    requires IsTrace(states, steps) && i < |states|
    ensures WritesOk(states[i])
  {
    if i == 0 {
    } else {
      WritesAlways(states, steps, i - 1);
      WritesStep(states[i - 1], steps[i - 1]);
    }
  }

  /** An edit is lost on disk: nothing is in flight or put off, and the last write issued is not what
      memory holds. */
  predicate Stale(s: Store) {
    s.changed && s.inFlight == 0 && s.deferred == 0 && s.lastWrite != Some(s.slots)
  }

  function SlotsAfter(s: Store, st: Step): Slots {
    if st.Set? then Edited(s, st.id, st.val).slots else s.slots
  }

  /** The step saves, and its save neither writes nor leaves a write to follow: the writer is absent or
      throws, or an earlier one threw and left the saving flag up. */
  predicate SaveFails(s: Store, st: Step) {
    match st
    case Set(id, _, writer) => id != "" && s.load.Loaded? && if s.saving then s.inFlight == 0 else !writer.Works?
    case RunDeferred(writer) => if s.saving then s.inFlight == 0 else !writer.Works?
    case WriteSettled(writer) => s.saveDirty && !writer.Works?
    case _ => false
  }

  predicate Breaks(s: Store, st: Step) {
    SaveFails(s, st) && s.deferred == (if st.RunDeferred? then 1 else 0) && s.lastWrite != Some(SlotsAfter(s, st))
  }

  /** A flush, a save that does write, or an edit back to what was written. */
  predicate Heals(s: Store, st: Step) {
    match st
    case Flush(writer) => writer.Works?
    case Set(id, _, writer) => id != "" && ((!s.saving && writer.Works?) || s.lastWrite == Some(SlotsAfter(s, st)))
    case _ => false
  }

  lemma StaleStep(s: Store, st: Step)
    requires WritesOk(s) && Enabled(s, st)
    ensures Stale(Apply(s, st)) <==> if Stale(s) then !Heals(s, st) else Breaks(s, st)
    ensures Breaks(s, st) ==> Stale(Apply(s, st))
  {
  }

  ghost function Breaking(states: seq<Store>, steps: seq<Step>): seq<bool>
    requires |states| == |steps| + 1
  {
    seq(|steps|, k requires 0 <= k < |steps| => Breaks(states[k], steps[k]))
  }

  ghost function Healing(states: seq<Store>, steps: seq<Step>): seq<bool>
    requires |states| == |steps| + 1
  {
    seq(|steps|, k requires 0 <= k < |steps| => Heals(states[k], steps[k]))
  }

  /** At most one save is in flight; and whenever something was edited and none is in flight or put
      off, the last write issued is what memory holds if and only if no save failed, with memory
      unlike the last write, without a healing step since. */
  lemma LastWriteIsCurrent(states: seq<Store>, steps: seq<Step>, i: nat)
    requires IsTrace(states, steps) && i < |states|
    ensures states[i].inFlight <= 1
    ensures Stale(states[i]) <==> SetSince(Breaking(states, steps), Healing(states, steps), i)
    ensures states[i].changed && states[i].inFlight == 0 && states[i].deferred == 0 ==>
              (states[i].lastWrite == Some(states[i].slots) <==> !SetSince(Breaking(states, steps), Healing(states, steps), i))
  {
    WritesAlways(states, steps, i);
    var on := seq(|states|, k requires 0 <= k < |states| => Stale(states[k]));
    var sets, clears := Breaking(states, steps), Healing(states, steps);
    forall k | 0 <= k < |steps|
      ensures (sets[k] ==> on[k + 1]) && (on[k + 1] <==> if on[k] then !clears[k] else sets[k])
    {
      WritesAlways(states, steps, k);
      StaleStep(states[k], steps[k]);
    }
    HeldSinceSet(on, sets, clears, i);
  }

  /** So once loaded, quiet and not broken, the file was last given, for every id, what its last edit
      made of what the load left. */
  lemma FileHoldsTheEdits(states: seq<Store>, steps: seq<Step>, i: nat, j: nat, id: Id)
    requires IsTrace(states, steps) && i < j < |states| && (steps[i].Merge? || steps[i].FetchFailed?)
    requires states[j].changed && states[j].inFlight == 0 && states[j].deferred == 0
    requires !SetSince(Breaking(states, steps), Healing(states, steps), j)
    ensures states[j].lastWrite.Some?
    ensures Holding(states[j].lastWrite.value, id) == Edits(Holding(states[i + 1].slots, id), steps[i + 1..j], id)
  {
    LastWriteIsCurrent(states, steps, j);
    EditsAfterLoad(states, steps, i, j, id);
  }

  // ---------------------------------------------------------------- a writer that throws

  /** The saving flag is up and no write is there to take it down. */
  predicate Jammed(s: Store) {
    s.saving && s.inFlight == 0
  }

  /** An idle save called a writer that threw. */
  predicate Jams(s: Store, st: Step) {
    match st
    case Set(id, _, writer) => id != "" && s.load.Loaded? && !s.saving && writer.Throws?
    case RunDeferred(writer) => !s.saving && writer.Throws?
    case WriteSettled(writer) => s.saveDirty && writer.Throws?
    case _ => false
  }

  lemma JamStep(s: Store, st: Step)
    requires WritesOk(s) && Enabled(s, st)
    ensures Jammed(Apply(s, st)) <==> Jammed(s) || Jams(s, st)
    ensures Jammed(s) && !st.Flush? ==> Apply(s, st).lastWrite == s.lastWrite
  {
  }

  /** One throw is for good: from then on no save of any edit writes anything, whatever the writer
      does; only a flush does. */
  lemma {:induction false} JammedForGood(states: seq<Store>, steps: seq<Step>, i: nat, j: nat)
    requires IsTrace(states, steps) && i <= j < |states| && Jammed(states[i])
    ensures Jammed(states[j])
    ensures (forall k :: i <= k < j ==> !steps[k].Flush?) ==> states[j].lastWrite == states[i].lastWrite
  {
    if i == j {
    } else {
      JammedForGood(states, steps, i, j - 1);
      WritesAlways(states, steps, j - 1);
      JamStep(states[j - 1], steps[j - 1]);
    }
  }

  // ---------------------------------------------------------------- both happen

  lemma Extend(states: seq<Store>, steps: seq<Step>, st: Step)
    requires IsTrace(states, steps) && Enabled(states[|steps|], st)
    ensures IsTrace(states + [Apply(states[|steps|], st)], steps + [st])
  {
    var ss, ts := states + [Apply(states[|steps|], st)], steps + [st];
    forall i | 0 <= i < |ts| ensures Enabled(ss[i], ts[i]) && ss[i + 1] == Apply(ss[i], ts[i]) {
      if i < |steps| {
        assert ss[i] == states[i] && ss[i + 1] == states[i + 1] && ts[i] == steps[i];
      }
    }
  }

  /** A trace that loads an empty file and then makes these edits. */
  lemma {:induction false} LoadThenEdit(edits: seq<Step>) returns (states: seq<Store>, steps: seq<Step>)
    requires forall k :: 0 <= k < |edits| ==> edits[k].Set?
    ensures IsTrace(states, steps) && steps == [StartLoad, Merge(None), FinishLoad] + edits
    ensures states[3] == EMPTY.(load := Loaded)
  {
    if edits == [] {
      var s1 := Apply(EMPTY, StartLoad);
      var s2 := Apply(s1, Merge(None));
      states, steps := [EMPTY, s1, s2, Apply(s2, FinishLoad)], [StartLoad, Merge(None), FinishLoad];
    } else {
      var last := edits[|edits| - 1];
      states, steps := LoadThenEdit(edits[..|edits| - 1]);
      Extend(states, steps, last);
      states, steps := states + [Apply(states[|steps|], last)], steps + [last];
    }
  }

  /** An edit made before the host's writer is there is not written: no save is put off for it. */
  lemma AbsentWriterLosesEdit(id: Id, val: Val) returns (states: seq<Store>, steps: seq<Step>)
    requires id != ""
    ensures IsTrace(states, steps) && steps == [StartLoad, Merge(None), FinishLoad, Set(id, Some(val), Absent)]
    ensures Stale(states[4])
  {
    states, steps := LoadThenEdit([Set(id, Some(val), Absent)]);
    assert states[4] == Apply(states[3], steps[3]);
  }

  /** After one throw an edit is not written even though the writer works again. */
  lemma ThrowingWriterLosesLaterEdits(id: Id, val: Val) returns (states: seq<Store>, steps: seq<Step>)
    requires id != ""
    ensures IsTrace(states, steps)
    ensures steps == [StartLoad, Merge(None), FinishLoad, Set(id, None, Throws), Set(id, Some(val), Works)]
    ensures Jammed(states[4]) && Stale(states[5])
  {
    states, steps := LoadThenEdit([Set(id, None, Throws), Set(id, Some(val), Works)]);
    assert states[4] == Apply(states[3], steps[3]) && states[5] == Apply(states[4], steps[4]);
  }
}
