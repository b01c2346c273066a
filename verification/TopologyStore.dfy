/** The two files that hold the layout and the inventory, updated under a revision check. */
module TopologyStoring {
  import opened MachineInts
  import opened Wrappers
  import opened ScreenModel
  import opened LayoutModel
  import opened LayoutProperties

  // A topology file holds a layout, or a whole topology in the old format.
  datatype TopologyFile =
    | NoTopology
    | LayoutFile(layout: ScreenLayout)
    | LegacyFile(topology: ScreenTopology)
    | BadTopology

  datatype InventoryFile =
    | NoInventory
    | SavedInventory(inventory: ScreenInventory)
    | BadInventory

  datatype Files = Files(topology: TopologyFile, inventory: InventoryFile)

  datatype TopologyState = TopologyState(layout: ScreenLayout, inventory: ScreenInventory)

  datatype StoreError =
    | Undecodable
    | BadLayout(error: LayoutError)
    | InvalidLegacy(fault: TopologyFault)
    | StaleRevision(expected: U64, current: U64)
    | WriteFailed

  // A write replaces its file as a whole. It may not happen, or happen without being confirmed.
  datatype WriteOutcome = Lost | Unconfirmed | Done

  // ---------- Loading ----------

  function LoadState(f: Files): Result<TopologyState, StoreError> {
    if f.inventory.BadInventory? then Failure(Undecodable)
    else
      var cached := if f.inventory.SavedInventory? then f.inventory.inventory else [];
      match f.topology
      case NoTopology => Success(TopologyState(DEFAULT_LAYOUT, cached))
      case BadTopology => Failure(Undecodable)
      case LayoutFile(layout) =>
        var error := CheckLayout(layout, cached);
        if error.Some? then Failure(BadLayout(error.value)) else Success(TopologyState(layout, cached))
      case LegacyFile(t) =>
        var fault := CheckTopology(t);
        if fault.Some? then Failure(InvalidLegacy(fault.value))
        else
          var error := CheckLayout(FromTopology(t), InventoryOf(t));
          if error.Some? then Failure(BadLayout(error.value))
          else Success(TopologyState(FromTopology(t), InventoryOf(t)))
  }

  predicate Accepts(f: Files) {
    LoadState(f).Success?
  }

  // ---------- Writing ----------

  function WithInventory(f: Files, inv: ScreenInventory, w: WriteOutcome): Files {
    if w.Lost? then f else f.(inventory := SavedInventory(inv))
  }

  function WithLayout(f: Files, l: ScreenLayout, w: WriteOutcome): Files {
    if w.Lost? then f else f.(topology := LayoutFile(l))
  }

  function Saved(f: Files, inv: ScreenInventory, w: WriteOutcome): (Files, Option<StoreError>) {
    var error := CheckInventory(inv);
    if error.Some? then (f, Some(BadLayout(error.value)))
    else (WithInventory(f, inv, w), if w.Done? then None else Some(WriteFailed))
  }

  // The inventory is written first, the layout only once that has been confirmed.
  function Committed(f: Files, l: ScreenLayout, inv: ScreenInventory, w1: WriteOutcome, w2: WriteOutcome)
    : (Files, Option<StoreError>)
  {
    var (f1, error) := Saved(f, inv, w1);
    if error.Some? then (f1, error)
    else (WithLayout(f1, l, w2), if w2.Done? then None else Some(WriteFailed))
  }

  function Applied(f: Files, expected: U64, inv: ScreenInventory, c: LayoutCommand, w1: WriteOutcome, w2: WriteOutcome)
    : (Files, Result<ScreenTopology, StoreError>)
  {
    var state := LoadState(f);
    if state.Failure? then (f, Failure(state.error))
    else if state.value.layout.revision != expected then (f,
        Failure(StaleRevision(expected, state.value.layout.revision)))
    else
      var next := Apply(state.value.layout, inv, c);
      if next.Failure? then (f, Failure(BadLayout(next.error)))
      else
        var (f', error) := Committed(f, next.value, inv, w1, w2);
        if error.Some? then (f', Failure(error.value))
        else
          var t := Resolve(next.value, inv);
          (f', if t.Failure? then Failure(BadLayout(t.error)) else Success(t.value))
  }

  function ReplacedBy(f: Files, expected: U64, t: ScreenTopology, w1: WriteOutcome, w2: WriteOutcome)
    : (Files, Result<ScreenTopology, StoreError>)
  {
    var fault := CheckTopology(t);
    var state := LoadState(f);
    if fault.Some? then (f, Failure(InvalidLegacy(fault.value)))
    else if state.Failure? then (f, Failure(state.error))
    else if state.value.layout.revision != expected then (f,
        Failure(StaleRevision(expected, state.value.layout.revision)))
    else
      var t' := t.(revision := SatAddU64(expected, 1));
      var error := CheckLayout(FromTopology(t'), InventoryOf(t'));
      if error.Some? then (f, Failure(BadLayout(error.value)))
      else
        var (f', failed) := Committed(f, FromTopology(t'), InventoryOf(t'), w1, w2);
        (f', if failed.Some? then Failure(failed.value) else Success(t'))
  }

  // ---------- The store as an object ----------

  class TopologyStore {
    var files: Files

    constructor (f: Files)
      ensures files == f
    {
      files := f;
    }

    method Load() returns (r: Result<TopologyState, StoreError>)
      ensures r == LoadState(files)
    {
      if files.inventory.BadInventory? {
        return Failure(Undecodable);
      }
      var cached := if files.inventory.SavedInventory? then files.inventory.inventory else [];
      match files.topology {
        case NoTopology =>
          return Success(TopologyState(DEFAULT_LAYOUT, cached));
        case BadTopology =>
          return Failure(Undecodable);
        case LayoutFile(layout) =>
          var error := ValidateLayout(layout, cached);
          if error.Some? {
            return Failure(BadLayout(error.value));
          }
          return Success(TopologyState(layout, cached));
        case LegacyFile(t) =>
          var fault := ValidateTopology(t);
          if fault.Some? {
            return Failure(InvalidLegacy(fault.value));
          }
          var error := ValidateLayout(FromTopology(t), InventoryOf(t));
          if error.Some? {
            return Failure(BadLayout(error.value));
          }
          return Success(TopologyState(FromTopology(t), InventoryOf(t)));
      }
    }

    method SaveInventory(inv: ScreenInventory, w: WriteOutcome) returns (error: Option<StoreError>)
      modifies this
      ensures (files, error) == Saved(old(files), inv, w)
    {
      var invalid := ValidateInventory(inv);
      if invalid.Some? {
        return Some(BadLayout(invalid.value));
      }
      files := WithInventory(files, inv, w);
      error := if w.Done? then None else Some(WriteFailed);
    }

    method WriteLayout(l: ScreenLayout, w: WriteOutcome) returns (error: Option<StoreError>)
      modifies this
      ensures files == WithLayout(old(files), l, w) && error == if w.Done? then None else Some(WriteFailed)
    {
      files := WithLayout(files, l, w);
      error := if w.Done? then None else Some(WriteFailed);
    }

    method Apply(expected: U64, inv: ScreenInventory, c: LayoutCommand, w1: WriteOutcome, w2: WriteOutcome)
      returns (r: Result<ScreenTopology, StoreError>)
      modifies this
      ensures (files, r) == Applied(old(files), expected, inv, c, w1, w2)
    {
      var state := Load();
      if state.Failure? {
        return Failure(state.error);
      }
      if state.value.layout.revision != expected {
        return Failure(StaleRevision(expected, state.value.layout.revision));
      }
      var next := LayoutModel.Apply(state.value.layout, inv, c);
      if next.Failure? {
        return Failure(BadLayout(next.error));
      }
      var error := SaveInventory(inv, w1);
      if error.Some? {
        return Failure(error.value);
      }
      error := WriteLayout(next.value, w2);
      if error.Some? {
        return Failure(error.value);
      }
      var t := Resolve(next.value, inv);
      return if t.Failure? then Failure(BadLayout(t.error)) else Success(t.value);
    }

    method Replace(expected: U64, t: ScreenTopology, w1: WriteOutcome, w2: WriteOutcome)
      returns (r: Result<ScreenTopology, StoreError>)
      modifies this
      ensures (files, r) == ReplacedBy(old(files), expected, t, w1, w2)
    {
      var fault := ValidateTopology(t);
      if fault.Some? {
        return Failure(InvalidLegacy(fault.value));
      }
      var state := Load();
      if state.Failure? {
        return Failure(state.error);
      }
      if state.value.layout.revision != expected {
        return Failure(StaleRevision(expected, state.value.layout.revision));
      }
      var t' := t.(revision := SatAddU64(state.value.layout.revision, 1));
      var invalid := ValidateLayout(FromTopology(t'), InventoryOf(t'));
      if invalid.Some? {
        return Failure(BadLayout(invalid.value));
      }
      var error := SaveInventory(InventoryOf(t'), w1);
      if error.Some? {
        return Failure(error.value);
      }
      error := WriteLayout(FromTopology(t'), w2);
      return if error.Some? then Failure(error.value) else Success(t');
    }
  }

  // ---------- Crashes ----------

  lemma LoadExact(f: Files)
    ensures Accepts(f) <==>
              && !f.inventory.BadInventory?
              && match f.topology
                 case NoTopology => true
                 case BadTopology => false
                 case LayoutFile(l) => ValidLayout(l, if f.inventory.SavedInventory? then f.inventory.inventory else [])
                 case LegacyFile(t) => ValidTopology(t)
  {
    if f.topology.LayoutFile? {
      CheckLayoutExact(f.topology.layout, if f.inventory.SavedInventory? then f.inventory.inventory else []);
    } else if f.topology.LegacyFile? {
      var t := f.topology.topology;
      CheckTopologyExact(t);
      CheckLayoutExact(FromTopology(t), InventoryOf(t));
      if ValidTopology(t) {
        SplitThenResolve(t);
      }
    }
    hide ValidLayout, ValidTopology, CheckLayout, CheckTopology;
  }

  /** Wherever `apply` is stopped, before, between or after its two writes, confirmed or not, the files
      it leaves can still be loaded. */
  lemma ApplyIsCrashSafe(f: Files, expected: U64, inv: ScreenInventory,
                         c: LayoutCommand, w1: WriteOutcome, w2: WriteOutcome)
    requires Accepts(f)
    ensures Accepts(Applied(f, expected, inv, c, w1, w2).0)
  {
    var f' := Applied(f, expected, inv, c, w1, w2).0;
    var layout := LoadState(f).value.layout;
    LoadExact(f);
    LoadExact(f');
    ApplyExact(layout, inv, c);
    hide Accepts, ValidLayout, Apply, CheckLayout, ValidTopology, CheckInventory;
  }

  /** `replace` does not check the old layout against the new inventory: stopped between its writes, it
      leaves files that load exactly if that check would have passed. */
  lemma ReplaceCrashExact(f: Files, expected: U64, t: ScreenTopology, w1: WriteOutcome, w2: WriteOutcome)
    requires Accepts(f) && ValidTopology(t) && LoadState(f).value.layout.revision == expected
    requires !w1.Lost? && (w1.Unconfirmed? || w2.Lost?)
    ensures Accepts(ReplacedBy(f, expected, t, w1, w2).0) <==>
              (f.topology.LayoutFile? ==> ValidLayout(f.topology.layout, InventoryOf(t)))
  {
    var t' := t.(revision := SatAddU64(expected, 1));
    var f' := ReplacedBy(f, expected, t, w1, w2).0;
    ReplacePasses(f, expected, t);
    LoadExact(f);
    LoadExact(f');
    assert InventoryOf(t') == InventoryOf(t);
    hide Accepts, ValidLayout, CheckLayout, ValidTopology, CheckInventory, CheckTopology, LoadState;
  }

  // A valid topology passes the checks of `replace`.
  lemma ReplacePasses(f: Files, expected: U64, t: ScreenTopology)
    requires ValidTopology(t)
    ensures var t' := t.(revision := SatAddU64(expected, 1));
            && CheckTopology(t).None? && CheckLayout(FromTopology(t'), InventoryOf(t')).None?
            && CheckInventory(InventoryOf(t')).None?
  {
    var t' := t.(revision := SatAddU64(expected, 1));
    CheckTopologyExact(t);
    SplitThenResolve(t');
    CheckLayoutExact(FromTopology(t'), InventoryOf(t'));
    hide ValidTopology, ValidLayout;
  }

  // The witness: replacing a linked pair of screens by no screens at all.
  lemma ReplaceCanStrandTheStore()
    ensures exists f: Files, t: ScreenTopology ::
              Accepts(f) && ValidTopology(t) && !Accepts(ReplacedBy(f, 0, t, Done, Lost).0)
  {
    var size: ScreenSize := Dimensions(1, 1);
    var screen := ScreenDescriptor("a", "a", "a", "a", size, true, true, true);
    var f := Files(LayoutFile(DEFAULT_LAYOUT.(sizeOverrides := [SizeOverride("a", size)])), SavedInventory([screen]));
    var t := ScreenTopology(0, [], []);
    LoadExact(f);
    assert InventoryIds([screen])[0] == "a";
    assert !Blank("a") by { assert !IsWhitespace("a"[0]); }
    ReplaceCrashExact(f, 0, t, Done, Lost);
    assert f.topology.layout.sizeOverrides[0].screenId !in KnownIds(InventoryOf(t));
  }

  // ---------- Compare and swap ----------

  datatype StoreEvent =
    | ApplyCommand(expected: U64, inventory: ScreenInventory, command: LayoutCommand, w1: WriteOutcome,
        w2: WriteOutcome)
    | ReplaceTopology(expected: U64, topology: ScreenTopology, w1: WriteOutcome, w2: WriteOutcome)
    | SaveInventory(inventory: ScreenInventory, w: WriteOutcome)

  function After(f: Files, ev: StoreEvent): Files {
    match ev
    case ApplyCommand(expected, inv, c, w1, w2) => Applied(f, expected, inv, c, w1, w2).0
    case ReplaceTopology(expected, t, w1, w2) => ReplacedBy(f, expected, t, w1, w2).0
    case SaveInventory(inv, w) => Saved(f, inv, w).0
  }

  function FilesAt(f: Files, evs: seq<StoreEvent>, n: nat): Files
    requires n <= |evs|
  {
    if n == 0 then f else After(FilesAt(f, evs, n - 1), evs[n - 1])
  }

  function Revision(f: Files): U64 {
    match f.topology
    case LayoutFile(l) => l.revision
    case LegacyFile(t) => t.revision
    case _ => 0
  }

  // The event reached the point of writing the layout: it took effect, whatever it then reported.
  predicate TakesEffect(f: Files, ev: StoreEvent) {
    match ev
    case ApplyCommand(expected, inv, c, w1, w2) =>
      && Accepts(f) && LoadState(f).value.layout.revision == expected
      && Apply(LoadState(f).value.layout, inv, c).Success? && CheckInventory(inv).None? && w1.Done? && !w2.Lost?
    case ReplaceTopology(expected, t, w1, w2) =>
      && Accepts(f) && LoadState(f).value.layout.revision == expected
      && CheckTopology(t).None? && w1.Done? && !w2.Lost?
    case SaveInventory(_, _) => false
  }

  lemma LoadedRevision(f: Files)
    requires Accepts(f)
    ensures LoadState(f).value.layout.revision == Revision(f)
  {
  }

  /** An event that takes effect names the current revision and raises it by one, unless it is already
      the largest there is; any other event leaves the revision alone. */
  lemma RevisionStep(f: Files, ev: StoreEvent)
    ensures TakesEffect(f, ev) ==>
              && !ev.SaveInventory? && ev.expected == Revision(f)
              && Revision(After(f, ev)) == SatAddU64(Revision(f), 1)
    ensures !TakesEffect(f, ev) ==> Revision(After(f, ev)) == Revision(f)
  {
    if Accepts(f) {
      LoadedRevision(f);
      match ev
      case ApplyCommand(expected, inv, c, _, _) => ApplyExact(LoadState(f).value.layout, inv, c);
      case ReplaceTopology(expected, t, _, _) =>
        CheckTopologyExact(t);
        if ValidTopology(t) {
          ReplacePasses(f, expected, t);
        }
      case SaveInventory(_, _) =>
    }
    hide LoadState, Apply, CheckLayout, CheckInventory, CheckTopology, ValidLayout, ValidTopology, InventoryOf;
  }

  lemma {:induction false} RevisionsGrow(f: Files, evs: seq<StoreEvent>, m: nat, n: nat)
    requires m <= n <= |evs|
    ensures Revision(FilesAt(f, evs, m)) <= Revision(FilesAt(f, evs, n))
  {
    hide TakesEffect, After, Revision;
    if m < n {
      RevisionsGrow(f, evs, m, n - 1);
      RevisionStep(FilesAt(f, evs, n - 1), evs[n - 1]);
    }
  }

  /** Compare and swap: below the largest revision, two events of a run that both take effect name
      different revisions, the later one the larger. */
  lemma OneCommitPerRevision(f: Files, evs: seq<StoreEvent>, i: nat, j: nat)
    requires i < j < |evs|
    requires TakesEffect(FilesAt(f, evs, i), evs[i]) && TakesEffect(FilesAt(f, evs, j), evs[j])
    requires Revision(FilesAt(f, evs, i)) < U64_MAX
    ensures evs[i].expected < evs[j].expected
  {
    hide TakesEffect, After, Revision;
    RevisionStep(FilesAt(f, evs, i), evs[i]);
    RevisionStep(FilesAt(f, evs, j), evs[j]);
    RevisionsGrow(f, evs, i + 1, j);
  }

  /** At the largest revision the check no longer tells writers apart: a command that applied once
      applies again under the same expected revision. */
  lemma PinnedRevisionRepeats(l: ScreenLayout, inv: ScreenInventory, id: ScreenId)
    requires ValidLayout(l, inv) && l.revision == U64_MAX && id in KnownIds(inv)
    ensures var f := Files(LayoutFile(l), SavedInventory(inv));
            var ev := ApplyCommand(U64_MAX, inv, SetSizeOverride(id, None), Done, Done);
            TakesEffect(f, ev) && TakesEffect(After(f, ev), ev)
  {
    var f, c := Files(LayoutFile(l), SavedInventory(inv)), SetSizeOverride(id, None);
    var ev := ApplyCommand(U64_MAX, inv, c, Done, Done);
    LoadExact(f);
    ApplyExact(l, inv, c);
    CheckIdsExact(InventoryIds(inv), {});
    assert TakesEffect(f, ev);
    var l' := Apply(l, inv, c).value;
    assert After(f, ev) == Files(LayoutFile(l'), SavedInventory(inv));
    LoadExact(After(f, ev));
    ApplyExact(l', inv, c);
    hide Apply, ValidLayout, CheckLayout;
  }

  // ---------- Round trips through the store ----------

  /** What `apply` and `replace` return is what is loaded afterwards, and an old-format file loads as
      the topology it holds. */
  lemma ReturnedIsLoaded(f: Files, ev: StoreEvent)
    requires !ev.SaveInventory?
    ensures var (f', r) := if ev.ApplyCommand? then Applied(f, ev.expected, ev.inventory, ev.command, ev.w1, ev.w2)
                           else ReplacedBy(f, ev.expected, ev.topology, ev.w1, ev.w2);
            r.Success? ==>
              Accepts(f') && Resolve(LoadState(f').value.layout, LoadState(f').value.inventory) == Success(r.value)
  {
    if ev.ReplaceTopology? {
      CheckTopologyExact(ev.topology);
      if ValidTopology(ev.topology) {
        SplitThenResolve(ev.topology.(revision := SatAddU64(ev.expected, 1)));
      }
    }
    hide CheckLayout, CheckTopology, ValidTopology, ValidLayout, Apply;
  }

  lemma LegacyFileLoadsAsItself(t: ScreenTopology, inventory: InventoryFile)
    requires ValidTopology(t) && !inventory.BadInventory?
    ensures var f := Files(LegacyFile(t), inventory);
            Accepts(f) && Resolve(LoadState(f).value.layout, LoadState(f).value.inventory) == Success(t)
  {
    LoadExact(Files(LegacyFile(t), inventory));
    SplitThenResolve(t);
  }
}
