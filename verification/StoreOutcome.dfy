/** What the store holds and reports after each operation. */
module StoreOutcomes {
  import opened MachineInts
  import opened Wrappers
  import opened ScreenModel
  import opened LayoutModel
  import opened LayoutProperties
  import opened TopologyStoring

  // The inventory on file, or none.
  function Cached(f: Files): ScreenInventory {
    match f.inventory
    case SavedInventory(inv) => inv
    case _ => []
  }

  /** What is loaded: the layout on file over the saved inventory, an empty layout over it if there is none, and
      for an old-format file the links, sizes and screens it holds, this device's screens taken as primary. */
  lemma LoadedExactly(f: Files)
    requires Accepts(f)
    ensures var state := LoadState(f).value;
            match f.topology
            case NoTopology => state == TopologyState(ScreenLayout(1, 0, [], []), Cached(f))
            case BadTopology => false
            case LayoutFile(l) => state == TopologyState(l, Cached(f))
            case LegacyFile(t) =>
              && Resolve(state.layout, state.inventory) == Success(t)
              && |state.inventory| == |t.screens|
              && forall i | 0 <= i < |t.screens| ::
                   state.inventory[i].primary == t.screens[i].thisDevice
                   && state.inventory[i].logicalSize == t.screens[i].logicalSize
  {
    if f.topology.LegacyFile? {
      CheckTopologyExact(f.topology.topology);
      SplitThenResolve(f.topology.topology);
    }
    hide CheckLayout, CheckTopology, ValidTopology, ValidLayout, Resolve;
  }

  /** An edit that takes effect leaves on file exactly what the command makes of the layout, over the inventory
      given; and a replacement, the topology given, one revision up. */
  lemma EffectExact(f: Files, ev: StoreEvent)
    requires TakesEffect(f, ev)
    ensures Accepts(After(f, ev))
    ensures ev.ApplyCommand? ==>
              LoadState(After(f, ev)).value
              == TopologyState(Apply(LoadState(f).value.layout, ev.inventory, ev.command).value, ev.inventory)
    ensures ev.ReplaceTopology? ==>
              var state := LoadState(After(f, ev)).value;
              Resolve(state.layout, state.inventory)
              == Success(ev.topology.(revision := if ev.expected < U64_MAX then ev.expected + 1 else U64_MAX))
  {
    hide LoadState, Apply, Resolve, After, CheckInventory, CheckTopology, InventoryOf, FromTopology;
    match ev
    case ApplyCommand(_, inv, c, _, _) => AppliedIsLoaded(f, ev);
    case ReplaceTopology(_, t, _, _) => ReplacedIsLoaded(f, ev);
  }

  lemma AppliedIsLoaded(f: Files, ev: StoreEvent)
    requires ev.ApplyCommand? && TakesEffect(f, ev)
    ensures LoadState(After(f, ev))
            == Success(TopologyState(Apply(LoadState(f).value.layout, ev.inventory, ev.command).value, ev.inventory))
  {
    hide Apply, CheckLayout, CheckInventory, ValidLayout;
    var l := Apply(LoadState(f).value.layout, ev.inventory, ev.command).value;
    ApplyExact(LoadState(f).value.layout, ev.inventory, ev.command);
    CheckLayoutExact(l, ev.inventory);
    assert After(f, ev) == Files(LayoutFile(l), SavedInventory(ev.inventory));
  }

  lemma ReplacedIsLoaded(f: Files, ev: StoreEvent)
    requires ev.ReplaceTopology? && TakesEffect(f, ev)
    ensures Accepts(After(f, ev))
    ensures var state := LoadState(After(f, ev)).value;
            Resolve(state.layout, state.inventory)
            == Success(ev.topology.(revision := if ev.expected < U64_MAX then ev.expected + 1 else U64_MAX))
  {
    hide CheckLayout, CheckInventory, CheckTopology, ValidLayout, ValidTopology, Resolve, InventoryOf, FromTopology;
    var t := ev.topology.(revision := SatAddU64(ev.expected, 1));
    CheckTopologyExact(ev.topology);
    ReplacePasses(f, ev.expected, ev.topology);
    ValidWhateverRevision(ev.topology, t.revision);
    SplitThenResolve(t);
    assert After(f, ev) == Files(LayoutFile(FromTopology(t)), SavedInventory(InventoryOf(t)));
  }

  lemma ValidWhateverRevision(t: ScreenTopology, revision: U64)
    requires ValidTopology(t)
    ensures ValidTopology(t.(revision := revision))
  {
  }

  /** An event that takes no effect leaves the topology file alone; the inventory file then changes only to the
      inventory of the event, if that was written. */
  lemma NoEffectExact(f: Files, ev: StoreEvent)
    requires !TakesEffect(f, ev)
    ensures After(f, ev).topology == f.topology
    ensures After(f, ev).inventory == f.inventory || After(f, ev).inventory == SavedInventory(match ev
              case ApplyCommand(_, inv, _, _, _) => inv
              case ReplaceTopology(_, t, _, _) => InventoryOf(t)
              case SaveInventory(inv, _) => inv)
    ensures ev.SaveInventory? && ValidInventory(ev.inventory) && !ev.w.Lost? ==>
              After(f, ev).inventory == SavedInventory(ev.inventory)
    ensures ev.SaveInventory? && !ValidInventory(ev.inventory) ==> After(f, ev) == f
  {
    if ev.SaveInventory? {
      CheckIdsExact(InventoryIds(ev.inventory), {});
    } else if ev.ReplaceTopology? {
      CheckTopologyExact(ev.topology);
      if ValidTopology(ev.topology) { ReplacePasses(f, ev.expected, ev.topology); }
      assert InventoryOf(ev.topology.(revision := SatAddU64(ev.expected, 1))) == InventoryOf(ev.topology);
    } else if Accepts(f) {
      ApplyExact(LoadState(f).value.layout, ev.inventory, ev.command);
    }
    hide LoadState, Apply, CheckLayout, CheckIds, CheckTopology, ValidLayout, ValidTopology, InventoryOf;
  }

  /** An edit reports success exactly if it took effect and both writes were confirmed; a wrong revision is
      reported with the right one, and then nothing is written. */
  lemma ApplyReports(f: Files, expected: U64, inv: ScreenInventory,
                     c: LayoutCommand, w1: WriteOutcome, w2: WriteOutcome)
    ensures Applied(f, expected, inv, c, w1, w2).1.Success?
            <==> TakesEffect(f, ApplyCommand(expected, inv, c, w1, w2)) && w2.Done?
    ensures Accepts(f) && expected != Revision(f) ==>
              Applied(f, expected, inv, c, w1, w2) == (f, Failure(StaleRevision(expected, Revision(f))))
  {
    if Accepts(f) {
      LoadedRevision(f);
      ApplyExact(LoadState(f).value.layout, inv, c);
      if Apply(LoadState(f).value.layout, inv, c).Success? {
        ResolvedIsValid(Apply(LoadState(f).value.layout, inv, c).value, inv);
        CheckIdsExact(InventoryIds(inv), {});
      }
    }
    hide LoadState, Apply, CheckIds, Resolve, ValidLinks, ValidOverrides, Revision;
  }

  /** So does a replacement by a valid topology; an invalid one is refused first of all. */
  lemma ReplaceReports(f: Files, expected: U64, t: ScreenTopology, w1: WriteOutcome, w2: WriteOutcome)
    ensures ReplacedBy(f, expected, t, w1, w2).1.Success?
            <==> TakesEffect(f, ReplaceTopology(expected, t, w1, w2)) && w2.Done?
    ensures Accepts(f) && expected != Revision(f) && ValidTopology(t) ==>
              ReplacedBy(f, expected, t, w1, w2) == (f, Failure(StaleRevision(expected, Revision(f))))
    ensures !ValidTopology(t) ==>
              ReplacedBy(f, expected, t, w1, w2).0 == f && ReplacedBy(f, expected, t, w1, w2).1.Failure?
              && ReplacedBy(f, expected, t, w1, w2).1.error.InvalidLegacy?
  {
    CheckTopologyExact(t);
    if Accepts(f) { LoadedRevision(f); }
    if ValidTopology(t) { ReplacePasses(f, expected, t); }
    hide LoadState, CheckLayout, CheckTopology, ValidTopology, InventoryOf, Revision;
  }
}
