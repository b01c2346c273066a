/** Merging what devices report about their screens into the inventory. */
module InventoryMerging {
  import opened MachineInts
  import opened Wrappers
  import opened ScreenModel
  import opened LayoutModel
  import opened LayoutProperties

  datatype ReportedScreen = ReportedScreen(stableId: string, name: string, size: ScreenSize, primary: bool)

  // Who reports: this device about itself, or a peer about its own screens.
  datatype Reporter = Reporter(local: bool, deviceId: DeviceId, deviceName: string)
  {
    function IdOf(s: ReportedScreen): ScreenId {
      deviceId + "/" + s.stableId
    }

    // A local report also looks at the device, a remote one at the screen ID alone.
    predicate Matches(n: ScreenDescriptor, s: ReportedScreen) {
      n.screenId == IdOf(s) && (local ==> n.deviceId == deviceId)
    }

    // A local report keeps the known device and primary flag, a remote one overwrites them.
    function Updated(n: ScreenDescriptor, s: ReportedScreen): ScreenDescriptor {
      if local then n.(deviceName := deviceName, name := s.name, logicalSize := s.size, online := true,
          thisDevice := true)
      else n.(deviceId := deviceId, deviceName := deviceName, name := s.name, logicalSize := s.size,
              primary := s.primary, online := true, thisDevice := false)
    }

    function Fresh(s: ReportedScreen): ScreenDescriptor {
      ScreenDescriptor(IdOf(s), deviceId, deviceName, s.name, s.size, s.primary, true, local)
    }
  }

  // ---------- Merging as a function ----------

  function FirstMatch(inv: ScreenInventory, r: Reporter, s: ReportedScreen): (i: nat)
    ensures i <= |inv|
    ensures i < |inv| ==> r.Matches(inv[i], s)
    ensures forall k | 0 <= k < i :: !r.Matches(inv[k], s)
  {
    if inv == [] || r.Matches(inv[0], s) then 0 else 1 + FirstMatch(inv[1..], r, s)
  }

  function Upsert(inv: ScreenInventory, r: Reporter, s: ReportedScreen): ScreenInventory {
    var i := FirstMatch(inv, r, s);
    if i < |inv| then inv[i := r.Updated(inv[i], s)] else inv + [r.Fresh(s)]
  }

  function Upserts(inv: ScreenInventory, r: Reporter, screens: seq<ReportedScreen>): ScreenInventory {
    if screens == [] then inv
    else Upsert(Upserts(inv, r, screens[..|screens| - 1]), r, screens[|screens| - 1])
  }

  // Every screen of the device goes offline until it is reported again.
  function Dimmed(inv: ScreenInventory, r: Reporter): (dimmed: ScreenInventory)
    ensures |dimmed| == |inv|
    ensures forall i | 0 <= i < |inv| ::
              dimmed[i] == if inv[i].deviceId == r.deviceId then inv[i].(online := false, thisDevice := r.local)
                  else inv[i]
  {
    seq(|inv|, i requires 0 <= i < |inv| =>
      if inv[i].deviceId == r.deviceId then inv[i].(online := false, thisDevice := r.local) else inv[i])
  }

  function Merged(inv: ScreenInventory, r: Reporter, screens: seq<ReportedScreen>): ScreenInventory {
    Upserts(Dimmed(inv, r), r, screens)
  }

  function AllDimmed(inv: ScreenInventory): (dimmed: ScreenInventory)
    ensures |dimmed| == |inv|
    ensures forall i | 0 <= i < |inv| :: dimmed[i] == inv[i].(online := false, thisDevice := false)
  {
    seq(|inv|, i requires 0 <= i < |inv| => inv[i].(online := false, thisDevice := false))
  }

  function Offline(inv: ScreenInventory, device: DeviceId): (dimmed: ScreenInventory)
    ensures |dimmed| == |inv|
    ensures forall i | 0 <= i < |inv| :: dimmed[i] == if inv[i].deviceId == device then inv[i].(online := false)
            else inv[i]
  {
    seq(|inv|, i requires 0 <= i < |inv| => if inv[i].deviceId == device then inv[i].(online := false) else inv[i])
  }

  // ---------- The inventory as an object ----------

  class Inventory {
    var screens: ScreenInventory

    constructor (screens: ScreenInventory)
      ensures this.screens == screens
    {
      this.screens := screens;
    }

    // `merge_local_inventory` and `merge_remote_inventory`.
    method Merge(r: Reporter, reported: seq<ReportedScreen>)
      modifies this
      ensures screens == Merged(old(screens), r, reported)
    {
      for i := 0 to |screens|
        invariant |screens| == |old(screens)|
        invariant forall k | 0 <= k < i :: screens[k] == Dimmed(old(screens), r)[k]
        invariant forall k | i <= k < |screens| :: screens[k] == old(screens)[k]
      {
        if screens[i].deviceId == r.deviceId {
          screens := screens[i := screens[i].(online := false, thisDevice := r.local)];
        }
      }
      assert screens == Dimmed(old(screens), r);
      for k := 0 to |reported|
        invariant screens == Upserts(Dimmed(old(screens), r), r, reported[..k])
      {
        assert reported[..k + 1][..k] == reported[..k];
        var i := FirstMatch(screens, r, reported[k]);
        if i < |screens| {
          screens := screens[i := r.Updated(screens[i], reported[k])];
        } else {
          screens := screens + [r.Fresh(reported[k])];
        }
      }
      assert reported[..|reported|] == reported;
    }

    // `reconcile_discovered_inventory`: at start only this device's detected screens are online.
    method Reconcile(r: Reporter, detected: seq<ReportedScreen>)
      requires r.local
      modifies this
      ensures screens == Merged(AllDimmed(old(screens)), r, detected)
    {
      for i := 0 to |screens|
        invariant |screens| == |old(screens)|
        invariant forall k | 0 <= k < i :: screens[k] == AllDimmed(old(screens))[k]
        invariant forall k | i <= k < |screens| :: screens[k] == old(screens)[k]
      {
        screens := screens[i := screens[i].(online := false, thisDevice := false)];
      }
      assert screens == AllDimmed(old(screens));
      Merge(r, detected);
    }

    // What the host does when a peer disconnects or is forgotten.
    method MarkOffline(device: DeviceId)
      modifies this
      ensures screens == Offline(old(screens), device)
    {
      for i := 0 to |screens|
        invariant |screens| == |old(screens)|
        invariant forall k | 0 <= k < i :: screens[k] == Offline(old(screens), device)[k]
        invariant forall k | i <= k < |screens| :: screens[k] == old(screens)[k]
      {
        if screens[i].deviceId == device {
          screens := screens[i := screens[i].(online := false)];
        }
      }
      assert screens == Offline(old(screens), device);
    }
  }

  // ---------- Screens named by their devices ----------

  predicate SlashFree(device: DeviceId) {
    '/' !in device
  }

  // The screen ID is the device ID, a slash and the rest.
  predicate Named(n: ScreenDescriptor) {
    && SlashFree(n.deviceId)
    && |n.deviceId| < |n.screenId|
    && n.screenId[..|n.deviceId|] == n.deviceId && n.screenId[|n.deviceId|] == '/'
  }

  // Every screen is named by its device and no two screens share an ID.
  predicate Orderly(inv: ScreenInventory) {
    && (forall i | 0 <= i < |inv| :: Named(inv[i]))
    && (forall i, j | 0 <= i < j < |inv| :: inv[i].screenId != inv[j].screenId)
  }

  lemma {:induction false} OwnerOfPrefix(device: DeviceId, rest: string)
    requires SlashFree(device)
    ensures OwnerOf(device + "/" + rest) == device
  {
    var id := device + "/" + rest;
    if device != "" {
      assert device[0] in device;
      assert id[1..] == device[1..] + "/" + rest;
      OwnerOfPrefix(device[1..], rest);
    }
  }

  lemma NamedByItsDevice(n: ScreenDescriptor)
    requires Named(n)
    ensures OwnerOf(n.screenId) == n.deviceId && !Blank(n.screenId)
  {
    var rest := n.screenId[|n.deviceId| + 1..];
    assert n.screenId == n.deviceId + "/" + rest;
    OwnerOfPrefix(n.deviceId, rest);
    assert !IsWhitespace(n.screenId[|n.deviceId|]);
  }

  // For orderly inventories both reporters look for the same thing: the screen ID.
  lemma MatchIsById(inv: ScreenInventory, r: Reporter, s: ReportedScreen, i: nat)
    requires Orderly(inv) && SlashFree(r.deviceId) && i < |inv|
    ensures r.Matches(inv[i], s) <==> inv[i].screenId == r.IdOf(s)
    ensures inv[i].screenId == r.IdOf(s) ==> inv[i].deviceId == r.deviceId
  {
    if inv[i].screenId == r.IdOf(s) {
      NamedByItsDevice(inv[i]);
      OwnerOfPrefix(r.deviceId, s.stableId);
    }
  }

  /** An orderly inventory is valid, and topologies resolved from it name screens by their owners. */
  lemma OrderlyIsValid(inv: ScreenInventory)
    requires Orderly(inv)
    ensures ValidInventory(inv)
    ensures forall l :: Resolve(l, inv).Success? ==> NamedByOwner(Resolve(l, inv).value)
  {
    forall i | 0 <= i < |inv| ensures !Blank(InventoryIds(inv)[i]) && OwnerOf(inv[i].screenId) == inv[i].deviceId {
      NamedByItsDevice(inv[i]);
    }
    hide Named, OwnerOf, CheckLayout, Blank;
  }

  // ---------- One reported screen ----------

  // The screens of other devices are the same ones in both inventories.
  ghost predicate SameElsewhere(inv: ScreenInventory, inv': ScreenInventory, device: DeviceId) {
    forall n: ScreenDescriptor :: n.deviceId != device ==> (n in inv <==> n in inv')
  }

  // Of the device's screens exactly those with an ID in `ids` are online.
  predicate OnlineExactly(inv: ScreenInventory, device: DeviceId, ids: set<ScreenId>) {
    forall i | 0 <= i < |inv| :: inv[i].deviceId == device ==> (inv[i].online <==> inv[i].screenId in ids)
  }

  lemma UpsertExact(inv: ScreenInventory, r: Reporter, s: ReportedScreen, ids: set<ScreenId>)
    requires Orderly(inv) && SlashFree(r.deviceId) && OnlineExactly(inv, r.deviceId, ids)
    ensures var inv' := Upsert(inv, r, s);
            && Orderly(inv') && OnlineExactly(inv', r.deviceId, ids + {r.IdOf(s)})
            && SameElsewhere(inv, inv', r.deviceId)
  {
    var inv', i := Upsert(inv, r, s), FirstMatch(inv, r, s);
    forall k | 0 <= k < |inv|
      ensures (r.Matches(inv[k], s) <==> inv[k].screenId == r.IdOf(s))
              && (inv[k].screenId == r.IdOf(s) ==> inv[k].deviceId == r.deviceId)
    {
      MatchIsById(inv, r, s, k);
    }
    assert forall k | 0 <= k < |inv| && k != i :: inv'[k] == inv[k];
    if i < |inv| {
      assert inv'[i].screenId == inv[i].screenId == r.IdOf(s) && inv'[i].deviceId == inv[i].deviceId == r.deviceId;
    } else {
      FreshIsNamed(r, s);
    }
    hide Named;
  }

  lemma FreshIsNamed(r: Reporter, s: ReportedScreen)
    requires SlashFree(r.deviceId)
    ensures Named(r.Fresh(s))
  {
  }

  // The IDs already there stay where they are, and the reported one is known afterwards.
  lemma UpsertIds(inv: ScreenInventory, r: Reporter, s: ReportedScreen)
    ensures InventoryIds(inv) <= InventoryIds(Upsert(inv, r, s))
    ensures KnownIds(Upsert(inv, r, s)) == KnownIds(inv) + {r.IdOf(s)}
  {
    var inv', i := Upsert(inv, r, s), FirstMatch(inv, r, s);
    var ids, ids' := InventoryIds(inv), InventoryIds(inv');
    if i < |inv| {
      assert ids' == ids && ids[i] == r.IdOf(s);
    } else {
      assert ids' == ids + [r.IdOf(s)];
    }
  }

  function ReportedIds(r: Reporter, screens: seq<ReportedScreen>): set<ScreenId> {
    set s | s in screens :: r.IdOf(s)
  }

  lemma SameAsItself(inv: ScreenInventory, device: DeviceId)
    ensures SameElsewhere(inv, inv, device)
  {
  }

  lemma SameOnward(a: ScreenInventory, b: ScreenInventory, c: ScreenInventory, device: DeviceId)
    ensures SameElsewhere(a, b, device) && SameElsewhere(b, c, device) ==> SameElsewhere(a, c, device)
  {
  }

  lemma {:induction false} UpsertsExact(inv: ScreenInventory, r: Reporter, screens: seq<ReportedScreen>)
    requires Orderly(inv) && SlashFree(r.deviceId) && OnlineExactly(inv, r.deviceId, {})
    ensures var inv' := Upserts(inv, r, screens);
            && Orderly(inv') && OnlineExactly(inv', r.deviceId, ReportedIds(r, screens))
            && SameElsewhere(inv, inv', r.deviceId)
            && KnownIds(inv') == KnownIds(inv) + ReportedIds(r, screens)
  {
    hide Orderly, OnlineExactly, KnownIds, SlashFree, Upsert, SameElsewhere;
    SameAsItself(inv, r.deviceId);
    if screens != [] {
      var before, last := screens[..|screens| - 1], screens[|screens| - 1];
      UpsertsExact(inv, r, before);
      UpsertExact(Upserts(inv, r, before), r, last, ReportedIds(r, before));
      UpsertIds(Upserts(inv, r, before), r, last);
      SameOnward(inv, Upserts(inv, r, before), Upserts(inv, r, screens), r.deviceId);
      assert screens == before + [last];
      assert ReportedIds(r, screens) == ReportedIds(r, before) + {r.IdOf(last)};
    } else {
      assert ReportedIds(r, screens) == {};
    }
  }

  // ---------- Whole merges ----------

  lemma DimmedOrderly(inv: ScreenInventory, inv': ScreenInventory)
    requires Orderly(inv) && |inv'| == |inv|
    requires forall i | 0 <= i < |inv| :: inv'[i].screenId == inv[i].screenId && inv'[i].deviceId == inv[i].deviceId
    ensures Orderly(inv') && KnownIds(inv') == KnownIds(inv)
  {
  }

  /** A merge keeps IDs unique and loses none, leaves exactly the reported screens of the device online
      and does not touch the screens of any other device. */
  lemma MergeExact(inv: ScreenInventory, r: Reporter, screens: seq<ReportedScreen>)
    requires Orderly(inv) && SlashFree(r.deviceId)
    ensures var inv' := Merged(inv, r, screens);
            && Orderly(inv')
            && KnownIds(inv') == KnownIds(inv) + ReportedIds(r, screens)
            && OnlineExactly(inv', r.deviceId, ReportedIds(r, screens))
            && SameElsewhere(inv, inv', r.deviceId)
  {
    var dimmed := Dimmed(inv, r);
    DimmedOrderly(inv, dimmed);
    assert SameElsewhere(inv, dimmed, r.deviceId) by {
      forall n: ScreenDescriptor | n.deviceId != r.deviceId ensures n in inv <==> n in dimmed {
        if n in inv {
          var i :| 0 <= i < |inv| && inv[i] == n;
          assert dimmed[i] == n;
        }
      }
    }
    UpsertsExact(dimmed, r, screens);
    hide Orderly, KnownIds, ReportedIds, SlashFree, Upserts;
  }

  // ---------- What a merge shows of the reported screens ----------

  // The inventory describes the screen as it was reported; for its primary flag see below.
  predicate Describes(inv: ScreenInventory, r: Reporter, s: ReportedScreen) {
    exists i | 0 <= i < |inv| ::
      && inv[i].screenId == r.IdOf(s) && inv[i].deviceId == r.deviceId && inv[i].deviceName == r.deviceName
      && inv[i].name == s.name && inv[i].logicalSize == s.size && inv[i].online && inv[i].thisDevice == r.local
      && (!r.local ==> inv[i].primary == s.primary)
  }

  lemma UpsertDescribes(inv: ScreenInventory, r: Reporter, s: ReportedScreen)
    requires Orderly(inv) && SlashFree(r.deviceId)
    ensures Describes(Upsert(inv, r, s), r, s)
    ensures forall o: ReportedScreen ::
              o.stableId != s.stableId && Describes(inv, r, o) ==> Describes(Upsert(inv, r, s), r, o)
  {
    var inv', i := Upsert(inv, r, s), FirstMatch(inv, r, s);
    if i < |inv| {
      MatchIsById(inv, r, s, i);
    }
    assert inv'[i].screenId == r.IdOf(s) && inv'[i].name == s.name;
    hide Orderly, SlashFree;
    forall o: ReportedScreen | o.stableId != s.stableId && Describes(inv, r, o) ensures Describes(inv', r, o) {
      var k :| 0 <= k < |inv| && inv[k].screenId == r.IdOf(o) && inv[k].deviceId == r.deviceId
          && inv[k].deviceName == r.deviceName
               && inv[k].name == o.name && inv[k].logicalSize == o.size && inv[k].online && inv[k].thisDevice == r.local
               && (!r.local ==> inv[k].primary == o.primary);
      IdsDiffer(r, s, o);
      assert inv'[k] == inv[k];
    }
  }

  lemma IdsDiffer(r: Reporter, a: ReportedScreen, b: ReportedScreen)
    ensures r.IdOf(a) == r.IdOf(b) ==> a.stableId == b.stableId
  {
    assert a.stableId == r.IdOf(a)[|r.deviceId| + 1..];
    assert b.stableId == r.IdOf(b)[|r.deviceId| + 1..];
  }

  lemma {:induction false} UpsertsDescribe(inv: ScreenInventory, r: Reporter, screens: seq<ReportedScreen>)
    requires Orderly(inv) && SlashFree(r.deviceId) && OnlineExactly(inv, r.deviceId, {})
    requires forall i, j | 0 <= i < j < |screens| :: screens[i].stableId != screens[j].stableId
    ensures forall i | 0 <= i < |screens| :: Describes(Upserts(inv, r, screens), r, screens[i])
  {
    hide Orderly, OnlineExactly, SlashFree, Describes, Upsert;
    if screens != [] {
      var before, last := screens[..|screens| - 1], screens[|screens| - 1];
      UpsertsDescribe(inv, r, before);
      UpsertsExact(inv, r, before);
      UpsertDescribes(Upserts(inv, r, before), r, last);
      forall i | 0 <= i < |screens| ensures Describes(Upserts(inv, r, screens), r, screens[i]) {
        if i < |before| { assert screens[i] == before[i]; }
      }
    }
  }

  /** After a merge every reported screen is described as it was reported, apart from the primary flag
      of a local report. */
  lemma MergeDescribes(inv: ScreenInventory, r: Reporter, screens: seq<ReportedScreen>)
    requires Orderly(inv) && SlashFree(r.deviceId)
    requires forall i, j | 0 <= i < j < |screens| :: screens[i].stableId != screens[j].stableId
    ensures forall i | 0 <= i < |screens| :: Describes(Merged(inv, r, screens), r, screens[i])
  {
    DimmedOrderly(inv, Dimmed(inv, r));
    UpsertsDescribe(Dimmed(inv, r), r, screens);
    hide Orderly, SlashFree, Describes, Upserts;
  }

  lemma {:induction false} UpsertsKeep(inv: ScreenInventory, r: Reporter, screens: seq<ReportedScreen>, i: nat)
    requires i < |inv| && inv[i].screenId !in ReportedIds(r, screens)
    ensures |Upserts(inv, r, screens)| >= |inv| && Upserts(inv, r, screens)[i] == inv[i]
  {
    if screens != [] {
      var before, last := screens[..|screens| - 1], screens[|screens| - 1];
      assert forall s | s in before :: s in screens;
      UpsertsKeep(inv, r, before, i);
      assert last in screens && r.IdOf(last) in ReportedIds(r, screens);
      hide ReportedIds, Upserts;
      assert Upserts(inv, r, before)[i] == inv[i];
      UpsertKeeps(Upserts(inv, r, before), r, last, i);
      UpsertsLast(inv, r, screens);
    }
  }

  lemma UpsertsLast(inv: ScreenInventory, r: Reporter, screens: seq<ReportedScreen>)
    requires screens != []
    ensures Upserts(inv, r, screens) == Upsert(Upserts(inv, r, screens[..|screens| - 1]), r, screens[|screens| - 1])
  {
  }

  lemma UpsertKeeps(inv: ScreenInventory, r: Reporter, s: ReportedScreen, i: nat)
    requires i < |inv| && inv[i].screenId != r.IdOf(s)
    ensures |Upsert(inv, r, s)| >= |inv| && Upsert(inv, r, s)[i] == inv[i]
  {
  }

  /** A known screen that is not reported stays where it is and as it was, but that one of the reporting device
      is offline afterwards, and its own exactly if the report is local. */
  lemma UnreportedKept(inv: ScreenInventory, r: Reporter, screens: seq<ReportedScreen>, i: nat)
    requires i < |inv| && inv[i].screenId !in ReportedIds(r, screens)
    ensures |Merged(inv, r, screens)| >= |inv|
    ensures Merged(inv, r, screens)[i]
            == if inv[i].deviceId == r.deviceId then inv[i].(online := false, thisDevice := r.local) else inv[i]
  {
    UpsertsKeep(Dimmed(inv, r), r, screens, i);
  }

  // ---------- The primary flag ----------

  // The primary flag recorded under an ID.
  function PrimaryOf(inv: ScreenInventory, id: ScreenId): Option<bool> {
    if inv == [] then None else if inv[0].screenId == id then Some(inv[0].primary) else PrimaryOf(inv[1..], id)
  }

  lemma {:induction false} PrimaryAt(inv: ScreenInventory, i: nat)
    requires forall j, k | 0 <= j < k < |inv| :: inv[j].screenId != inv[k].screenId
    requires i < |inv|
    ensures PrimaryOf(inv, inv[i].screenId) == Some(inv[i].primary)
  {
    if i > 0 {
      PrimaryAt(inv[1..], i - 1);
    }
  }

  lemma {:induction false} NoPrimary(inv: ScreenInventory, id: ScreenId)
    ensures PrimaryOf(inv, id).None? <==> forall i | 0 <= i < |inv| :: inv[i].screenId != id
  {
    if inv != [] {
      NoPrimary(inv[1..], id);
      assert forall i | 1 <= i < |inv| :: inv[i] == inv[1..][i - 1];
    }
  }

  // A peer's report decides the flag; a local one only for a screen that was not known.
  function Recorded(inv: ScreenInventory, r: Reporter, s: ReportedScreen): bool {
    var known := PrimaryOf(inv, r.IdOf(s));
    if r.local && known.Some? then known.value else s.primary
  }

  lemma UpsertPrimary(inv: ScreenInventory, r: Reporter, s: ReportedScreen, id: ScreenId)
    requires Orderly(inv) && SlashFree(r.deviceId)
    ensures PrimaryOf(Upsert(inv, r, s), id) == if id == r.IdOf(s) then Some(Recorded(inv, r, s))
            else PrimaryOf(inv, id)
  {
    hide Named, SlashFree, FirstMatch, PrimaryOf, Upsert;
    var inv', i := Upsert(inv, r, s), FirstMatch(inv, r, s);
    UpsertOrderly(inv, r, s);
    UpsertPointwise(inv, r, s);
    NoPrimary(inv, id);
    NoPrimary(inv', id);
    if id == r.IdOf(s) {
      PrimaryAt(inv', i);
      if i < |inv| { PrimaryAt(inv, i); }
    } else if k :| 0 <= k < |inv| && inv[k].screenId == id {
      PrimaryAt(inv, k);
      PrimaryAt(inv', k);
    }
  }

  lemma UpsertPointwise(inv: ScreenInventory, r: Reporter, s: ReportedScreen)
    requires Orderly(inv) && SlashFree(r.deviceId)
    ensures var inv', i := Upsert(inv, r, s), FirstMatch(inv, r, s);
            && |inv'| == (if i < |inv| then |inv| else |inv| + 1)
            && (forall k | 0 <= k < |inv| :: inv'[k].screenId == inv[k].screenId && (k != i ==> inv'[k] == inv[k]))
            && inv'[i].screenId == r.IdOf(s)
            && inv'[i].primary == (if r.local && i < |inv| then inv[i].primary else s.primary)
            && (i == |inv| ==> forall k | 0 <= k < |inv| :: inv[k].screenId != r.IdOf(s))
  {
    forall k | 0 <= k < |inv| ensures r.Matches(inv[k], s) <==> inv[k].screenId == r.IdOf(s) {
      MatchIsById(inv, r, s, k);
    }
    hide Named, SlashFree;
  }

  lemma UpsertOrderly(inv: ScreenInventory, r: Reporter, s: ReportedScreen)
    requires Orderly(inv) && SlashFree(r.deviceId)
    ensures Orderly(Upsert(inv, r, s))
  {
    var i := FirstMatch(inv, r, s);
    forall k | 0 <= k < |inv| ensures r.Matches(inv[k], s) <==> inv[k].screenId == r.IdOf(s) {
      MatchIsById(inv, r, s, k);
    }
    if i < |inv| {
      MatchIsById(inv, r, s, i);
    } else {
      FreshIsNamed(r, s);
    }
    hide Named, SlashFree;
  }

  lemma {:induction false} UpsertsPrimary(inv: ScreenInventory, r: Reporter, screens: seq<ReportedScreen>, k: nat)
    requires Orderly(inv) && SlashFree(r.deviceId) && k < |screens|
    requires forall i, j | 0 <= i < j < |screens| :: screens[i].stableId != screens[j].stableId
    ensures Orderly(Upserts(inv, r, screens))
    ensures PrimaryOf(Upserts(inv, r, screens), r.IdOf(screens[k])) == Some(Recorded(inv, r, screens[k]))
  {
    hide Orderly, SlashFree, Upsert, PrimaryOf;
    var before, last := screens[..|screens| - 1], screens[|screens| - 1];
    UnreportedPrimary(inv, r, before, r.IdOf(last), last);
    UpsertOrderly(Upserts(inv, r, before), r, last);
    UpsertPrimary(Upserts(inv, r, before), r, last, r.IdOf(screens[k]));
    IdsDiffer(r, last, screens[k]);
    if k < |before| {
      UpsertsPrimary(inv, r, before, k);
    }
  }

  lemma {:induction false} UnreportedPrimary(inv: ScreenInventory, r: Reporter, screens: seq<ReportedScreen>,
                                             id: ScreenId, s: ReportedScreen)
    requires Orderly(inv) && SlashFree(r.deviceId) && id == r.IdOf(s)
    requires forall i | 0 <= i < |screens| :: screens[i].stableId != s.stableId
    ensures Orderly(Upserts(inv, r, screens)) && PrimaryOf(Upserts(inv, r, screens), id) == PrimaryOf(inv, id)
  {
    hide Orderly, SlashFree, Upsert, PrimaryOf;
    if screens != [] {
      var before, last := screens[..|screens| - 1], screens[|screens| - 1];
      UnreportedPrimary(inv, r, before, id, s);
      UpsertOrderly(Upserts(inv, r, before), r, last);
      UpsertPrimary(Upserts(inv, r, before), r, last, id);
      IdsDiffer(r, last, s);
    }
  }

  /** The primary flag a merge records is the reported one if and only if the report is a peer's, or the
      screen was new, or it carried that flag already; otherwise it is the one it carried. */
  lemma PrimaryExact(inv: ScreenInventory, r: Reporter, screens: seq<ReportedScreen>, k: nat)
    requires Orderly(inv) && SlashFree(r.deviceId) && k < |screens|
    requires forall i, j | 0 <= i < j < |screens| :: screens[i].stableId != screens[j].stableId
    ensures var known, now := PrimaryOf(inv, r.IdOf(screens[k])),
            PrimaryOf(Merged(inv, r, screens), r.IdOf(screens[k]));
            && now.Some?
            && (now.value == screens[k].primary <==> !r.local || known.None? || known.value == screens[k].primary)
            && (now.value != screens[k].primary ==> now == known)
  {
    DimmedOrderly(inv, Dimmed(inv, r));
    DimmedPrimary(inv, Dimmed(inv, r), r.IdOf(screens[k]));
    UpsertsPrimary(Dimmed(inv, r), r, screens, k);
    hide Orderly, SlashFree, PrimaryOf, Upserts;
  }

  /** An input whose flag is not recorded: a known screen that has become primary is reported here. */
  lemma KeptFlagExample()
    ensures var n := ScreenDescriptor("h/1", "h", "h", "1", Dimensions(1, 1), false, true, true);
            var r, s := Reporter(true, "h", "h"), ReportedScreen("1", "1", Dimensions(1, 1), true);
            Orderly([n]) && PrimaryOf(Merged([n], r, [s]), r.IdOf(s)) == Some(false)
  {
    var n := ScreenDescriptor("h/1", "h", "h", "1", Dimensions(1, 1), false, true, true);
    var r, s := Reporter(true, "h", "h"), ReportedScreen("1", "1", Dimensions(1, 1), true);
    assert r.IdOf(s) == "h/1" && "h/1"[..1] == "h";
    PrimaryExact([n], r, [s], 0);
    assert PrimaryOf([n], "h/1") == Some(false);
    hide Merged;
  }

  lemma {:induction false} DimmedPrimary(inv: ScreenInventory, inv': ScreenInventory, id: ScreenId)
    requires |inv'| == |inv|
    requires forall i | 0 <= i < |inv| :: inv'[i].screenId == inv[i].screenId && inv'[i].primary == inv[i].primary
    ensures PrimaryOf(inv', id) == PrimaryOf(inv, id)
  {
    if inv != [] {
      DimmedPrimary(inv[1..], inv'[1..], id);
    }
  }

  // ---------- The screen the host stands on ----------

  // A host opens its session on the first online screen of its own device.
  function HostScreen(inv: ScreenInventory): Option<ScreenDescriptor> {
    FirstWhere((s: ScreenDescriptor) => s.thisDevice && s.online, inv)
  }

  // A device none of whose screens belongs to this one.
  predicate Elsewhere(inv: ScreenInventory, device: DeviceId) {
    forall i | 0 <= i < |inv| :: inv[i].thisDevice ==> inv[i].deviceId != device
  }

  // The screens of this device are the same ones, in the same places.
  predicate SameHere(inv: ScreenInventory, inv': ScreenInventory) {
    && |inv| <= |inv'|
    && (forall i | 0 <= i < |inv| :: inv[i].thisDevice || inv'[i].thisDevice ==> inv[i] == inv'[i])
    && (forall i | |inv| <= i < |inv'| :: !inv'[i].thisDevice)
  }

  lemma UpsertSameHere(inv: ScreenInventory, r: Reporter, s: ReportedScreen)
    requires Orderly(inv) && SlashFree(r.deviceId) && !r.local && Elsewhere(inv, r.deviceId)
    ensures SameHere(inv, Upsert(inv, r, s))
  {
    var i := FirstMatch(inv, r, s);
    if i < |inv| {
      MatchIsById(inv, r, s, i);
    }
    hide Orderly;
  }

  lemma {:induction false} UpsertsSameHere(inv: ScreenInventory, r: Reporter, screens: seq<ReportedScreen>)
    requires Orderly(inv) && SlashFree(r.deviceId) && !r.local && OnlineExactly(inv, r.deviceId, {})
             && Elsewhere(inv, r.deviceId)
    ensures SameHere(inv, Upserts(inv, r, screens))
  {
    hide Orderly, SlashFree, OnlineExactly, Upsert;
    if screens != [] {
      var before := screens[..|screens| - 1];
      UpsertsSameHere(inv, r, before);
      UpsertsExact(inv, r, before);
      UpsertSameHere(Upserts(inv, r, before), r, screens[|screens| - 1]);
    }
  }

  // A screen that is reported here is one to stand on.
  lemma ReportedIsHost(inv: ScreenInventory, r: Reporter, screens: seq<ReportedScreen>)
    requires r.local && screens != []
    ensures HostScreen(Merged(inv, r, screens)).Some?
  {
    var before, last := Upserts(Dimmed(inv, r), r, screens[..|screens| - 1]), screens[|screens| - 1];
    var i := FirstMatch(before, r, last);
    assert Merged(inv, r, screens)[i].thisDevice && Merged(inv, r, screens)[i].online;
    FirstWhereFound((s: ScreenDescriptor) => s.thisDevice && s.online, Merged(inv, r, screens));
  }

  /** What another device reports does not change the screen the host stands on. */
  lemma HostScreenKept(inv: ScreenInventory, r: Reporter, screens: seq<ReportedScreen>)
    requires Orderly(inv) && SlashFree(r.deviceId) && !r.local && Elsewhere(inv, r.deviceId)
    ensures HostScreen(Merged(inv, r, screens)) == HostScreen(inv)
  {
    DimmedOrderly(inv, Dimmed(inv, r));
    UpsertsSameHere(Dimmed(inv, r), r, screens);
    hide Orderly, SlashFree, Upserts;
    FirstWhereSame((s: ScreenDescriptor) => s.thisDevice && s.online, inv, Merged(inv, r, screens));
  }

  // ---------- Runs ----------

  datatype InventoryEvent =
    | Reconcile(reporter: Reporter, screens: seq<ReportedScreen>)
    | Merge(reporter: Reporter, screens: seq<ReportedScreen>)
    | MarkOffline(device: DeviceId)

  function After(inv: ScreenInventory, ev: InventoryEvent): ScreenInventory {
    match ev
    case Reconcile(r, screens) => Merged(AllDimmed(inv), r, screens)
    case Merge(r, screens) => Merged(inv, r, screens)
    case MarkOffline(device) => Offline(inv, device)
  }

  predicate FromDevice(ev: InventoryEvent) {
    ev.MarkOffline? || SlashFree(ev.reporter.deviceId)
  }

  function InventoryAt(inv: ScreenInventory, evs: seq<InventoryEvent>, n: nat): ScreenInventory
    requires n <= |evs|
  {
    if n == 0 then inv else After(InventoryAt(inv, evs, n - 1), evs[n - 1])
  }

  lemma EventKeepsOrder(inv: ScreenInventory, ev: InventoryEvent)
    requires Orderly(inv) && FromDevice(ev)
    ensures Orderly(After(inv, ev)) && KnownIds(inv) <= KnownIds(After(inv, ev))
  {
    match ev
    case Reconcile(r, screens) =>
      DimmedOrderly(inv, AllDimmed(inv));
      MergeExact(AllDimmed(inv), r, screens);
    case Merge(r, screens) => MergeExact(inv, r, screens);
    case MarkOffline(device) => DimmedOrderly(inv, Offline(inv, device));
    hide Orderly, KnownIds, Merged, SameElsewhere, OnlineExactly;
  }

  lemma {:induction false} InventoryStaysOrderly(inv: ScreenInventory, evs: seq<InventoryEvent>, n: nat)
    requires Orderly(inv) && n <= |evs| && forall i | 0 <= i < |evs| :: FromDevice(evs[i])
    ensures Orderly(InventoryAt(inv, evs, n)) && KnownIds(inv) <= KnownIds(InventoryAt(inv, evs, n))
  {
    hide Orderly, KnownIds, FromDevice, After;
    if n > 0 {
      InventoryStaysOrderly(inv, evs, n - 1);
      EventKeepsOrder(InventoryAt(inv, evs, n - 1), evs[n - 1]);
    }
  }

  lemma GrownInventoryKeepsLayout(l: ScreenLayout, inv: ScreenInventory, inv': ScreenInventory)
    requires ValidLayout(l, inv) && ValidInventory(inv') && KnownIds(inv) <= KnownIds(inv')
    ensures ValidLayout(l, inv')
  {
  }

  /** Whatever is reported, reconciled or marked offline, in any order, a layout that was valid still
      resolves, to a valid topology whose screens are named by their owners. */
  lemma LayoutSurvivesInventoryRuns(l: ScreenLayout, inv: ScreenInventory, evs: seq<InventoryEvent>)
    requires ValidLayout(l, inv) && Orderly(inv) && forall i | 0 <= i < |evs| :: FromDevice(evs[i])
    ensures var inv' := InventoryAt(inv, evs, |evs|);
            && ValidLayout(l, inv') && Resolve(l, inv').Success?
            && ValidTopology(Resolve(l, inv').value) && NamedByOwner(Resolve(l, inv').value)
  {
    var inv' := InventoryAt(inv, evs, |evs|);
    InventoryStaysOrderly(inv, evs, |evs|);
    OrderlyIsValid(inv');
    GrownInventoryKeepsLayout(l, inv, inv');
    ResolvedIsValid(l, inv');
    hide ValidLayout, Orderly, KnownIds, ValidTopology, NamedByOwner, CheckLayout;
  }

  // ---------- Without the naming rule ----------

  // The reported ID is recorded for another device.
  predicate Foreign(inv: ScreenInventory, r: Reporter, s: ReportedScreen) {
    exists i | 0 <= i < |inv| :: inv[i].screenId == r.IdOf(s) && inv[i].deviceId != r.deviceId
  }

  // A peer's report always merges cleanly, a local one if none of its IDs is foreign.
  predicate Clean(inv: ScreenInventory, r: Reporter, screens: seq<ReportedScreen>) {
    r.local ==> forall k | 0 <= k < |screens| :: !Foreign(inv, r, screens[k])
  }

  lemma {:induction false} IdNotBlank(device: DeviceId, rest: string)
    ensures !Blank(device + "/" + rest)
  {
    assert !IsWhitespace((device + "/" + rest)[|device|]);
  }

  // One report keeps the inventory valid exactly if its ID is not foreign to a local reporter.
  lemma UpsertValidExact(inv: ScreenInventory, r: Reporter, s: ReportedScreen)
    requires ValidInventory(inv)
    ensures ValidInventory(Upsert(inv, r, s)) <==> !(r.local && Foreign(inv, r, s))
  {
    var inv', i := Upsert(inv, r, s), FirstMatch(inv, r, s);
    var ids, ids' := InventoryIds(inv), InventoryIds(inv');
    IdNotBlank(r.deviceId, s.stableId);
    hide Blank;
    if i < |inv| {
      assert ids' == ids;
      forall k | 0 <= k < |inv| && inv[k].screenId == r.IdOf(s) ensures k == i {
        assert ids[k] == ids[i];
      }
    } else {
      assert ids' == ids + [r.IdOf(s)];
      if k :| 0 <= k < |inv| && inv[k].screenId == r.IdOf(s) {
        assert ids'[k] == ids'[|inv|];
      } else {
        assert forall k | 0 <= k < |inv| :: ids[k] != r.IdOf(s);
      }
    }
  }

  // An inventory that is not valid does not become valid again.
  lemma GrownStaysInvalid(inv: ScreenInventory, inv': ScreenInventory)
    requires InventoryIds(inv) <= InventoryIds(inv') && ValidInventory(inv')
    ensures ValidInventory(inv)
  {
    var ids, ids' := InventoryIds(inv), InventoryIds(inv');
    assert forall i | 0 <= i < |ids| :: ids[i] == ids'[i];
  }

  // What a local report adds or changes is its own, so nothing becomes or stops being foreign.
  lemma UpsertKeepsForeign(inv: ScreenInventory, r: Reporter, s: ReportedScreen, other: ReportedScreen)
    requires r.local
    ensures Foreign(Upsert(inv, r, s), r, other) <==> Foreign(inv, r, other)
  {
    var inv', i := Upsert(inv, r, s), FirstMatch(inv, r, s);
    if k :| 0 <= k < |inv| && inv[k].screenId == r.IdOf(other) && inv[k].deviceId != r.deviceId {
      assert inv'[k].screenId == r.IdOf(other) && inv'[k].deviceId != r.deviceId;
    }
    if k :| 0 <= k < |inv'| && inv'[k].screenId == r.IdOf(other) && inv'[k].deviceId != r.deviceId {
      assert k < |inv| && inv[k].screenId == r.IdOf(other) && inv[k].deviceId != r.deviceId;
    }
  }

  lemma {:induction false} UpsertsIds(inv: ScreenInventory, r: Reporter, screens: seq<ReportedScreen>)
    ensures InventoryIds(inv) <= InventoryIds(Upserts(inv, r, screens))
    ensures KnownIds(Upserts(inv, r, screens)) == KnownIds(inv) + ReportedIds(r, screens)
  {
    hide Upsert, InventoryIds, KnownIds;
    if screens == [] {
      assert ReportedIds(r, screens) == {};
    } else {
      var before, last := screens[..|screens| - 1], screens[|screens| - 1];
      UpsertsIds(inv, r, before);
      UpsertIds(Upserts(inv, r, before), r, last);
      assert screens == before + [last];
      assert ReportedIds(r, screens) == ReportedIds(r, before) + {r.IdOf(last)};
    }
  }

  lemma {:induction false} UpsertsValidExact(inv: ScreenInventory, r: Reporter, screens: seq<ReportedScreen>)
    requires ValidInventory(inv)
    ensures var inv' := Upserts(inv, r, screens);
            && (ValidInventory(inv') <==> Clean(inv, r, screens))
            && (r.local ==> forall s: ReportedScreen :: Foreign(inv', r, s) <==> Foreign(inv, r, s))
  {
    hide ValidInventory, Foreign, Upsert, InventoryIds;
    if screens != [] {
      var before, last := screens[..|screens| - 1], screens[|screens| - 1];
      var between := Upserts(inv, r, before);
      UpsertsValidExact(inv, r, before);
      UpsertIds(between, r, last);
      assert screens == before + [last];
      if r.local {
        forall s: ReportedScreen { UpsertKeepsForeign(between, r, last, s); }
      }
      if ValidInventory(between) {
        UpsertValidExact(between, r, last);
      } else if ValidInventory(Upsert(between, r, last)) {
        GrownStaysInvalid(between, Upsert(between, r, last));
      }
    }
  }

  lemma DimmedKeepsForeign(inv: ScreenInventory, inv': ScreenInventory, r: Reporter, screens: seq<ReportedScreen>)
    requires |inv'| == |inv|
    requires forall i | 0 <= i < |inv| :: inv'[i].screenId == inv[i].screenId && inv'[i].deviceId == inv[i].deviceId
    ensures InventoryIds(inv') == InventoryIds(inv) && (Clean(inv', r, screens) <==> Clean(inv, r, screens))
  {
    forall s: ReportedScreen ensures Foreign(inv', r, s) <==> Foreign(inv, r, s) {
      if Foreign(inv', r, s) {
        var i :| 0 <= i < |inv'| && inv'[i].screenId == r.IdOf(s) && inv'[i].deviceId != r.deviceId;
        assert inv[i].screenId == r.IdOf(s);
      }
      if Foreign(inv, r, s) {
        var i :| 0 <= i < |inv| && inv[i].screenId == r.IdOf(s) && inv[i].deviceId != r.deviceId;
        assert inv'[i].screenId == r.IdOf(s);
      }
    }
    hide Foreign;
  }

  lemma MergeIds(inv: ScreenInventory, r: Reporter, screens: seq<ReportedScreen>)
    ensures InventoryIds(inv) <= InventoryIds(Merged(inv, r, screens))
    ensures KnownIds(Merged(inv, r, screens)) == KnownIds(inv) + ReportedIds(r, screens)
  {
    assert InventoryIds(Dimmed(inv, r)) == InventoryIds(inv);
    UpsertsIds(Dimmed(inv, r), r, screens);
    hide Upserts, Dimmed, InventoryIds;
  }

  /** Any merge into any valid inventory: the result is valid if and only if the report comes from a
      peer or none of its IDs is recorded for another device. */
  lemma MergeValidExact(inv: ScreenInventory, r: Reporter, screens: seq<ReportedScreen>)
    requires ValidInventory(inv)
    ensures ValidInventory(Merged(inv, r, screens)) <==> Clean(inv, r, screens)
  {
    DimmedKeepsForeign(inv, Dimmed(inv, r), r, screens);
    UpsertsValidExact(Dimmed(inv, r), r, screens);
    hide Clean, Upserts, Dimmed, InventoryIds;
  }

  predicate CleanEvent(inv: ScreenInventory, ev: InventoryEvent) {
    ev.MarkOffline? || Clean(inv, ev.reporter, ev.screens)
  }

  // No event loses an ID or moves one.
  lemma EventIds(inv: ScreenInventory, ev: InventoryEvent)
    ensures InventoryIds(inv) <= InventoryIds(After(inv, ev)) && KnownIds(inv) <= KnownIds(After(inv, ev))
  {
    match ev
    case Reconcile(r, screens) =>
      assert InventoryIds(AllDimmed(inv)) == InventoryIds(inv);
      MergeIds(AllDimmed(inv), r, screens);
    case Merge(r, screens) => MergeIds(inv, r, screens);
    case MarkOffline(device) => assert InventoryIds(Offline(inv, device)) == InventoryIds(inv);
    hide Merged, AllDimmed, InventoryIds;
  }

  lemma EventValidExact(inv: ScreenInventory, ev: InventoryEvent)
    requires ValidInventory(inv)
    ensures ValidInventory(After(inv, ev)) <==> CleanEvent(inv, ev)
  {
    match ev
    case Reconcile(r, screens) =>
      DimmedKeepsForeign(inv, AllDimmed(inv), r, screens);
      MergeValidExact(AllDimmed(inv), r, screens);
    case Merge(r, screens) => MergeValidExact(inv, r, screens);
    case MarkOffline(device) => assert InventoryIds(Offline(inv, device)) == InventoryIds(inv);
    hide Clean, Merged, AllDimmed, InventoryIds;
  }

  /** Over any run whatsoever a layout that was valid still is if and only if every local report of the
      run merged cleanly. */
  lemma {:induction false} LayoutSurvivesExactly(l: ScreenLayout, inv: ScreenInventory, evs: seq<InventoryEvent>,
                                                 n: nat)
    requires ValidLayout(l, inv) && n <= |evs|
    ensures ValidLayout(l, InventoryAt(inv, evs, n))
            <==> forall k | 0 <= k < n :: CleanEvent(InventoryAt(inv, evs, k), evs[k])
  {
    hide KnownIds, CleanEvent, After, ValidLayout, ValidInventory;
    if n > 0 {
      LayoutSurvivesExactly(l, inv, evs, n - 1);
      RunIds(inv, evs, n - 1);
      LayoutAfterEvent(l, inv, InventoryAt(inv, evs, n - 1), evs[n - 1]);
    }
  }

  lemma {:induction false} RunIds(inv: ScreenInventory, evs: seq<InventoryEvent>, n: nat)
    requires n <= |evs|
    ensures KnownIds(inv) <= KnownIds(InventoryAt(inv, evs, n))
  {
    hide KnownIds, After;
    if n > 0 {
      RunIds(inv, evs, n - 1);
      EventIds(InventoryAt(inv, evs, n - 1), evs[n - 1]);
    }
  }

  // A layout once valid is valid after an event if it was before and the event was clean.
  lemma LayoutAfterEvent(l: ScreenLayout, start: ScreenInventory, inv: ScreenInventory, ev: InventoryEvent)
    requires ValidLayout(l, start) && KnownIds(start) <= KnownIds(inv)
    ensures ValidLayout(l, After(inv, ev)) <==> ValidLayout(l, inv) && CleanEvent(inv, ev)
  {
    EventIds(inv, ev);
    if ValidInventory(inv) {
      EventValidExact(inv, ev);
      GrownInventoryKeepsLayout(l, start, inv);
      if ValidInventory(After(inv, ev)) {
        GrownInventoryKeepsLayout(l, start, After(inv, ev));
      }
    } else if ValidInventory(After(inv, ev)) {
      GrownStaysInvalid(inv, After(inv, ev));
    }
    hide ValidInventory, CleanEvent, After, KnownIds;
  }

  // With IDs named by their devices nothing is ever foreign.
  lemma OrderlyIsClean(inv: ScreenInventory, r: Reporter, screens: seq<ReportedScreen>)
    requires Orderly(inv) && SlashFree(r.deviceId)
    ensures Clean(inv, r, screens)
  {
    forall s: ReportedScreen, i | 0 <= i < |inv|
      ensures inv[i].screenId == r.IdOf(s) ==> inv[i].deviceId == r.deviceId
    {
      MatchIsById(inv, r, s, i);
    }
    hide Orderly;
  }

  /** An input that is not clean: one screen of another device under an ID that is then reported here. */
  lemma MisnamedScreenBreaksMerge()
    ensures exists n: ScreenDescriptor, r: Reporter, s: ReportedScreen ::
              ValidInventory([n]) && !ValidInventory(Merged([n], r, [s]))
  {
    var n := ScreenDescriptor("h/1", "x", "x", "x", Dimensions(1, 1), true, true, false);
    var r, s := Reporter(true, "h", "h"), ReportedScreen("1", "1", Dimensions(1, 1), true);
    assert r.IdOf(s) == "h/1";
    IdNotBlank("h", "1");
    assert InventoryIds([n]) == ["h/1"] && "h" + "/" + "1" == "h/1";
    assert ValidInventory([n]);
    assert [n][0] == n && Foreign([n], r, s);
    assert [s][0] == s && !Clean([n], r, [s]);
    MergeValidExact([n], r, [s]);
    hide Merged, ValidInventory, Blank;
  }
}
