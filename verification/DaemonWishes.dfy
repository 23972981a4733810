/**
  What outlives a handler: the standing wish for the mesh, which the supervisor
  follows, the forwarder's health, and the mesh handles let go of.  For every
  call they are given outright; and what an import, a Rosenpass override and a
  start do to the legs.
*/
module DaemonWishes {
  import opened Results
  import opened Modes
  import opened Legs
  import opened Text
  import Slug
  import PS = ProfileStore
  import opened ProfileSafety
  import opened DaemonModel
  import opened DaemonProfiles
  import opened DaemonSync
  import opened DaemonLegs
  import opened DaemonOutcomes

  /** The mode runs a mesh. */
  predicate Meshed(m: Mode)
  {
    m == NetbirdOnly || m == Combined
  }

  /** A switch gives the wish up only with a profile that ran a mesh. */
  predicate WishAfterSwitch(s: State)
  {
    s.meshWanted && !(s.slug != "" && Meshed(s.mode))
  }

  /** The call switches profiles. */
  predicate Switches(c: Config, s: State, call: Call)
  {
    match call
    case SetActiveProfileCall(slug, _, _) => slug != "" && Loads(c.trust.parses, s.disk, slug)
    case AddProfileCall(req, _, _, w) => Addable(c, s, req) && BothWritten(w) && req.setActive
    case _ => false
  }

  /** Whether the mesh is wanted after a call. */
  predicate WishAfter(c: Config, s: State, call: Call)
  {
    match call
    case ConnectCall(f) => s.meshWanted || TriesMesh(c, s, f)
    case DisconnectCall(f) =>
      var stuck := s.mode != NetbirdOnly && !s.mode.Other? && s.outer.made && f.outer.down;
      s.meshWanted && (stuck || !Meshed(s.mode) || s.mesh.None?)
    case EnableInnerMeshCall(_) => s.meshWanted || (Meshed(s.mode) && s.mesh.Some?)
    case DisableInnerMeshCall => false
    case RemoveProfileCall(slug, _, _) => s.meshWanted && slug != s.slug
    case _ => if Switches(c, s, call) then WishAfterSwitch(s) else s.meshWanted
  }

  /** The mode a switching call switches to. */
  function SwitchedTo(c: Config, s: State, call: Call): Mode
    requires Switches(c, s, call)
  {
    match call
    case SetActiveProfileCall(slug, _, _) =>
      if s.disk.metas[slug].mode.Other? then Combined else s.disk.metas[slug].mode
    case AddProfileCall(req, _, _, _) => AddRequestOf(c, s, req).value.mode
  }

  /** The handle a call lets go of closed for good: that of a profile or mode left behind. */
  predicate Closes(c: Config, s: State, call: Call)
  {
    match call
    case RemoveProfileCall(slug, _, _) => slug == s.slug
    case ShutdownCall(_) => true
    case SetModeCall(text, _, _, _) =>
      Modes.Parse(c.lower, text).Some? && Meshed(s.mode) && !Meshed(Modes.Parse(c.lower, text).value)
    case _ => Switches(c, s, call) && s.slug != "" && Meshed(s.mode)
  }

  /** The handle a call lets go of as it is: one held where no profile or no mesh mode was. */
  predicate Abandons(c: Config, s: State, call: Call)
  {
    match call
    case SetModeCall(text, _, _, _) =>
      Modes.Parse(c.lower, text).Some? && !Meshed(s.mode) && Meshed(Modes.Parse(c.lower, text).value)
    case _ => Switches(c, s, call) && !Closes(c, s, call) && !Meshed(SwitchedTo(c, s, call))
  }

  /** The handles let go of after a call. */
  function DroppedAfter(c: Config, s: State, call: Call): seq<MeshHandle>
  {
    if s.mesh.None? then s.dropped
    else if Closes(c, s, call) then s.dropped + [MeshHandle(Closed, true, s.mesh.value.tried)]
    else if Abandons(c, s, call) then s.dropped + [s.mesh.value]
    else s.dropped
  }

  /** The forwarder's health changes by a listener's report, which queues a callback, and by running one. */
  function FwdAfter(f: Fwd, call: Call): Fwd
  {
    match call
    case ListenerHealth(up) =>
      if f.addr.Some? then Fwd(f.addr, up, if up == f.healthy then f.pending else f.pending + 1) else f
    case RunCallback => if f.pending > 0 then Fwd(f.addr, f.healthy, f.pending - 1) else f
    case _ => f
  }

  predicate SameFlags(a: State, b: State)
  {
    a.meshWanted == b.meshWanted && a.fwd == b.fwd && a.dropped == b.dropped
  }

  lemma SwitchFlags(c: Config, s: State, slug: string, f: LegFaults, w: PS.Faults)
    ensures var n, call := SwitchTo(c, s, slug, f, w).s, SetActiveProfileCall(slug, f, w);
            && (slug != "" ==> n.dropped == DroppedAfter(c, s, call))
            && n.meshWanted == (if Loads(c.trust.parses, s.disk, slug) then WishAfterSwitch(s) else s.meshWanted)
            && n.fwd == s.fwd
  {
    hide PS.PlanSetActive, PS.Replay, SwapIn, BringUp, TearDownMode;
    LoadIs(c.trust, s.disk, slug);
    var target := PS.Load(c.trust, s.disk, slug);
    if target.Ok? {
      var down := Downed(s, f);
      var swapped := SwapIn(down, slug, target.value.0, target.value.1);
      TearDownFlags(s, f);
      SwapInFlags(down, slug, target.value.0, target.value.1);
      BringUpFlags(c, swapped, target.value.1, f);
    }
  }

  lemma TearDownFlags(s: State, f: LegFaults)
    ensures var n := TearDownMode(s, s.mode, f);
            && n.meshWanted == (s.meshWanted && !Meshed(s.mode)) && n.fwd == s.fwd
            && (if Meshed(s.mode)
                then n.mesh.None? && n.dropped == s.dropped + if s.mesh.None? then []
                                                              else [MeshHandle(Closed, true, s.mesh.value.tried)]
                else n.mesh == s.mesh && n.dropped == s.dropped)
  {
  }

  lemma SwapInFlags(s: State, slug: string, m: PS.Meta, bundle: Bytes)
    ensures var n, mode := SwapIn(s, slug, m, bundle), if m.mode.Other? then Combined else m.mode;
            && n.meshWanted == s.meshWanted && n.fwd == s.fwd
            && n.dropped == s.dropped + if s.mesh.Some? && !Meshed(mode) then [s.mesh.value] else []
  {
  }

  lemma BringUpFlags(c: Config, s: State, bundle: Bytes, f: LegFaults)
    ensures var n := BringUp(c, s, bundle, f); SameFlags(s, n)
  {
    hide DirectDns, FrontedDns, Applied, Fronts;
  }

  lemma AddProfileFlags(c: Config, s: State, req: AddProfileRequest, now: int, f: LegFaults, w: PS.Faults)
    ensures var n, call := AddProfile(c, s, req, now, f, w).s, AddProfileCall(req, now, f, w);
            n.meshWanted == WishAfter(c, s, call) && n.fwd == s.fwd && n.dropped == DroppedAfter(c, s, call)
  {
    hide AddProfile, SwitchTo, Modes.Parse, Slug.ValidateName, PS.Load, PS.CheckBundle, Installed, PS.AddedMeta;
    AddProfileIs(c, s, req, now, f, w);
    if Addable(c, s, req) && BothWritten(w) && req.setActive {
      var slug, add := Slug.ValidateName(c.lower, req.name).value, AddRequestOf(c, s, req).value;
      var s1 := s.(disk := Installed(s.disk, slug, req.bytes, PS.AddedMeta(s.disk, slug, add, now), w));
      AddedLoads(c, s, req, now, w);
      LoadIs(c.trust, s1.disk, slug);
      SwitchFlags(c, s1, slug, f, w);
    }
  }

  lemma StoreCallFlags(c: Config, s: State, bytes: Bytes, slug: string, name: string, now: int, w: PS.Faults)
    ensures SameFlags(s, ImportBundle(c, s, bytes, now, w).s)
    ensures SameFlags(s, RenameProfile(c, s, slug, name, now, w).s)
  {
    hide PS.PlanAdd, PlanDefault, PS.PlanRename, PS.Replay, PS.CheckBundle, ReplaceRequest;
  }

  lemma RemoveFlags(c: Config, s: State, slug: string, f: LegFaults, w: PS.Faults)
    ensures var n := RemoveProfile(c, s, slug, f, w).s;
            && n.meshWanted == (s.meshWanted && slug != s.slug) && n.fwd == s.fwd
            && n.dropped == DroppedAfter(c, s, RemoveProfileCall(slug, f, w))
  {
    hide PS.PlanRemove, PS.Replay;
  }

  lemma ChangeModeFlags(c: Config, s: State, m: Mode, now: int, f: LegFaults, w: PS.Faults)
    ensures var n := ChangeMode(c, s, m, now, f, w).s;
            && n.meshWanted == s.meshWanted && n.fwd == s.fwd && n.dropped == DroppedAfterMode(s, m)
  {
    hide PS.PlanUpdateMode, PS.Replay, EnterMode, LeaveMode;
    LeaveModeFlags(s, m, f);
    EnterModeFlags(c, LeaveMode(s, m, f), f);
  }

  function DroppedAfterMode(s: State, m: Mode): seq<MeshHandle>
  {
    if s.mesh.None? || Meshed(s.mode) == Meshed(m) then s.dropped
    else if Meshed(s.mode) then s.dropped + [MeshHandle(Closed, true, s.mesh.value.tried)]
    else s.dropped + [s.mesh.value]
  }

  lemma LeaveModeFlags(s: State, m: Mode, f: LegFaults)
    ensures var n := LeaveMode(s, m, f);
            && n.meshWanted == s.meshWanted && n.fwd == s.fwd
            && (m != s.mode ==> n.dropped == DroppedAfterMode(s, m))
  {
  }

  lemma EnterModeFlags(c: Config, s: State, f: LegFaults)
    ensures SameFlags(s, EnterMode(c, s, f))
  {
  }

  lemma SetRosenpassFlags(c: Config, s: State, r: Rosenpass, now: int, f: LegFaults, w: PS.Faults)
    ensures SameFlags(s, SetRosenpass(c, s, r, now, f, w).s)
  {
    hide PS.PlanUpdateRosenpass, PS.Replay;
  }

  lemma LegCallFlags(c: Config, s: State, f: LegFaults)
    ensures var n := Disconnect(s, f).s;
            SameFlags(s.(meshWanted := WishAfter(c, s, DisconnectCall(f))), n)
    ensures var n := EnableInnerMesh(s, f).s;
            SameFlags(s.(meshWanted := WishAfter(c, s, EnableInnerMeshCall(f))), n)
    ensures SameFlags(s.(meshWanted := false), DisableInnerMesh(s).s)
    ensures SameFlags(s, SuperviseMesh(s, f).s)
    ensures SameFlags(s.(dropped := DroppedAfter(c, s, ShutdownCall(f))), Shutdown(s, f).s)
  {
  }

  /** The wish, the forwarder and the handles let go of after any call, whatever fails. */
  lemma HandleFlags(c: Config, s: State, call: Call)
    requires LegsFit(s)
    ensures var n := Handle(c, s, call).s;
            && n.meshWanted == WishAfter(c, s, call)
            && n.fwd == FwdAfter(s.fwd, call)
            && n.dropped == DroppedAfter(c, s, call)
  {
    hide ImportBundle, AddProfile, RemoveProfile, RenameProfile, SwitchTo, ChangeMode, SetRosenpass, Connect,
      Disconnect, EnableInnerMesh, DisableInnerMesh, SuperviseMesh, Shutdown, Modes.Parse, Addable, PS.Load, LegsFit;
    match call
    case ImportCall(bytes, now, w) => StoreCallFlags(c, s, bytes, "", "", now, w);
    case AddProfileCall(req, now, f, w) => AddProfileFlags(c, s, req, now, f, w);
    case RemoveProfileCall(slug, f, w) => RemoveFlags(c, s, slug, f, w);
    case RenameProfileCall(slug, newName, now, w) => StoreCallFlags(c, s, "", slug, newName, now, w);
    case SetActiveProfileCall(slug, f, w) => SwitchFlags(c, s, slug, f, w);
    case SetModeCall(text, now, f, w) =>
      var m := Modes.Parse(c.lower, text);
      if m.Some? {
        ChangeModeFlags(c, s, m.value, now, f, w);
      }
    case SetRosenpassCall(r, now, f, w) => SetRosenpassFlags(c, s, r, now, f, w);
    case ConnectCall(f) => ConnectWorks(c, s, f);
    case DisconnectCall(f) => LegCallFlags(c, s, f);
    case EnableInnerMeshCall(f) => LegCallFlags(c, s, f);
    case DisableInnerMeshCall => LegCallFlags(c, s, LegFaults(NO_OUTER_FAULTS, Succeeds));
    case SupervisorTick(f) => LegCallFlags(c, s, f);
    case ShutdownCall(f) => LegCallFlags(c, s, f);
    case ListenerHealth(_) =>
    case RunCallback =>
  }

  /** The call may make the mesh wanted. */
  predicate Asks(call: Call)
  {
    call.ConnectCall? || call.EnableInnerMeshCall?
  }

  /**
    In every run a mesh is wanted, and so reconnected by the supervisor, only if
    some Connect or EnableInnerMesh asked for it and no DisableInnerMesh followed.
  */
  lemma {:induction false} WishWasAsked(c: Config, d: PS.Disk, bound: Option<Endpoint>, now: int, w: PS.Faults,
                                        calls: seq<Call>)
    requires Bootable(c, d)
    ensures RunOf(c, d, bound, now, w, calls).meshWanted ==>
              exists i :: 0 <= i < |calls| && Asks(calls[i])
                && forall j :: i < j < |calls| ==> !calls[j].DisableInnerMeshCall?
  {
    hide Handle, LoadPersisted, LegsFit, Bootable, Addable, Loads;
    if calls == [] {
      BootIsIdle(c, d, bound, now, w);
    } else {
      var k := |calls| - 1;
      var front := calls[..k];
      WishWasAsked(c, d, bound, now, w, front);
      RunLegsFit(c, d, bound, now, w, front);
      HandleFlags(c, RunOf(c, d, bound, now, w, front), calls[k]);
      if RunOf(c, d, bound, now, w, calls).meshWanted && !Asks(calls[k]) {
        var i :| 0 <= i < k && Asks(front[i]) && forall j :: i < j < k ==> !front[j].DisableInnerMeshCall?;
        assert Asks(calls[i]);
        assert forall j :: i < j < k ==> calls[j] == front[j];
      }
    }
  }

  // ---- overrides, imports and starts ----

  /**
    A Rosenpass override is in force at once, in memory and, unless the write
    fails, in the active profile's meta; an up mesh of a mesh mode is reconnected
    under it, and no other leg, and nothing else, changes.
  */
  lemma SetRosenpassWorks(c: Config, s: State, r: Rosenpass, now: int, f: LegFaults, w: PS.Faults)
    requires LegsFit(s)
    ensures var n := SetRosenpass(c, s, r, now, f, w);
            var again := (s.mode == NetbirdOnly || s.mode == Combined) && s.bundle.Some? && MeshUp(s);
            && n.ok && n.s == s.(rosenpass := Some(r), mesh := n.s.mesh, disk := n.s.disk)
            && n.s.mesh == (if again then Some(MeshHandle(SettledAs(f.mesh), false, true)) else s.mesh)
            && if s.slug in s.disk.metas && s.slug != "" && !w.writeMeta
               then
                 var was := s.disk.metas[s.slug];
                 n.s.disk == s.disk.(metas := s.disk.metas[s.slug := PS.Meta(
                   was.name, was.mode, was.createdAt, now, Some(r.enabled), Some(r.permissive))])
               else n.s.disk == s.disk
  {
    hide PS.PlanEdit, PS.Replay;
    EditOutcome(s.disk, s.slug, PS.WithRosenpass(Some(r.enabled), Some(r.permissive), now), w);
  }

  /** An import touches no leg; the tunnel it would next connect is the new bundle's, if that has a well-formed one. */
  lemma ImportKeepsLegs(c: Config, s: State, bytes: Bytes, now: int, w: PS.Faults)
    ensures var n := ImportBundle(c, s, bytes, now, w);
            && n.s == s.(disk := n.s.disk, bundle := n.s.bundle, slug := n.s.slug, outer := n.s.outer)
            && n.s.outer.state == s.outer.state && n.s.outer.made == s.outer.made
            && (n.ok ==> Holds(c, n.s, bytes))
            && (!n.ok ==> n.s.outer == s.outer)
  {
    hide PS.PlanAdd, PlanDefault, PS.Replay, PS.CheckBundle, ReplaceRequest;
  }

  /** A replaced profile keeps its name, mode and creation time; a new one is "default" in the current mode. */
  lemma ImportedMeta(c: Config, s: State, bytes: Bytes, now: int, w: PS.Faults)
    requires IsLowerMap(c.lower) && Sane(c, s) && Backed(c, s) && ImportBundle(c, s, bytes, now, w).ok
    ensures var n, was := ImportBundle(c, s, bytes, now, w).s, s.disk.metas;
            && n.slug in n.disk.metas
            && n.disk.metas[n.slug] ==
               PS.Meta(if s.slug != "" then TrimSpace(was[s.slug].name) else "default",
                       if s.slug != "" then was[s.slug].mode else s.mode,
                       if n.slug in was then was[n.slug].createdAt else now, now, None, None)
  {
    hide ImportBundle, PS.CheckBundle, IsLowerMap, StoreReachable, TrimSpace;
    ImportWorks(c, s, bytes, now, w);
    if s.slug != "" {
      ReplacedMeta(c, s, bytes, now, w);
    } else {
      DefaultMeta(c, s, bytes, now, w);
    }
  }

  lemma ReplacedMeta(c: Config, s: State, bytes: Bytes, now: int, w: PS.Faults)
    requires Sane(c, s) && Backed(c, s) && s.slug != "" && ImportBundle(c, s, bytes, now, w).ok
    ensures var n, was := ImportBundle(c, s, bytes, now, w).s, s.disk.metas[s.slug];
            && n.slug == s.slug && s.slug in n.disk.metas
            && n.disk.metas[s.slug] == PS.Meta(TrimSpace(was.name), was.mode, was.createdAt, now, None, None)
  {
    hide PS.PlanAdd, PS.Replay, PS.CheckBundle, PS.AddedMeta, StoreReachable, TrimSpace, Slug.ValidateName;
    var req := ReplaceRequest(s, bytes);
    ReachableIsSound(c.lower, s.disk);
    assert SoundMeta(c.lower, s.slug, s.disk.metas[s.slug]);
    ReplaceOutcome(c, s, bytes, now, w);
    AddMeans(c.trust, s.disk, s.slug, req, now);
    AddOutcome(c.lower, c.trust, s.disk, req, now, w);
  }

  lemma DefaultMeta(c: Config, s: State, bytes: Bytes, now: int, w: PS.Faults)
    requires IsLowerMap(c.lower) && Modes.Valid(s.mode) && s.slug == "" && ImportBundle(c, s, bytes, now, w).ok
    ensures var n, was := ImportBundle(c, s, bytes, now, w).s, s.disk.metas;
            && n.slug == "default" && n.slug in n.disk.metas
            && n.disk.metas[n.slug] ==
               PS.Meta("default", s.mode, if n.slug in was then was[n.slug].createdAt else now, now, None, None)
  {
    hide PS.PlanAdd, PlanDefault, PS.Replay, PS.CheckBundle, IsLowerMap, PS.AddedMeta, TrimSpace, PS.DEFAULT_NAME;
    DefaultIsTrimmed();
    DefaultOutcome(c, s, bytes, now, w);
    AddMeans(c.trust, s.disk, PS.DEFAULT_NAME, DefaultRequest(s, bytes, PS.DEFAULT_NAME in s.disk.metas), now);
  }

  /** After a start no leg is up or wanted, and the tunnel's config is that of the bundle adopted. */
  lemma BootIsIdle(c: Config, d: PS.Disk, bound: Option<Endpoint>, now: int, w: PS.Faults)
    ensures var n := LoadPersisted(c, Fresh(c, d, bound), now, w).s;
            && n.outer.state == Closed && !n.outer.made && !n.meshWanted && !MeshUp(n)
            && n.mesh == (if Meshed(c.startMode) then Some(MeshHandle(Closed, false, false)) else None)
            && n.dropped == [] && n.lastDNS.None? && n.resolver == Restored
            && (n.bundle.Some? ==> Holds(c, n, n.bundle.value))
            && n.fwd.addr == (if c.names then bound else None) && n.fwd.pending == 0
            && (n.fwd.healthy <==> n.fwd.addr.Some?)
  {
    hide PS.PlanMigrate, PS.Replay, PS.Load;
  }
}
