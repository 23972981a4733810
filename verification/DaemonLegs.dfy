/**
  Which legs are up in which mode, over every run of handler calls and whatever
  leg operations fail, and exactly when a connected mesh handle is lost.
*/
module DaemonLegs {
  import opened Results
  import opened Modes
  import opened Legs
  import opened Text
  import Slug
  import PS = ProfileStore
  import opened ProfileSafety
  import opened DaemonModel
  import opened DaemonProfiles

  predicate MeshUp(s: State)
  {
    s.mesh.Some? && s.mesh.value.state == Up
  }

  /** The held handle was brought up at least once, or an attempt was made. */
  predicate MeshTried(s: State)
  {
    s.mesh.Some? && s.mesh.value.tried
  }

  /**
    A leg is up only in a mode that includes it, the outer one only with a
    profile and a tunnel; a held handle is open, and outside the mode it was
    never brought up.
  */
  predicate LegsFit(s: State)
  {
    && (s.outer.state == Up ==> IncludesWGCP0(s.mode) && s.slug != "" && s.outer.cfg.Some? && s.outer.made)
    && (MeshTried(s) ==> IncludesNetbird(s.mode))
    && (s.mesh.Some? ==> Open(s.mesh.value))
  }

  /** Not closed, and not up without an attempt. */
  predicate Open(h: MeshHandle)
  {
    !h.closed && (h.state != Closed ==> h.tried)
  }

  /** The handles let go of between two states. */
  function LetGoBetween(s: State, n: State): seq<MeshHandle>
    requires s.dropped <= n.dropped
  {
    n.dropped[|s.dropped|..]
  }

  /** A handle may be let go of if it was closed, or never brought up. */
  predicate Settled(h: MeshHandle)
  {
    h.closed || !h.tried
  }

  predicate AllSettled(hs: seq<MeshHandle>)
  {
    forall i :: 0 <= i < |hs| ==> Settled(hs[i])
  }

  /** The state and slug a call hands to the switch, if it gets that far. */
  function Switch(c: Config, s: State, call: Call): Option<(State, string)>
  {
    match call
    case SetActiveProfileCall(slug, _, _) => if slug == "" then None else Some((s, slug))
    case AddProfileCall(req, now, _, w) =>
      var mode := if req.mode == "" then Some(s.mode) else Modes.Parse(c.lower, req.mode);
      if mode.None? || !req.setActive then None
      else
        var p := PS.PlanAdd(c.lower, c.trust, s.disk,
                            PS.AddRequest(req.name, mode.value, req.bytes, req.replace), now, w);
        if p.result.Err? then None else Some((Write(s, p.steps), p.result.value.slug))
    case _ => None
  }

  /** No profile is active, the held mesh was brought up, and the switch is to a loadable profile without the mesh. */
  predicate SwitchLoses(c: Config, s: State, slug: string)
  {
    var target := PS.Load(c.trust, s.disk, slug);
    s.slug == "" && MeshTried(s) && target.Ok? && !IncludesNetbird(TargetMode(target.value.0))
  }

  predicate Loses(c: Config, s: State, call: Call)
  {
    var sw := Switch(c, s, call);
    sw.Some? && SwitchLoses(c, sw.value.0, sw.value.1)
  }

  // ---- one handler at a time ----

  /** What a handler owes: legs still fit, and the handles it let go of are settled unless `lost`. */
  ghost predicate Keeps(s: State, n: State, lost: bool)
  {
    LegsFit(n) && s.dropped <= n.dropped && (AllSettled(LetGoBetween(s, n)) <==> !lost)
  }

  lemma SwitchKeeps(c: Config, s: State, slug: string, f: LegFaults, w: PS.Faults)
    requires LegsFit(s) && slug != ""
    ensures Keeps(s, SwitchTo(c, s, slug, f, w).s, SwitchLoses(c, s, slug))
  {
    hide PS.Replay, PS.PlanSetActive, ApplyDns;
    var target := PS.Load(c.trust, s.disk, slug);
    if target.Ok? {
      var down := if s.slug != "" then TearDownMode(s, s.mode, f) else s;
      var swapped := SwapIn(down, slug, target.value.0, target.value.1);
      TearDownLegs(s, f);
      SwapInLegs(s, down, slug, target.value.0, target.value.1);
      BringUpLegs(c, swapped, target.value.1, f);
    }
  }

  /** After the teardown of the current mode both legs are down and the handle was released. */
  lemma TearDownLegs(s: State, f: LegFaults)
    requires LegsFit(s)
    ensures var d := TearDownMode(s, s.mode, f);
            d.outer.state != Up && !MeshTried(d) && d.slug == s.slug && d.mode == s.mode
            && (d.mesh.Some? ==> Open(d.mesh.value))
            && s.dropped <= d.dropped && AllSettled(LetGoBetween(s, d))
  {
  }

  lemma SwapInLegs(s: State, down: State, slug: string, m: PS.Meta, bundle: Bytes)
    requires s.dropped <= down.dropped && AllSettled(LetGoBetween(s, down))
    requires down.outer.state != Up && (down.mesh.Some? ==> Open(down.mesh.value))
    ensures var n := SwapIn(down, slug, m, bundle);
            && n.mode == TargetMode(m) && n.slug == slug && n.outer == down.outer
            && (n.mesh.Some? <==> IncludesNetbird(n.mode))
            && (n.mesh.Some? ==> Open(n.mesh.value))
            && s.dropped <= n.dropped
            && (AllSettled(LetGoBetween(s, n)) <==> !(MeshTried(down) && !IncludesNetbird(n.mode)))
  {
    var n := SwapIn(down, slug, m, bundle);
    if down.mesh.Some? && !IncludesNetbird(TargetMode(m)) {
      assert LetGoBetween(s, n) == LetGoBetween(s, down) + [down.mesh.value];
      assert LetGoBetween(s, n)[|LetGoBetween(s, down)|] == down.mesh.value;
    }
  }

  lemma BringUpLegs(c: Config, s: State, bundle: Bytes, f: LegFaults)
    requires s.outer.state != Up && s.slug != ""
    requires s.mesh.Some? ==> Open(s.mesh.value) && IncludesNetbird(s.mode)
    ensures var n := BringUp(c, s, bundle, f);
            LegsFit(n) && n.dropped == s.dropped && n.slug == s.slug && n.mode == s.mode
  {
  }

  lemma AddedSlug(c: Config, s: State, req: PS.AddRequest, now: int, w: PS.Faults)
    ensures var p := PS.PlanAdd(c.lower, c.trust, s.disk, req, now, w);
            p.result.Ok? ==> p.result.value.slug != ""
  {
    hide PS.CheckBundle;
    ValidNameIsNotEmpty(c.lower, req.name);
  }

  lemma AddProfileKeeps(c: Config, s: State, req: AddProfileRequest, now: int, f: LegFaults, w: PS.Faults)
    requires LegsFit(s)
    ensures Keeps(s, AddProfile(c, s, req, now, f, w).s, Loses(c, s, AddProfileCall(req, now, f, w)))
  {
    hide SwitchTo, SwitchLoses, PS.Replay, PS.PlanAdd, Modes.Parse;
    var mode := if req.mode == "" then Some(s.mode) else Modes.Parse(c.lower, req.mode);
    if mode.Some? {
      var p := PS.PlanAdd(c.lower, c.trust, s.disk,
                          PS.AddRequest(req.name, mode.value, req.bytes, req.replace), now, w);
      if p.result.Ok? && req.setActive {
        AddedSlug(c, s, PS.AddRequest(req.name, mode.value, req.bytes, req.replace), now, w);
        SwitchKeeps(c, Write(s, p.steps), p.result.value.slug, f, w);
      }
    }
  }

  lemma RemoveKeeps(c: Config, s: State, slug: string, f: LegFaults, w: PS.Faults)
    requires LegsFit(s)
    ensures Keeps(s, RemoveProfile(c, s, slug, f, w).s, false)
  {
    hide PS.Replay, PS.PlanRemove;
    var t := TearDownAll(s, f);
    assert t.outer.state != Up && t.mesh.None? && s.dropped <= t.dropped;
    assert AllSettled(LetGoBetween(s, t));
  }

  lemma RenameKeeps(c: Config, s: State, slug: string, newName: string, now: int, w: PS.Faults)
    requires LegsFit(s)
    ensures Keeps(s, RenameProfile(c, s, slug, newName, now, w).s, false)
  {
    hide PS.Replay;
    ValidNameIsNotEmpty(c.lower, newName);
  }

  lemma ImportKeeps(c: Config, s: State, bytes: Bytes, now: int, w: PS.Faults)
    requires LegsFit(s)
    ensures Keeps(s, ImportBundle(c, s, bytes, now, w).s, false)
  {
    hide PS.Replay, PS.PlanAdd, PlanDefault, PS.Accepts;
    assert s.outer.state == Up ==> s.slug != "";
  }

  lemma LeaveModeLegs(s: State, m: Mode, f: LegFaults)
    requires LegsFit(s)
    ensures var n := LeaveMode(s, m, f);
            && (n.outer.state == Up ==> IncludesWGCP0(m) && s.slug != "" && n.outer.cfg.Some? && n.outer.made)
            && (MeshTried(n) ==> IncludesNetbird(m)) && (n.mesh.Some? ==> Open(n.mesh.value))
            && n.mode == m && n.slug == s.slug && n.bundle == s.bundle
            && s.dropped <= n.dropped && AllSettled(LetGoBetween(s, n))
  {
  }

  lemma ChangeModeKeeps(c: Config, s: State, m: Mode, now: int, f: LegFaults, w: PS.Faults)
    requires LegsFit(s) && (s.slug == "" ==> s.bundle.None?)
    ensures Keeps(s, ChangeMode(c, s, m, now, f, w).s, false)
  {
    hide PS.Replay, PS.PlanUpdateMode, LeaveMode;
    LeaveModeLegs(s, m, f);
    var l := LeaveMode(s, m, f);
    var e := EnterMode(c, l, f);
    assert LegsFit(e) && e.dropped == l.dropped;
  }

  lemma SetRosenpassKeeps(c: Config, s: State, r: Rosenpass, now: int, f: LegFaults, w: PS.Faults)
    requires LegsFit(s)
    ensures Keeps(s, SetRosenpass(c, s, r, now, f, w).s, false)
  {
    hide PS.Replay, PS.PlanUpdateRosenpass;
  }

  /** Applying host DNS changes nothing but the resolver and what is remembered of it. */
  lemma ApplyDnsFrame(c: Config, s: State, cfg: TunnelConfig)
    ensures var n := ApplyDns(c, s, cfg); n == s.(lastDNS := n.lastDNS, resolver := n.resolver)
  {
  }

  lemma ConnectOuterKeeps(c: Config, s: State, f: LegFaults)
    requires LegsFit(s) && s.bundle.Some? && s.slug != "" && IncludesWGCP0(s.mode)
    ensures var n := ConnectOuterLeg(c, s, f).s; LegsFit(n) && n.dropped == s.dropped && SameProfile(s, n)
  {
    hide ApplyDns;
    var cfg := c.tunnelOf(s.bundle.value);
    if cfg.Some? {
      ApplyDnsFrame(c, BringOuterUp(s, cfg.value, f), cfg.value);
    }
  }

  lemma ConnectMeshKeeps(s: State, f: LegFaults)
    requires LegsFit(s) && IncludesNetbird(s.mode)
    ensures var n := ConnectMeshLeg(s, f).s; LegsFit(n) && n.dropped == s.dropped
  {
  }

  lemma ConnectKeeps(c: Config, s: State, f: LegFaults)
    requires LegsFit(s) && (s.slug == "" ==> s.bundle.None?)
    ensures Keeps(s, Connect(c, s, f).s, false)
  {
    hide ConnectOuterLeg, ConnectMeshLeg;
    if s.bundle.Some? {
      var n := Stay(s, true);
      if IncludesWGCP0(s.mode) {
        n := ConnectOuterLeg(c, s, f);
        ConnectOuterKeeps(c, s, f);
      }
      if n.ok && IncludesNetbird(s.mode) {
        ConnectMeshKeeps(n.s, f);
      }
    }
  }

  lemma DisconnectKeeps(s: State, f: LegFaults)
    requires LegsFit(s)
    ensures Keeps(s, Disconnect(s, f).s, false)
  {
  }

  lemma ShutdownKeeps(s: State, f: LegFaults)
    requires LegsFit(s)
    ensures Keeps(s, Shutdown(s, f).s, false)
  {
  }

  lemma MeshCallsKeep(s: State, f: LegFaults)
    requires LegsFit(s)
    ensures Keeps(s, EnableInnerMesh(s, f).s, false)
    ensures Keeps(s, DisableInnerMesh(s).s, false)
    ensures Keeps(s, SuperviseMesh(s, f).s, false)
  {
  }

  lemma HealthCallsKeep(c: Config, s: State, up: bool)
    requires LegsFit(s)
    ensures Keeps(s, HealthChange(s, up).s, false)
    ensures Keeps(s, HealthCallback(c, s).s, false)
  {
  }

  /**
    Every handler keeps the legs fitting the mode, whatever leg operations fail,
    and lets go of a handle that was brought up and not closed exactly when it
    switches, with no profile active, from such a handle to a profile without
    the mesh.
  */
  lemma HandleKeepsLegs(c: Config, s: State, call: Call)
    requires LegsFit(s) && (s.slug == "" ==> s.bundle.None?)
    ensures Keeps(s, Handle(c, s, call).s, Loses(c, s, call))
  {
    hide Keeps, ImportBundle, AddProfile, RemoveProfile, RenameProfile, ChangeMode, SetRosenpass, Connect, Disconnect,
      EnableInnerMesh, DisableInnerMesh, SuperviseMesh, Shutdown, HealthChange, HealthCallback, SwitchTo,
      SwitchLoses, PS.PlanAdd,
      Modes.Parse;
    match call
    case ImportCall(bytes, now, w) => ImportKeeps(c, s, bytes, now, w);
    case AddProfileCall(req, now, f, w) => AddProfileKeeps(c, s, req, now, f, w);
    case RemoveProfileCall(slug, f, w) => RemoveKeeps(c, s, slug, f, w);
    case RenameProfileCall(slug, newName, now, w) => RenameKeeps(c, s, slug, newName, now, w);
    case SetActiveProfileCall(slug, f, w) =>
      if slug != "" {
        SwitchKeeps(c, s, slug, f, w);
      } else {
        StayKeeps(s);
      }
    case SetModeCall(text, now, f, w) =>
      var m := Modes.Parse(c.lower, text);
      if m.Some? {
        ChangeModeKeeps(c, s, m.value, now, f, w);
      } else {
        StayKeeps(s);
      }
    case SetRosenpassCall(r, now, f, w) => SetRosenpassKeeps(c, s, r, now, f, w);
    case ConnectCall(f) => ConnectKeeps(c, s, f);
    case DisconnectCall(f) => DisconnectKeeps(s, f);
    case EnableInnerMeshCall(f) => MeshCallsKeep(s, f);
    case DisableInnerMeshCall => MeshCallsKeep(s, LegFaults(NO_OUTER_FAULTS, Succeeds));
    case SupervisorTick(f) => MeshCallsKeep(s, f);
    case ShutdownCall(f) => ShutdownKeeps(s, f);
    case ListenerHealth(up) => HealthCallsKeep(c, s, up);
    case RunCallback => HealthCallsKeep(c, s, true);
  }

  lemma StayKeeps(s: State)
    requires LegsFit(s)
    ensures Keeps(s, s, false)
  {
  }

  // ---- whole runs ----

  lemma BootLegs(c: Config, d: PS.Disk, bound: Option<Endpoint>, now: int, w: PS.Faults)
    ensures var s := LoadPersisted(c, Fresh(c, d, bound), now, w).s;
            LegsFit(s) && !MeshTried(s) && s.outer.state != Up && s.dropped == []
  {
    hide PS.Replay, PS.PlanMigrate;
  }

  /** A process of the given configuration, booted on a disk some store run reaches, and served these calls. */
  function RunOf(c: Config, d: PS.Disk, bound: Option<Endpoint>, now: int, w: PS.Faults, calls: seq<Call>): State
  {
    Served(c, LoadPersisted(c, Fresh(c, d, bound), now, w).s, calls)
  }

  ghost predicate Bootable(c: Config, d: PS.Disk)
  {
    IsLowerMap(c.lower) && Modes.Valid(c.startMode) && StoreReachable(c.lower, d)
  }

  lemma BootSane(c: Config, d: PS.Disk, bound: Option<Endpoint>, now: int, w: PS.Faults)
    requires Bootable(c, d)
    ensures Sane(c, LoadPersisted(c, Fresh(c, d, bound), now, w).s)
  {
    hide IsLowerMap, StoreReachable, MigrateAndAdopt;
    var s := Fresh(c, d, bound);
    var n := LoadPersisted(c, s, now, w);
    BootReachable(c, d, bound, now, |n.steps|, w);
    BootSteps(c, d, bound, now, w);
    assert Upto(n.steps, |n.steps|) == n.steps;
    MigratePaired(c, s, now, w);
  }

  lemma MigratePaired(c: Config, s: State, now: int, w: PS.Faults)
    requires Modes.Valid(s.mode) && s.slug == "" && s.bundle.None?
    ensures Paired(MigrateAndAdopt(c, s, now, w).s)
  {
    hide PS.PlanAddActive, PS.Replay, Slug.ValidateName;
    if c.legacy.Some? {
      ValidNameIsNotEmpty(c.lower, PS.DEFAULT_NAME);
      AddActiveOutcome(c.lower, c.trust, s.disk, PS.AddRequest(PS.DEFAULT_NAME, s.mode, c.legacy.value, false), now, w);
    }
  }

  lemma {:induction false} RunSane(c: Config, d: PS.Disk, bound: Option<Endpoint>, now: int, w: PS.Faults,
                                   calls: seq<Call>)
    requires Bootable(c, d)
    ensures Sane(c, RunOf(c, d, bound, now, w, calls))
  {
    hide Handle, LoadPersisted, Sane;
    if calls == [] {
      BootSane(c, d, bound, now, w);
    } else {
      var front := calls[..|calls| - 1];
      RunSane(c, d, bound, now, w, front);
      HandleKeepsSane(c, RunOf(c, d, bound, now, w, front), calls[|calls| - 1]);
    }
  }

  /** In every run of handler calls, with legs failing in any way, each leg is up only in modes that include it. */
  lemma {:induction false} RunLegsFit(c: Config, d: PS.Disk, bound: Option<Endpoint>, now: int, w: PS.Faults,
                                      calls: seq<Call>)
    requires Bootable(c, d)
    ensures LegsFit(RunOf(c, d, bound, now, w, calls))
  {
    hide Handle, LoadPersisted, LegsFit, Bootable;
    if calls == [] {
      BootLegs(c, d, bound, now, w);
    } else {
      var front := calls[..|calls| - 1];
      RunLegsFit(c, d, bound, now, w, front);
      RunSane(c, d, bound, now, w, front);
      HandleKeepsLegs(c, RunOf(c, d, bound, now, w, front), calls[|calls| - 1]);
    }
  }

  /** EnableInnerMesh is called only while a profile is active. */
  predicate NeverEnabledBare(c: Config, d: PS.Disk, bound: Option<Endpoint>, now: int, w: PS.Faults, calls: seq<Call>)
  {
    forall i :: 0 <= i < |calls| && calls[i].EnableInnerMeshCall? ==> RunOf(c, d, bound, now, w, calls[..i]).slug != ""
  }

  /** Only EnableInnerMesh brings the mesh up without a profile. */
  lemma MeshNeedsProfile(c: Config, s: State, call: Call)
    requires Sane(c, s) && LegsFit(s)
    requires (MeshTried(s) ==> s.slug != "") && (call.EnableInnerMeshCall? ==> s.slug != "")
    ensures var n := Handle(c, s, call).s; MeshTried(n) ==> n.slug != ""
  {
    hide ImportBundle, AddProfile, RemoveProfile, RenameProfile, ChangeMode, SetRosenpass, Connect, Disconnect,
      EnableInnerMesh, DisableInnerMesh, SuperviseMesh, Shutdown, HealthChange, HealthCallback, SwitchTo, Modes.Parse,
      StoreReachable;
    match call
    case ImportCall(bytes, now, w) => ImportMesh(c, s, bytes, now, w);
    case AddProfileCall(req, now, f, w) => AddProfileMesh(c, s, req, now, f, w);
    case RemoveProfileCall(slug, f, w) => RemoveMesh(c, s, slug, f, w);
    case RenameProfileCall(slug, newName, now, w) => RenameMesh(c, s, slug, newName, now, w);
    case SetActiveProfileCall(slug, f, w) =>
      if slug != "" {
        SwitchMesh(c, s, slug, f, w);
      }
    case SetModeCall(text, now, f, w) =>
      var m := Modes.Parse(c.lower, text);
      if m.Some? {
        ChangeModeMesh(c, s, m.value, now, f, w);
      }
    case SetRosenpassCall(r, now, f, w) => SetRosenpassMesh(c, s, r, now, f, w);
    case ConnectCall(f) => ConnectMesh(c, s, f);
    case DisconnectCall(f) => LegCallsMesh(c, s, f, true);
    case EnableInnerMeshCall(f) => MeshCallsSameProfile(s, f);
    case DisableInnerMeshCall => LegCallsMesh(c, s, LegFaults(NO_OUTER_FAULTS, Succeeds), true);
    case SupervisorTick(f) => LegCallsMesh(c, s, f, true);
    case ShutdownCall(f) => ShutdownIsFinal(s, f);
    case ListenerHealth(up) => LegCallsMesh(c, s, LegFaults(NO_OUTER_FAULTS, Succeeds), up);
    case RunCallback => LegCallsMesh(c, s, LegFaults(NO_OUTER_FAULTS, Succeeds), true);
  }

  lemma SetRosenpassMesh(c: Config, s: State, r: Rosenpass, now: int, f: LegFaults, w: PS.Faults)
    requires (MeshTried(s) ==> s.slug != "") && (s.slug == "" ==> s.bundle.None?)
    ensures var n := SetRosenpass(c, s, r, now, f, w).s; MeshTried(n) ==> n.slug != ""
  {
    hide PS.Replay, PS.PlanUpdateRosenpass;
  }

  lemma ConnectMesh(c: Config, s: State, f: LegFaults)
    requires (MeshTried(s) ==> s.slug != "") && (s.slug == "" ==> s.bundle.None?)
    ensures var n := Connect(c, s, f).s; MeshTried(n) ==> n.slug != ""
  {
    hide Connect;
    if s.bundle.Some? {
      ConnectSameProfile(c, s, f);
    } else {
      NoBundleNoConnect(c, s, f);
    }
  }

  lemma NoBundleNoConnect(c: Config, s: State, f: LegFaults)
    requires s.bundle.None?
    ensures Connect(c, s, f) == Stay(s, false)
  {
  }

  lemma LegCallsMesh(c: Config, s: State, f: LegFaults, up: bool)
    requires (MeshTried(s) ==> s.slug != "") && (s.slug == "" ==> s.bundle.None?)
    ensures var n := Disconnect(s, f).s; MeshTried(n) ==> n.slug != ""
    ensures var n := DisableInnerMesh(s).s; MeshTried(n) ==> n.slug != ""
    ensures var n := SuperviseMesh(s, f).s; MeshTried(n) ==> n.slug != ""
    ensures var n := HealthChange(s, up).s; MeshTried(n) ==> n.slug != ""
    ensures var n := HealthCallback(c, s).s; MeshTried(n) ==> n.slug != ""
  {
  }

  lemma ImportMesh(c: Config, s: State, bytes: Bytes, now: int, w: PS.Faults)
    requires MeshTried(s) ==> s.slug != ""
    ensures var n := ImportBundle(c, s, bytes, now, w).s; MeshTried(n) ==> n.slug != ""
  {
    hide PS.Replay, PS.PlanAdd, PlanDefault, PS.Accepts;
    assert ConfigureFrom(c, s, bytes).mesh == s.mesh;
  }

  lemma SwitchMesh(c: Config, s: State, slug: string, f: LegFaults, w: PS.Faults)
    requires slug != "" && (MeshTried(s) ==> s.slug != "")
    ensures var n := SwitchTo(c, s, slug, f, w).s; MeshTried(n) ==> n.slug != ""
  {
    hide PS.Replay, PS.PlanSetActive, ApplyDns;
    var target := PS.Load(c.trust, s.disk, slug);
    if target.Ok? {
      var down := if s.slug != "" then TearDownMode(s, s.mode, f) else s;
      BringUpKeepsMemory(c, SwapIn(down, slug, target.value.0, target.value.1), target.value.1, f);
    }
  }

  lemma AddProfileMesh(c: Config, s: State, req: AddProfileRequest, now: int, f: LegFaults, w: PS.Faults)
    requires MeshTried(s) ==> s.slug != ""
    ensures var n := AddProfile(c, s, req, now, f, w).s; MeshTried(n) ==> n.slug != ""
  {
    hide SwitchTo, PS.Replay, Modes.Parse;
    var mode := if req.mode == "" then Some(s.mode) else Modes.Parse(c.lower, req.mode);
    if mode.Some? {
      var p := PS.PlanAdd(c.lower, c.trust, s.disk,
                          PS.AddRequest(req.name, mode.value, req.bytes, req.replace), now, w);
      if p.result.Ok? && req.setActive {
        ValidNameIsNotEmpty(c.lower, req.name);
        SwitchMesh(c, Write(s, p.steps), p.result.value.slug, f, w);
      }
    }
  }

  lemma RemoveMesh(c: Config, s: State, slug: string, f: LegFaults, w: PS.Faults)
    requires MeshTried(s) ==> s.slug != ""
    ensures var n := RemoveProfile(c, s, slug, f, w).s; MeshTried(n) ==> n.slug != ""
  {
    hide PS.Replay, PS.PlanRemove;
    assert TearDownAll(s, f).mesh.None?;
  }

  lemma RenameMesh(c: Config, s: State, slug: string, newName: string, now: int, w: PS.Faults)
    requires MeshTried(s) ==> s.slug != ""
    ensures var n := RenameProfile(c, s, slug, newName, now, w).s; MeshTried(n) ==> n.slug != ""
  {
    hide PS.Replay;
    ValidNameIsNotEmpty(c.lower, newName);
  }

  lemma ChangeModeMesh(c: Config, s: State, m: Mode, now: int, f: LegFaults, w: PS.Faults)
    requires (MeshTried(s) ==> s.slug != "") && (s.slug == "" ==> s.bundle.None?)
    ensures var n := ChangeMode(c, s, m, now, f, w).s; MeshTried(n) ==> n.slug != ""
  {
    hide PS.Replay, PS.PlanUpdateMode;
    var l := LeaveMode(s, m, f);
    assert (MeshTried(l) ==> l.slug != "") && l.slug == s.slug && l.bundle == s.bundle;
  }

  /**
    And then every handle ever let go of was closed first, or never brought up;
    a mesh is brought up only with a profile.
  */
  lemma {:induction false} RunLosesNoMesh(c: Config, d: PS.Disk, bound: Option<Endpoint>, now: int, w: PS.Faults,
                                          calls: seq<Call>)
    requires Bootable(c, d) && NeverEnabledBare(c, d, bound, now, w, calls)
    ensures var s := RunOf(c, d, bound, now, w, calls);
            AllSettled(s.dropped) && (MeshTried(s) ==> s.slug != "")
  {
    hide Handle, LoadPersisted, LegsFit, Loses, StoreReachable;
    if calls == [] {
      BootLegs(c, d, bound, now, w);
    } else {
      var front, call := calls[..|calls| - 1], calls[|calls| - 1];
      assert forall i :: 0 <= i < |front| ==> front[..i] == calls[..i];
      RunLosesNoMesh(c, d, bound, now, w, front);
      RunSane(c, d, bound, now, w, front);
      RunLegsFit(c, d, bound, now, w, front);
      var s := RunOf(c, d, bound, now, w, front);
      var n := Handle(c, s, call).s;
      HandleKeepsLegs(c, s, call);
      MeshNeedsProfile(c, s, call);
      NothingToLose(c, s, call);
      assert n.dropped == s.dropped + LetGoBetween(s, n);
    }
  }

  lemma NothingToLose(c: Config, s: State, call: Call)
    requires MeshTried(s) ==> s.slug != ""
    ensures !Loses(c, s, call)
  {
    hide PS.PlanAdd, PS.Replay, PS.Load, Modes.Parse;
  }

  /** The proviso is needed: bring the mesh up with no profile, then switch to an outer-only profile. */
  lemma EnabledBareLoses(c: Config, s: State, slug: string, f: LegFaults, f': LegFaults, w: PS.Faults)
    requires s.slug == "" && IncludesNetbird(s.mode) && s.mesh == Some(FRESH_MESH) && f.mesh.Succeeds?
    requires slug != "" && PS.Load(c.trust, s.disk, slug).Ok?
    requires PS.Load(c.trust, s.disk, slug).value.0.mode == WGCP0Only
    ensures var n := Served(c, s, [EnableInnerMeshCall(f), SetActiveProfileCall(slug, f', w)]);
            s.dropped <= n.dropped && LetGoBetween(s, n) == [MeshHandle(Up, false, true)]
  {
    hide PS.Replay;
    var calls := [EnableInnerMeshCall(f), SetActiveProfileCall(slug, f', w)];
    assert calls[..1] == [EnableInnerMeshCall(f)] && calls[..1][..0] == [];
    var s1 := EnableInnerMesh(s, f).s;
    assert Served(c, s, calls[..1]) == s1;
    var target := PS.Load(c.trust, s.disk, slug);
    var swapped := SwapIn(s1, slug, target.value.0, target.value.1);
    BringUpDropsNothing(c, swapped, target.value.1, f');
    var n := SwitchTo(c, s1, slug, f', w).s;
    assert n.dropped == s.dropped + [MeshHandle(Up, false, true)];
    assert !Settled(LetGoBetween(s, n)[0]) && LetGoBetween(s, n)[0].state == Up;
  }

  /** A disk with one outer-only profile and no marker. */
  function OuterOnlyDisk(c: Config, name: string, bytes: Bytes, at: int): PS.Disk
  {
    var req := PS.AddRequest(name, WGCP0Only, bytes, false);
    PS.Replay(PS.EMPTY_DISK, PS.PlanAdd(c.lower, c.trust, PS.EMPTY_DISK, req, at, PS.NO_FAULTS).steps)
  }

  /**
    A run that does so: add an outer-only profile to an empty store, start in a
    mode with the mesh, enable it with no profile active, and switch to that
    profile.  The mesh is let go of connected.
  */
  lemma BareRunLoses(c: Config, name: string, bytes: Bytes, at: int, bound: Option<Endpoint>, now: int, w: PS.Faults,
                     f: LegFaults, f': LegFaults, w': PS.Faults)
    requires Slug.ValidateName(c.lower, name).Ok? && PS.Accepts(c.trust, bytes)
    requires IncludesNetbird(c.startMode) && f.mesh.Succeeds?
    ensures var d, slug := OuterOnlyDisk(c, name, bytes, at), Slug.ValidateName(c.lower, name).value;
            var calls := [EnableInnerMeshCall(f), SetActiveProfileCall(slug, f', w')];
            StoreReachable(c.lower, d) && RunOf(c, d, bound, now, w, calls).dropped == [MeshHandle(Up, false, true)]
  {
    hide Slug.ValidateName, PS.PlanAdd, SwitchTo, PS.CheckBundle;
    var d, slug := OuterOnlyDisk(c, name, bytes, at), Slug.ValidateName(c.lower, name).value;
    var req := PS.AddRequest(name, WGCP0Only, bytes, false);
    OuterOnlyLoads(c, name, bytes, at);
    ValidNameIsNotEmpty(c.lower, name);
    ReachableEmpty(c.lower);
    ReachableAfter(c.lower, PS.EMPTY_DISK, AddOp(c.trust, req, at, PS.NO_FAULTS),
                   |PS.PlanAdd(c.lower, c.trust, PS.EMPTY_DISK, req, at, PS.NO_FAULTS).steps|);
    UnmarkedBoot(c, d, bound, now, w);
    EnabledBareLoses(c, Fresh(c, d, bound), slug, f, f', w');
  }

  lemma ReachableEmpty(lower: char -> char)
    ensures StoreReachable(lower, PS.EMPTY_DISK)
  {
    assert Run(lower, []) == PS.EMPTY_DISK;
  }

  lemma OuterOnlyLoads(c: Config, name: string, bytes: Bytes, at: int)
    requires Slug.ValidateName(c.lower, name).Ok? && PS.Accepts(c.trust, bytes)
    ensures var d, slug := OuterOnlyDisk(c, name, bytes, at), Slug.ValidateName(c.lower, name).value;
            && d.marker == "" && d.metas != map[]
            && PS.Load(c.trust, d, slug).Ok? && PS.Load(c.trust, d, slug).value.0.mode == WGCP0Only
  {
    hide Slug.ValidateName, PS.PlanAdd, PS.Replay;
    AddOutcome(c.lower, c.trust, PS.EMPTY_DISK, PS.AddRequest(name, WGCP0Only, bytes, false), at, PS.NO_FAULTS);
    assert Slug.ValidateName(c.lower, name).value in OuterOnlyDisk(c, name, bytes, at).metas;
  }

  /** With profiles but no marker a start adopts none. */
  lemma UnmarkedBoot(c: Config, d: PS.Disk, bound: Option<Endpoint>, now: int, w: PS.Faults)
    requires d.marker == "" && d.metas != map[]
    ensures LoadPersisted(c, Fresh(c, d, bound), now, w).s == Fresh(c, d, bound)
  {
    PS.ReplayNothing(d);
  }

  lemma BringUpDropsNothing(c: Config, s: State, bundle: Bytes, f: LegFaults)
    ensures BringUp(c, s, bundle, f).dropped == s.dropped
  {
  }
}
