/**
  The daemon over its profile store: whatever handler runs, wherever it stops
  and whatever fails, the disk is one a run of store operations can reach, and
  memory holds either a whole profile or none.
*/
module DaemonProfiles {
  import opened Results
  import opened Modes
  import opened Legs
  import opened Slug
  import PS = ProfileStore
  import opened ProfileSafety
  import opened DaemonModel

  // ---- the disk of a daemon is the disk of some run of store operations ----

  ghost predicate StoreReachable(lower: char -> char, d: PS.Disk)
  {
    exists evs :: Run(lower, evs) == d
  }

  lemma ReachableAfter(lower: char -> char, d: PS.Disk, op: Op, stop: nat)
    requires StoreReachable(lower, d)
    ensures StoreReachable(lower, PS.Replay(d, Upto(StepsOf(lower, d, op), stop)))
  {
    var evs :| Run(lower, evs) == d;
    var more := evs + [Event(op, stop)];
    assert more[..|evs|] == evs;
    assert Run(lower, more) == After(lower, d, Event(op, stop));
  }

  lemma NothingDone(d: PS.Disk, stop: nat)
    ensures PS.Replay(d, Upto([], stop)) == d
  {
    assert Upto([], stop) == [];
  }

  /** A stop inside the first or the second of two operations. */
  lemma UptoAppend(d: PS.Disk, a: seq<PS.Step>, b: seq<PS.Step>, stop: nat)
    ensures PS.Replay(d, Upto(a + b, stop)) ==
            if stop < |a| then PS.Replay(d, Upto(a, stop))
            else PS.Replay(PS.Replay(d, a), Upto(b, stop - |a|))
  {
    if stop < |a| {
      assert Upto(a + b, stop) == Upto(a, stop);
    } else {
      assert Upto(a + b, stop) == a + Upto(b, stop - |a|);
      PS.ReplayAppend(d, a, Upto(b, stop - |a|));
    }
  }

  lemma ReachableAfterTwo(lower: char -> char, d: PS.Disk, op1: Op, op2: Op, stop: nat)
    requires StoreReachable(lower, d)
    ensures var a := StepsOf(lower, d, op1);
            var b := StepsOf(lower, PS.Replay(d, a), op2);
            StoreReachable(lower, PS.Replay(d, Upto(a + b, stop)))
  {
    var a := StepsOf(lower, d, op1);
    var b := StepsOf(lower, PS.Replay(d, a), op2);
    UptoAppend(d, a, b, stop);
    ReachableAfter(lower, d, op1, stop);
    ReachableAfter(lower, d, op1, |a|);
    if stop >= |a| {
      ReachableAfter(lower, PS.Replay(d, a), op2, stop - |a|);
    }
  }

  lemma ReachableAddActive(lower: char -> char, t: PS.Trust, d: PS.Disk, req: PS.AddRequest, now: int, stop: nat,
                           w: PS.Faults)
    requires StoreReachable(lower, d)
    ensures StoreReachable(lower, PS.Replay(d, Upto(PS.PlanAddActive(lower, t, d, req, now, w).steps, stop)))
  {
    hide PS.PlanAdd, PS.PlanSetActive, PS.Replay, StoreReachable;
    var add := AddOp(t, req, now, w);
    var p := PS.PlanAdd(lower, t, d, req, now, w);
    if p.result.Ok? {
      ReachableAfterTwo(lower, d, add, SetActiveOp(p.result.value.slug, w), stop);
    } else {
      ReachableAfter(lower, d, add, stop);
    }
  }

  lemma ReachableSwitch(c: Config, s: State, slug: string, f: LegFaults, stop: nat, w: PS.Faults)
    requires StoreReachable(c.lower, s.disk)
    ensures StoreReachable(c.lower, PS.Replay(s.disk, Upto(SwitchTo(c, s, slug, f, w).steps, stop)))
  {
    ReachableAfter(c.lower, s.disk, SetActiveOp(slug, w), stop);
    assert Upto([], stop) == [];
  }

  lemma ReachableAddProfile(c: Config, s: State, req: AddProfileRequest, now: int, f: LegFaults, stop: nat,
                            w: PS.Faults)
    requires StoreReachable(c.lower, s.disk)
    ensures StoreReachable(c.lower, PS.Replay(s.disk, Upto(AddProfile(c, s, req, now, f, w).steps, stop)))
  {
    var mode := if req.mode == "" then Some(s.mode) else Modes.Parse(c.lower, req.mode);
    if mode.None? {
      assert Upto([], stop) == [];
    } else {
      var add := PS.AddRequest(req.name, mode.value, req.bytes, req.replace);
      var p := PS.PlanAdd(c.lower, c.trust, s.disk, add, now, w);
      ReachableAfter(c.lower, s.disk, AddOp(c.trust, add, now, w), stop);
      if p.result.Ok? && req.setActive {
        var s1, slug := Write(s, p.steps), p.result.value.slug;
        var n := SwitchTo(c, s1, slug, f, w);
        UptoAppend(s.disk, p.steps, n.steps, stop);
        if stop >= |p.steps| {
          ReachableAfter(c.lower, s.disk, AddOp(c.trust, add, now, w), |p.steps|);
          ReachableSwitch(c, s1, slug, f, stop - |p.steps|, w);
        }
      }
    }
  }

  lemma ReachableImport(c: Config, s: State, bytes: Bytes, now: int, stop: nat, w: PS.Faults)
    requires StoreReachable(c.lower, s.disk)
    ensures StoreReachable(c.lower, PS.Replay(s.disk, Upto(ImportBundle(c, s, bytes, now, w).steps, stop)))
  {
    if !PS.Accepts(c.trust, bytes) || c.expired(bytes, now) {
      assert Upto([], stop) == [];
    } else if s.slug != "" {
      ReachableAfter(c.lower, s.disk, AddOp(c.trust, ReplaceRequest(s, bytes), now, w), stop);
    } else {
      ReachableAddActive(c.lower, c.trust, s.disk, PS.AddRequest(PS.DEFAULT_NAME, s.mode, bytes, false), now, stop, w);
      ReachableAddActive(c.lower, c.trust, s.disk, PS.AddRequest(PS.DEFAULT_NAME, s.mode, bytes, true), now, stop, w);
    }
  }

  lemma ReachableChangeMode(c: Config, s: State, m: Mode, now: int, f: LegFaults, stop: nat, w: PS.Faults)
    requires StoreReachable(c.lower, s.disk)
    ensures StoreReachable(c.lower, PS.Replay(s.disk, Upto(ChangeMode(c, s, m, now, f, w).steps, stop)))
  {
    hide EnterMode, LeaveMode, Run, PS.PlanUpdateMode, PS.Replay;
    assert PS.Replay(s.disk, Upto([], stop)) == s.disk by { NothingDone(s.disk, stop); }
    ReachableAfter(c.lower, s.disk, UpdateModeOp(s.slug, m, now, w), stop);
  }

  lemma ReachableSetRosenpass(c: Config, s: State, r: Rosenpass, now: int, f: LegFaults, stop: nat, w: PS.Faults)
    requires StoreReachable(c.lower, s.disk)
    ensures StoreReachable(c.lower, PS.Replay(s.disk, Upto(SetRosenpass(c, s, r, now, f, w).steps, stop)))
  {
    hide BringMeshUp, Run, PS.PlanUpdateRosenpass, PS.Replay;
    assert PS.Replay(s.disk, Upto([], stop)) == s.disk by { NothingDone(s.disk, stop); }
    ReachableAfter(c.lower, s.disk,
                   UpdateRosenpassOp(s.slug, Some(r.enabled), Some(r.permissive), now, w), stop);
  }

  lemma ReachableSetActive(c: Config, s: State, slug: string, f: LegFaults, stop: nat, w: PS.Faults)
    requires StoreReachable(c.lower, s.disk)
    ensures StoreReachable(c.lower, PS.Replay(s.disk, Upto(SetActiveProfile(c, s, slug, f, w).steps, stop)))
  {
    assert Upto([], stop) == [];
    ReachableSwitch(c, s, slug, f, stop, w);
  }

  lemma ReachableRemove(c: Config, s: State, slug: string, f: LegFaults, stop: nat, w: PS.Faults)
    requires StoreReachable(c.lower, s.disk)
    ensures StoreReachable(c.lower, PS.Replay(s.disk, Upto(RemoveProfile(c, s, slug, f, w).steps, stop)))
  {
    ReachableAfter(c.lower, s.disk, RemoveOp(slug, w), stop);
  }

  lemma ReachableRename(c: Config, s: State, slug: string, newName: string, now: int, stop: nat, w: PS.Faults)
    requires StoreReachable(c.lower, s.disk)
    ensures StoreReachable(c.lower, PS.Replay(s.disk, Upto(RenameProfile(c, s, slug, newName, now, w).steps, stop)))
  {
    ReachableAfter(c.lower, s.disk, RenameOp(slug, newName, now, w), stop);
  }

  /** Whatever handler runs and wherever it is stopped, the disk is one a store run can reach. */
  lemma ReachableHandle(c: Config, s: State, call: Call, stop: nat)
    requires StoreReachable(c.lower, s.disk)
    ensures StoreReachable(c.lower, PS.Replay(s.disk, Upto(Handle(c, s, call).steps, stop)))
  {
    hide ImportBundle, AddProfile, RemoveProfile, RenameProfile, SetActiveProfile, ChangeMode, SetRosenpass, PS.Replay,
      StoreReachable, Modes.Parse;
    match call
    case ImportCall(bytes, now, w) => ReachableImport(c, s, bytes, now, stop, w);
    case AddProfileCall(req, now, f, w) => ReachableAddProfile(c, s, req, now, f, stop, w);
    case RemoveProfileCall(slug, f, w) => ReachableRemove(c, s, slug, f, stop, w);
    case RenameProfileCall(slug, name, now, w) => ReachableRename(c, s, slug, name, now, stop, w);
    case SetActiveProfileCall(slug, f, w) => ReachableSetActive(c, s, slug, f, stop, w);
    case SetModeCall(text, now, f, w) =>
      var m := Modes.Parse(c.lower, text);
      if m.Some? {
        ReachableChangeMode(c, s, m.value, now, f, stop, w);
      } else {
        NothingDone(s.disk, stop);
      }
    case SetRosenpassCall(r, now, f, w) => ReachableSetRosenpass(c, s, r, now, f, stop, w);
    case _ =>
      NoSteps(c, s, call);
      NothingDone(s.disk, stop);
  }

  /** The leg handlers touch no file. */
  lemma NoSteps(c: Config, s: State, call: Call)
    requires IsLegCall(call)
    ensures Handle(c, s, call).steps == []
  {
    if call.ConnectCall? || call.DisconnectCall? {
      LegCallsKeepDisk(c, s, call.f);
    }
  }

  // ---- what always holds in memory ----

  /** A known mode, and a slug exactly when there is a bundle. */
  predicate Paired(s: State)
  {
    Modes.Valid(s.mode) && (s.slug == "" <==> s.bundle.None?)
  }

  ghost predicate Sane(c: Config, s: State)
  {
    StoreReachable(c.lower, s.disk) && Paired(s)
  }

  lemma ReachableIsSound(lower: char -> char, d: PS.Disk)
    requires StoreReachable(lower, d)
    ensures Sound(lower, d) && "" !in d.metas
  {
    var evs :| Run(lower, evs) == d;
    EveryMetaIsSound(lower, evs);
    assert "" in d.metas ==> SoundMeta(lower, "", d.metas[""]);
  }

  lemma WholeStepIsReachable(c: Config, s: State, call: Call)
    requires StoreReachable(c.lower, s.disk)
    ensures StoreReachable(c.lower, Handle(c, s, call).s.disk)
  {
    var steps := Handle(c, s, call).steps;
    ReachableHandle(c, s, call, |steps|);
    assert Upto(steps, |steps|) == steps;
    StepsAreTheDiskChange(c, s, call);
  }

  lemma DefaultIsNamed(c: Config, s: State, bytes: Bytes, now: int, w: PS.Faults)
    ensures var p := PlanDefault(c, s, bytes, now, w);
            p.result.Ok? && p.result.value.Some? ==> p.result.value.value != ""
  {
    hide PS.PlanAddActive, PS.Replay, ValidateName, PS.CheckBundle;
    ValidNameIsNotEmpty(c.lower, PS.DEFAULT_NAME);
    AddActiveOutcome(c.lower, c.trust, s.disk, PS.AddRequest(PS.DEFAULT_NAME, s.mode, bytes, false), now, w);
    AddActiveOutcome(c.lower, c.trust, s.disk, PS.AddRequest(PS.DEFAULT_NAME, s.mode, bytes, true), now, w);
  }

  lemma ImportPaired(c: Config, s: State, bytes: Bytes, now: int, w: PS.Faults)
    requires Paired(s)
    ensures Paired(ImportBundle(c, s, bytes, now, w).s)
  {
    hide PS.PlanAdd, PlanDefault, PS.Replay, PS.CheckBundle, ReplaceRequest;
    DefaultIsNamed(c, s, bytes, now, w);
  }

  lemma SwitchPaired(c: Config, s: State, slug: string, f: LegFaults, w: PS.Faults)
    requires Paired(s) && slug != ""
    ensures Paired(SwitchTo(c, s, slug, f, w).s)
  {
    hide PS.PlanSetActive, PS.Replay, BringUp, TearDownMode;
    var target := PS.Load(c.trust, s.disk, slug);
    if target.Ok? {
      var down := if s.slug != "" then TearDownMode(s, s.mode, f) else s;
      BringUpKeepsMemory(c, SwapIn(down, slug, target.value.0, target.value.1), target.value.1, f);
    }
  }

  lemma AddProfilePaired(c: Config, s: State, req: AddProfileRequest, now: int, f: LegFaults, w: PS.Faults)
    requires Paired(s)
    ensures Paired(AddProfile(c, s, req, now, f, w).s)
  {
    hide PS.PlanAdd, PS.Replay, SwitchTo, Modes.Parse, ValidateName;
    var mode := if req.mode == "" then Some(s.mode) else Modes.Parse(c.lower, req.mode);
    if mode.Some? {
      var add := PS.AddRequest(req.name, mode.value, req.bytes, req.replace);
      var p := PS.PlanAdd(c.lower, c.trust, s.disk, add, now, w);
      AddOutcome(c.lower, c.trust, s.disk, add, now, w);
      ValidNameIsNotEmpty(c.lower, req.name);
      if p.result.Ok? && req.setActive {
        SwitchPaired(c, Write(s, p.steps), p.result.value.slug, f, w);
      }
    }
  }

  lemma RemovePaired(c: Config, s: State, slug: string, f: LegFaults, w: PS.Faults)
    requires Paired(s)
    ensures Paired(RemoveProfile(c, s, slug, f, w).s)
  {
    hide PS.PlanRemove, PS.Replay;
  }

  lemma RenamePaired(c: Config, s: State, slug: string, newName: string, now: int, w: PS.Faults)
    requires Sane(c, s)
    ensures Paired(RenameProfile(c, s, slug, newName, now, w).s)
  {
    hide PS.PlanRename, PS.Replay, ValidateName, PS.RenamedMeta, StoreReachable;
    assert "" !in s.disk.metas by { ReachableIsSound(c.lower, s.disk); }
    ValidNameIsNotEmpty(c.lower, newName);
    RenameOutcome(c.lower, s.disk, slug, newName, now, w);
  }

  lemma ChangeModePaired(c: Config, s: State, m: Mode, now: int, f: LegFaults, w: PS.Faults)
    requires Paired(s) && Modes.Valid(m)
    ensures Paired(ChangeMode(c, s, m, now, f, w).s)
  {
    hide PS.PlanUpdateMode, PS.Replay, EnterMode, LeaveMode;
    ModeChangeKeepsMemory(c, s, m, f);
  }

  lemma SetRosenpassPaired(c: Config, s: State, r: Rosenpass, now: int, f: LegFaults, w: PS.Faults)
    requires Paired(s)
    ensures Paired(SetRosenpass(c, s, r, now, f, w).s)
  {
    hide PS.PlanUpdateRosenpass, PS.Replay;
  }

  lemma BringUpKeepsMemory(c: Config, s: State, bundle: Bytes, f: LegFaults)
    ensures var n := BringUp(c, s, bundle, f);
            n.slug == s.slug && n.bundle == s.bundle && n.mode == s.mode && n.disk == s.disk
  {
  }

  lemma ValidNameIsNotEmpty(lower: char -> char, name: string)
    ensures ValidateName(lower, name).Ok? ==> ValidateName(lower, name).value != ""
  {
  }

  lemma ModeChangeKeepsMemory(c: Config, s: State, m: Mode, f: LegFaults)
    ensures var n := EnterMode(c, LeaveMode(s, m, f), f);
            n.disk == s.disk && n.slug == s.slug && n.bundle == s.bundle && n.mode == m
            && n.rosenpass == s.rosenpass
  {
    hide LeaveMode, EnterMode;
    LeaveKeepsMemory(s, m, f);
    EnterKeepsMemory(c, LeaveMode(s, m, f), f);
  }

  lemma LeaveKeepsMemory(s: State, m: Mode, f: LegFaults)
    ensures var n := LeaveMode(s, m, f);
            n.disk == s.disk && n.slug == s.slug && n.bundle == s.bundle && n.mode == m
            && n.rosenpass == s.rosenpass
  {
  }

  lemma EnterKeepsMemory(c: Config, s: State, f: LegFaults)
    ensures var n := EnterMode(c, s, f);
            n.disk == s.disk && n.slug == s.slug && n.bundle == s.bundle && n.mode == s.mode
            && n.rosenpass == s.rosenpass
  {
  }

  /** The leg handlers leave the profile part of the state alone. */
  predicate SameProfile(a: State, b: State)
  {
    a.disk == b.disk && a.mode == b.mode && a.slug == b.slug && a.bundle == b.bundle
    && a.rosenpass == b.rosenpass
  }

  lemma ConnectSameProfile(c: Config, s: State, f: LegFaults)
    ensures SameProfile(s, Connect(c, s, f).s)
  {
    if s.bundle.Some? {
      var n := if IncludesWGCP0(s.mode) then ConnectOuterLeg(c, s, f) else Stay(s, true);
      assert SameProfile(s, n.s);
      assert SameProfile(n.s, ConnectMeshLeg(n.s, f).s);
    }
  }

  lemma DisconnectSameProfile(s: State, f: LegFaults)
    ensures SameProfile(s, Disconnect(s, f).s)
  {
  }

  lemma MeshCallsSameProfile(s: State, f: LegFaults)
    ensures SameProfile(s, EnableInnerMesh(s, f).s)
    ensures SameProfile(s, DisableInnerMesh(s).s)
    ensures SameProfile(s, SuperviseMesh(s, f).s)
  {
  }

  lemma CallbackSameProfile(c: Config, s: State, up: bool)
    ensures SameProfile(s, HealthChange(s, up).s)
    ensures SameProfile(s, HealthCallback(c, s).s)
  {
  }

  /** Whatever is called and whatever fails, memory stays paired and the disk one a store run reaches. */
  lemma HandleKeepsSane(c: Config, s: State, call: Call)
    requires Sane(c, s)
    ensures Sane(c, Handle(c, s, call).s)
  {
    hide ImportBundle, AddProfile, RemoveProfile, RenameProfile, SwitchTo, ChangeMode, SetRosenpass, Connect,
      Disconnect, EnableInnerMesh, DisableInnerMesh, SuperviseMesh, Shutdown, HealthChange, HealthCallback,
      StoreReachable, Modes.Parse;
    WholeStepIsReachable(c, s, call);
    match call
    case ImportCall(bytes, now, w) => ImportPaired(c, s, bytes, now, w);
    case AddProfileCall(req, now, f, w) => AddProfilePaired(c, s, req, now, f, w);
    case RemoveProfileCall(slug, f, w) => RemovePaired(c, s, slug, f, w);
    case RenameProfileCall(slug, newName, now, w) => RenamePaired(c, s, slug, newName, now, w);
    case SetActiveProfileCall(slug, f, w) =>
      if slug != "" {
        SwitchPaired(c, s, slug, f, w);
      }
    case SetModeCall(text, now, f, w) =>
      var m := Modes.Parse(c.lower, text);
      if m.Some? {
        ParseIsValid(c.lower, text);
        ChangeModePaired(c, s, m.value, now, f, w);
      }
    case SetRosenpassCall(r, now, f, w) => SetRosenpassPaired(c, s, r, now, f, w);
    case _ => LegCallsSameProfile(c, s, call);
  }

  predicate IsLegCall(call: Call)
  {
    call.ConnectCall? || call.DisconnectCall? || call.EnableInnerMeshCall? || call.DisableInnerMeshCall?
    || call.SupervisorTick? || call.ShutdownCall? || call.ListenerHealth? || call.RunCallback?
  }

  /** The leg handlers and callbacks change neither the profile in memory nor the disk. */
  lemma LegCallsSameProfile(c: Config, s: State, call: Call)
    requires IsLegCall(call)
    ensures SameProfile(s, Handle(c, s, call).s)
  {
    hide Connect, Disconnect, EnableInnerMesh, DisableInnerMesh, SuperviseMesh, Shutdown, HealthChange, HealthCallback;
    match call
    case ConnectCall(f) => ConnectSameProfile(c, s, f);
    case DisconnectCall(f) => DisconnectSameProfile(s, f);
    case EnableInnerMeshCall(f) => MeshCallsSameProfile(s, f);
    case DisableInnerMeshCall => MeshCallsSameProfile(s, LegFaults(NO_OUTER_FAULTS, Succeeds));
    case SupervisorTick(f) => MeshCallsSameProfile(s, f);
    case ShutdownCall(f) => ShutdownIsFinal(s, f);
    case ListenerHealth(up) => CallbackSameProfile(c, s, up);
    case RunCallback => CallbackSameProfile(c, s, true);
  }

  // ---- starting up ----

  lemma BootSteps(c: Config, d: PS.Disk, bound: Option<Endpoint>, now: int, w: PS.Faults)
    ensures var n := LoadPersisted(c, Fresh(c, d, bound), now, w);
            n.s.disk == PS.Replay(d, n.steps)
  {
  }

  lemma MigrateReachable(c: Config, s: State, now: int, stop: nat, w: PS.Faults)
    requires StoreReachable(c.lower, s.disk)
    ensures StoreReachable(c.lower, PS.Replay(s.disk, Upto(MigrateAndAdopt(c, s, now, w).steps, stop)))
  {
    hide PS.PlanMigrate, PS.Replay;
    ReachableAfter(c.lower, s.disk, MigrateOp(c.trust, c.legacy, s.mode, now, w), stop);
  }

  lemma BootReachable(c: Config, d: PS.Disk, bound: Option<Endpoint>, now: int, stop: nat, w: PS.Faults)
    requires StoreReachable(c.lower, d)
    ensures StoreReachable(c.lower, PS.Replay(d, Upto(LoadPersisted(c, Fresh(c, d, bound), now, w).steps, stop)))
  {
    assert Upto([], stop) == [];
    MigrateReachable(c, Fresh(c, d, bound), now, stop, w);
  }

}
