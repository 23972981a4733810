/**
  Whole lives of a machine: calls, stops inside handlers and while starting,
  and restarts, with file writes failing anywhere.
*/
module DaemonHistories {
  import opened Results
  import opened Modes
  import opened Legs
  import opened Text
  import Slug
  import PS = ProfileStore
  import opened ProfileSafety
  import opened DaemonModel
  import opened DaemonProfiles
  import opened DaemonSync

  /** A live process with its configuration, or just the disk it left. */
  datatype System = Running(c: Config, s: State) | Down(disk: PS.Disk)

  datatype Happening =
    | Serves(call: Call)
    | StopsIn(call: Call, after: nat)
    | Boots(c: Config, bound: Option<Endpoint>, now: int, w: PS.Faults)
    | StopsBooting(c: Config, now: int, after: nat, w: PS.Faults)

  function Proceed(sys: System, h: Happening): System
  {
    match (sys, h)
    case (Running(c, s), Serves(call)) => Running(c, Handle(c, s, call).s)
    case (Running(c, s), StopsIn(call, k)) => Down(PS.Replay(s.disk, Upto(Handle(c, s, call).steps, k)))
    case (Down(d), Boots(c, bound, now, w)) => Running(c, LoadPersisted(c, Fresh(c, d, bound), now, w).s)
    case (Down(d), StopsBooting(c, now, k, w)) =>
      Down(PS.Replay(d, Upto(LoadPersisted(c, Fresh(c, d, None), now, w).steps, k)))
    case _ => sys
  }

  function History(hs: seq<Happening>): System
  {
    if hs == [] then Down(PS.EMPTY_DISK) else Proceed(History(hs[..|hs| - 1]), hs[|hs| - 1])
  }

  /** Every configuration the machine is booted with maps case lawfully and starts in a known mode. */
  ghost predicate Lawful(lower: char -> char, hs: seq<Happening>)
  {
    && IsLowerMap(lower)
    && forall i :: 0 <= i < |hs| && (hs[i].Boots? || hs[i].StopsBooting?) ==>
         hs[i].c.lower == lower && Modes.Valid(hs[i].c.startMode)
  }

  /** A start or a call that parts memory and disk in some sense. */
  type Parting = (System, Happening) -> bool

  /** Neither the last start nor any call since parted memory and disk in the given sense. */
  predicate SinceBoot(hs: seq<Happening>, parts: Parting)
  {
    if hs == [] then true
    else
      var front, h := hs[..|hs| - 1], hs[|hs| - 1];
      match (History(front), h)
      case (Running(_, _), Serves(_)) => SinceBoot(front, parts) && !parts(History(front), h)
      case (Down(_), Boots(_, _, _, _)) => !parts(History(front), h)
      case _ => SinceBoot(front, parts)
  }

  predicate Separating(sys: System, h: Happening)
  {
    match (sys, h)
    case (Running(c, s), Serves(call)) => Separates(c, s, call)
    case (Down(d), Boots(c, _, _, w)) => BootSeparates(c, d, w)
    case _ => false
  }

  predicate Diverging(sys: System, h: Happening)
  {
    match (sys, h)
    case (Running(c, s), Serves(call)) => Diverges(c, s, call)
    case (Down(d), Boots(c, _, _, w)) => BootSeparates(c, d, w)
    case _ => false
  }

  predicate Unbacking(sys: System, h: Happening)
  {
    match (sys, h)
    case (Running(c, s), Serves(call)) => Unbacks(c, s, call)
    case _ => false
  }

  // ---- starting up ----

  /** The migration installs "default" under a marker that already names it, and fails to write that marker. */
  predicate BootSeparates(c: Config, d: PS.Disk, w: PS.Faults)
  {
    && d.metas == map[] && d.marker == PS.DEFAULT_NAME
    && c.legacy.Some? && PS.Accepts(c.trust, c.legacy.value) && BothWritten(w) && w.writeMarker
  }

  lemma MigrateIs(c: Config, s: State, now: int, w: PS.Faults)
    requires IsLowerMap(c.lower) && Modes.Valid(s.mode) && s.slug == "" && s.bundle.None?
    requires MarkedProfile(c.trust.parses, s.disk) == ""
    ensures var n := MigrateAndAdopt(c, s, now, w).s;
            && Paired(n) && Mirrored(c, n)
            && (Marked(c, n) <==> !BootSeparates(c, s.disk, w)) && (Marked(c, n) || n.slug == "")
  {
    hide PS.PlanAddActive, PS.Replay, IsLowerMap, PS.CheckBundle, Installed, PS.AddedMeta, OverrideOf, PS.DEFAULT_NAME,
      Slug.ValidateName, PS.Load;
    var slug := PS.DEFAULT_NAME;
    DefaultSlug(c.lower);
    DefaultIsAName();
    PS.ReplayNothing(s.disk);
    if c.legacy.Some? && PS.Accepts(c.trust, c.legacy.value) {
      AcceptedParses(c.trust, c.legacy.value);
    }
    if s.disk.metas == map[] && c.legacy.Some? && c.trust.parses(c.legacy.value) {
      var bytes := c.legacy.value;
      var req := PS.AddRequest(slug, s.mode, bytes, false);
      var m := PS.AddedMeta(s.disk, slug, req, now);
      AddActiveOutcome(c.lower, c.trust, s.disk, req, now, w);
      if PS.Accepts(c.trust, bytes) {
        var d := Installed(s.disk, slug, bytes, m, w);
        AddedMetaIsPlain(s.disk, slug, req, now);
        InstalledLoads(c.trust.parses, s.disk, slug, bytes, m, w);
        DefaultInstalled(s.disk, req, now, w);
        InstalledIs(s.disk, slug, bytes, m, w);
        LoadIs(c.trust, d.(marker := slug), slug);
      }
    }
  }

  lemma InstalledIs(d: PS.Disk, slug: string, bytes: Bytes, m: PS.Meta, w: PS.Faults)
    ensures var n := Installed(d, slug, bytes, m, w);
            BothWritten(w) ==> slug in n.metas && n.metas[slug] == m && slug in n.bundles && n.bundles[slug] == bytes
  {
  }

  /**
    A start adopts the marked profile whenever it loads, with exactly the stored
    bundle and override, and the stored mode unless one is forced.  Otherwise it
    migrates or holds none.  It leaves memory and disk in step unless it fails to
    write a marker that already names the profile it migrates.
  */
  lemma BootIsExact(c: Config, d: PS.Disk, bound: Option<Endpoint>, now: int, w: PS.Faults)
    requires IsLowerMap(c.lower) && Modes.Valid(c.startMode) && StoreReachable(c.lower, d)
    ensures var n, marked := LoadPersisted(c, Fresh(c, d, bound), now, w).s, MarkedProfile(c.trust.parses, d);
            && Sane(c, n) && Mirrored(c, n) && Backed(c, n)
            && (Marked(c, n) <==> !BootSeparates(c, d, w))
            && (marked != "" ==> n.slug == marked && n.disk == d)
  {
    hide MigrateAndAdopt, StoreReachable, IsLowerMap, OverrideOf, PS.Load, PS.DEFAULT_NAME, PS.CheckBundle;
    var s := Fresh(c, d, bound);
    var n := LoadPersisted(c, s, now, w);
    BootReachable(c, d, bound, now, |n.steps|, w);
    BootSteps(c, d, bound, now, w);
    assert Upto(n.steps, |n.steps|) == n.steps;
    LoadIs(c.trust, d, d.marker);
    if MarkedProfile(c.trust.parses, d) != "" {
      KnownMode(c, d, d.marker);
      assert d.metas != map[];
    } else {
      MigrateIs(c, s, now, w);
    }
    MarkedIsBacked(c, n.s);
  }

  lemma KnownMode(c: Config, d: PS.Disk, slug: string)
    requires StoreReachable(c.lower, d) && slug in d.metas
    ensures Modes.Valid(d.metas[slug].mode)
  {
    hide StoreReachable, Slug.ValidateName;
    ReachableIsSound(c.lower, d);
    assert SoundMeta(c.lower, slug, d.metas[slug]);
  }

  lemma MarkedIsBacked(c: Config, s: State)
    ensures Marked(c, s) ==> Backed(c, s)
    ensures s.slug == "" ==> Backed(c, s)
  {
  }

  // ---- what a history leaves ----

  /** What is known of a machine after a history. */
  ghost predicate Tracked(lower: char -> char, hs: seq<Happening>)
  {
    match History(hs)
    case Running(c, s) =>
      && c.lower == lower && Sane(c, s)
      && (SinceBoot(hs, Unbacking) ==> Backed(c, s))
      && (SinceBoot(hs, Separating) ==> InStep(c, s))
      && (SinceBoot(hs, Diverging) ==> Faithful(c, s))
    case Down(d) => StoreReachable(lower, d)
  }

  lemma ServedTracked(lower: char -> char, front: seq<Happening>, call: Call)
    requires IsLowerMap(lower) && Tracked(lower, front)
    ensures Tracked(lower, front + [Serves(call)])
  {
    hide Handle, StoreReachable, IsLowerMap, Exact, Separates, Diverges, Unbacks, Marked, Mirrored, Backed,
      BootSeparates;
    var hs := front + [Serves(call)];
    assert hs[..|hs| - 1] == front;
    match History(front)
    case Running(c, s) =>
      HandleKeepsSane(c, s, call);
      if SinceBoot(front, Unbacking) {
        HandleKeepsBacked(c, s, call);
      }
      if SinceBoot(front, Separating) {
        HandleIsExact(c, s, call);
        ExactKeeps(c, s, call);
      }
      if SinceBoot(front, Diverging) {
        HandleIsExact(c, s, call);
        ExactKeeps(c, s, call);
      }
    case Down(d) =>
  }

  lemma ExactKeeps(c: Config, s: State, call: Call)
    requires Exact(c, s, call)
    ensures var n := Handle(c, s, call).s;
            && (!Separates(c, s, call) ==> Marked(c, n))
            && (Mirrored(c, s) && !Diverges(c, s, call) ==> Marked(c, n) && Mirrored(c, n))
  {
  }

  lemma BootTracked(lower: char -> char, front: seq<Happening>, h: Happening)
    requires IsLowerMap(lower) && Tracked(lower, front) && h.Boots? && h.c.lower == lower && Modes.Valid(h.c.startMode)
    ensures Tracked(lower, front + [h])
  {
    hide LoadPersisted, StoreReachable, IsLowerMap, Separates, Diverges, Unbacks, Marked, Mirrored, Backed,
      BootSeparates;
    var hs := front + [h];
    assert hs[..|hs| - 1] == front;
    match History(front)
    case Running(c, s) =>
    case Down(d) => BootIsExact(h.c, d, h.bound, h.now, h.w);
  }

  /**
    Over every history, with writes failing anywhere: the disk is one a store
    run reaches.  A live process holds exactly the marked profile, or none if
    none is marked or it does not load, unless its start or a call since
    separated the two; bundle, override and mode are the stored ones unless one
    diverged; and it holds no other profile unless a call put one there.
  */
  lemma {:induction false} HistoryInStep(lower: char -> char, hs: seq<Happening>)
    requires Lawful(lower, hs)
    ensures Tracked(lower, hs)
  {
    hide Handle, LoadPersisted, StoreReachable, IsLowerMap, Separates, Diverges, Unbacks, Marked, Mirrored, Backed,
      BootSeparates, PS.Replay;
    if hs == [] {
      EmptyIsReachable(lower);
    } else {
      var front, h := hs[..|hs| - 1], hs[|hs| - 1];
      assert hs == front + [h];
      assert forall i :: 0 <= i < |front| ==> front[i] == hs[i];
      HistoryInStep(lower, front);
      match (History(front), h)
      case (_, Serves(call)) => ServedTracked(lower, front, call);
      case (_, Boots(_, _, _, _)) => BootTracked(lower, front, h);
      case (Running(c, s), StopsIn(call, k)) => ReachableHandle(c, s, call, k);
      case (Down(d), StopsBooting(c, now, k, w)) => BootReachable(c, d, None, now, k, w);
      case _ =>
    }
  }

  lemma EmptyIsReachable(lower: char -> char)
    ensures StoreReachable(lower, PS.EMPTY_DISK)
  {
    assert Run(lower, []) == PS.EMPTY_DISK;
  }

  /**
    From every state that any history of calls, stops and restarts reaches, in
    which no call since the start has put a profile that is not the marked one,
    an import does all that ImportBundle promises.
  */
  lemma ImportAlwaysWorks(lower: char -> char, hs: seq<Happening>, bytes: Bytes, now: int, w: PS.Faults)
    requires Lawful(lower, hs) && History(hs).Running? && SinceBoot(hs, Unbacking)
    ensures ImportPromise(History(hs).c, History(hs).s, bytes, now, w)
  {
    hide ImportPromise, StoreReachable, Backed;
    HistoryInStep(lower, hs);
    ImportWorks(History(hs).c, History(hs).s, bytes, now, w);
  }

  // ---- restarts ----

  /** The next start of the same machine, the process having stopped between calls. */
  function Restarted(hs: seq<Happening>, call: Call, boot: Happening): seq<Happening>
  {
    hs + [StopsIn(call, 0), boot]
  }

  lemma RestartedIs(hs: seq<Happening>, call: Call, boot: Happening)
    requires History(hs).Running? && boot.Boots?
    ensures History(Restarted(hs, call, boot)) ==
            Running(boot.c, LoadPersisted(boot.c, Fresh(boot.c, History(hs).s.disk, boot.bound), boot.now, boot.w).s)
  {
    hide Handle, LoadPersisted;
    var one := hs + [StopsIn(call, 0)];
    var s := History(hs).s;
    assert one[..|one| - 1] == hs;
    assert Restarted(hs, call, boot)[..|one|] == one;
    assert Upto(Handle(History(hs).c, s, call).steps, 0) == [];
    PS.ReplayNothing(s.disk);
  }

  /**
    A process that stops between calls after a history in which neither its
    start nor any call diverged is found again by the next start, under the same
    parser: the same profile with the very bundle and override, and the mode
    unless one start or the other forces it.
  */
  lemma RestartFindsProfile(lower: char -> char, hs: seq<Happening>, call: Call, boot: Happening)
    requires Lawful(lower, hs) && History(hs).Running? && SinceBoot(hs, Diverging) && History(hs).s.slug != ""
    requires boot.Boots? && boot.c.lower == lower && Modes.Valid(boot.c.startMode)
    requires boot.c.trust.parses == History(hs).c.trust.parses
    ensures var was, sys := History(hs), History(Restarted(hs, call, boot));
            && sys.Running? && sys.s.disk == was.s.disk
            && sys.s.slug == was.s.slug && sys.s.bundle == was.s.bundle && sys.s.rosenpass == was.s.rosenpass
            && (!was.c.explicitMode && !boot.c.explicitMode ==> sys.s.mode == was.s.mode)
  {
    hide LoadPersisted, StoreReachable, IsLowerMap, OverrideOf, BootSeparates, SinceBoot;
    HistoryInStep(lower, hs);
    RestartedIs(hs, call, boot);
    BootIsExact(boot.c, History(hs).s.disk, boot.bound, boot.now, boot.w);
  }

  /**
    A remove of the active profile whose first unlink fails empties memory, and
    the next start brings the profile back.
  */
  lemma FailedRemoveComesBack(c: Config, s: State, f: LegFaults, fails: PS.Faults,
                              bound: Option<Endpoint>, now: int, w: PS.Faults)
    requires IsLowerMap(c.lower) && Modes.Valid(c.startMode) && InStep(c, s) && s.slug != "" && fails.removeMeta
    ensures var n := RemoveProfile(c, s, s.slug, f, fails).s;
            n.slug == "" && n.bundle.None? && LoadPersisted(c, Fresh(c, n.disk, bound), now, w).s.slug == s.slug
  {
    hide RemoveProfile, LoadPersisted, StoreReachable, IsLowerMap, BootSeparates;
    RemoveIs(c, s, s.slug, f, fails);
    BootIsExact(c, s.disk, bound, now, w);
  }

  // ---- without failing writes ----

  /** The file writes a call is served with, if it writes. */
  function FaultsIn(call: Call): PS.Faults
  {
    match call
    case ImportCall(_, _, w) => w
    case AddProfileCall(_, _, _, w) => w
    case RemoveProfileCall(_, _, w) => w
    case RenameProfileCall(_, _, _, w) => w
    case SetActiveProfileCall(_, _, w) => w
    case SetModeCall(_, _, _, w) => w
    case SetRosenpassCall(_, _, _, w) => w
    case _ => PS.NO_FAULTS
  }

  /**
    With no profile in memory, an add that does not switch or a rename gives the
    slug a stale marker names a profile.
  */
  predicate FillsStaleMarker(c: Config, s: State, call: Call)
  {
    && s.slug == ""
    && match call
       case AddProfileCall(req, _, _, _) =>
         Addable(c, s, req) && !req.setActive && ValidateNameOf(c, req.name) == s.disk.marker
       case RenameProfileCall(slug, newName, _, _) =>
         && CanRename(c.lower, s.disk, slug, newName) && ValidateNameOf(c, newName) == s.disk.marker != slug
         && c.trust.parses(s.disk.bundles[slug])
       case _ => false
  }

  /** The slug of a valid name, "" for another. */
  function ValidateNameOf(c: Config, name: string): string
  {
    var v := Slug.ValidateName(c.lower, name);
    if v.Ok? then v.value else ""
  }

  /** Without failing writes, exactly that separates memory from the disk. */
  lemma FaultFreeSeparation(c: Config, s: State, call: Call)
    requires InStep(c, s) && FaultsIn(call) == PS.NO_FAULTS
    ensures Separates(c, s, call) <==> FillsStaleMarker(c, s, call)
  {
    hide Slug.ValidateName, PS.CheckBundle, StoreReachable, Modes.Parse, PS.DEFAULT_NAME;
    assert "" !in s.disk.metas by { ReachableIsSound(c.lower, s.disk); }
    if call.AddProfileCall? && Addable(c, s, call.req) {
      NamedSlug(c, s, call.req);
    }
    if call.RenameProfileCall? {
      ValidNameIsNotEmpty(c.lower, call.newName);
    }
  }

  /** Nothing fails, nothing stops inside a call or a start, and every start parses bundles alike. */
  ghost predicate Untorn(hs: seq<Happening>, parses: Bytes -> bool)
  {
    forall i :: 0 <= i < |hs| ==>
      match hs[i]
      case Serves(call) => FaultsIn(call) == PS.NO_FAULTS
      case StopsIn(_, k) => k == 0
      case Boots(c, _, _, w) => w == PS.NO_FAULTS && c.trust.parses == parses
      case StopsBooting(_, _, k, _) => k == 0
  }

  predicate MarkerLoads(parses: Bytes -> bool, d: PS.Disk)
  {
    d.marker == "" || Loads(parses, d, d.marker)
  }

  /** A call without failing writes moves the marker exactly as it moves the slug in memory. */
  lemma MarkerFollows(c: Config, s: State, call: Call)
    requires IsLowerMap(c.lower) && InStep(c, s) && s.slug == s.disk.marker && FaultsIn(call) == PS.NO_FAULTS
    ensures var n := Handle(c, s, call).s; n.slug == n.disk.marker
  {
    hide ImportBundle, AddProfile, RemoveProfile, RenameProfile, SwitchTo, ChangeMode, SetRosenpass, Connect,
      Disconnect, EnableInnerMesh, DisableInnerMesh, SuperviseMesh, Shutdown, HealthChange, HealthCallback,
      StoreReachable, Modes.Parse, Addable, Slug.ValidateName, PS.Load, PS.CheckBundle, AddRequestOf, IsLowerMap;
    assert "" !in s.disk.metas by { ReachableIsSound(c.lower, s.disk); }
    match call
    case ImportCall(bytes, now, w) => ImportWorks(c, s, bytes, now, w);
    case AddProfileCall(req, now, f, w) => AddMarks(c, s, req, now, f, w);
    case RemoveProfileCall(slug, f, w) => RemoveIs(c, s, slug, f, w);
    case RenameProfileCall(slug, newName, now, w) => RenameMarks(c, s, slug, newName, now, w);
    case SetActiveProfileCall(slug, f, w) => SwitchMarks(c, s, slug, f, w);
    case SetModeCall(text, now, f, w) =>
      var m := Modes.Parse(c.lower, text);
      if m.Some? {
        ChangeModeMarks(c, s, m.value, now, f, w);
      }
    case SetRosenpassCall(r, now, f, w) =>
      SetRosenpassIs(c, s, r, now, f, w);
      EditOutcome(s.disk, s.slug, PS.WithRosenpass(Some(r.enabled), Some(r.permissive), now), w);
    case _ => LegCallsSameProfile(c, s, call);
  }

  lemma SwitchMarks(c: Config, s: State, slug: string, f: LegFaults, w: PS.Faults)
    requires s.slug == s.disk.marker && w == PS.NO_FAULTS
    ensures var n := SwitchTo(c, s, slug, f, w).s; n.slug == n.disk.marker
  {
    hide SwitchTo, PS.Load;
    LoadIs(c.trust, s.disk, slug);
    if Loads(c.trust.parses, s.disk, slug) {
      SwitchOutcome(c, s, slug, f, w);
    } else {
      SwitchRefused(c, s, slug, f, w);
    }
  }

  lemma AddMarks(c: Config, s: State, req: AddProfileRequest, now: int, f: LegFaults, w: PS.Faults)
    requires s.slug == s.disk.marker && w == PS.NO_FAULTS
    ensures var n := AddProfile(c, s, req, now, f, w).s; n.slug == n.disk.marker
  {
    hide AddProfile, SwitchTo, Slug.ValidateName, PS.CheckBundle, Modes.Parse, PS.AddedMeta;
    AddProfileIs(c, s, req, now, f, w);
    if Addable(c, s, req) {
      var slug, add := Slug.ValidateName(c.lower, req.name).value, AddRequestOf(c, s, req).value;
      var s1 := s.(disk := Installed(s.disk, slug, req.bytes, PS.AddedMeta(s.disk, slug, add, now), w));
      SwitchMarks(c, s1, slug, f, w);
    }
  }

  lemma RenameMarks(c: Config, s: State, slug: string, newName: string, now: int, w: PS.Faults)
    requires s.slug == s.disk.marker && w == PS.NO_FAULTS
    ensures var n := RenameProfile(c, s, slug, newName, now, w).s; n.slug == n.disk.marker
  {
    hide RenameProfile, Slug.ValidateName, PS.RenamedMeta;
    RenameIs(c, s, slug, newName, now, w);
  }

  lemma ChangeModeMarks(c: Config, s: State, m: Mode, now: int, f: LegFaults, w: PS.Faults)
    ensures var n := ChangeMode(c, s, m, now, f, w).s; n.slug == s.slug && n.disk.marker == s.disk.marker
  {
    hide PS.Replay, PS.PlanEdit, EnterMode, LeaveMode;
    ModeChangeKeepsMemory(c, s, m, f);
    EditOutcome(s.disk, s.slug, PS.WithMode(m, now), w);
    PS.ReplayNothing(s.disk);
  }

  lemma BootMarks(c: Config, d: PS.Disk, bound: Option<Endpoint>, now: int, w: PS.Faults)
    requires IsLowerMap(c.lower) && Modes.Valid(c.startMode) && MarkerLoads(c.trust.parses, d) && w == PS.NO_FAULTS
    ensures var n := LoadPersisted(c, Fresh(c, d, bound), now, w).s; n.slug == n.disk.marker
  {
    hide IsLowerMap, PS.PlanAddActive, PS.Replay, PS.CheckBundle, Installed, PS.AddedMeta, Slug.ValidateName, PS.Load,
      PS.DEFAULT_NAME;
    LoadIs(c.trust, d, d.marker);
    PS.ReplayNothing(d);
    DefaultSlug(c.lower);
    if d.marker == "" && c.legacy.Some? {
      var slug := PS.DEFAULT_NAME;
      var req := PS.AddRequest(slug, c.startMode, c.legacy.value, false);
      var m := PS.AddedMeta(d, slug, req, now);
      AddActiveOutcome(c.lower, c.trust, d, req, now, w);
      if CanAdd(c.lower, c.trust, d, req) {
        AcceptedParses(c.trust, c.legacy.value);
        DefaultInstalled(d, req, now, w);
        InstalledLoads(c.trust.parses, d, slug, c.legacy.value, m, w);
        LoadIs(c.trust, Installed(d, slug, c.legacy.value, m, w).(marker := slug), slug);
      }
    }
  }

  /** What holds throughout an untorn history: the marker is always the profile in memory, and always loads. */
  ghost predicate Tight(hs: seq<Happening>, parses: Bytes -> bool)
  {
    match History(hs)
    case Running(c, s) => c.trust.parses == parses && s.slug == s.disk.marker
    case Down(d) => MarkerLoads(parses, d)
  }

  /**
    In a history in which no write fails and nothing stops inside a call or a
    start, neither a start nor a call ever separates memory from the disk, and
    the marker always is the slug in memory.
  */
  lemma {:induction false} UntornStaysInStep(lower: char -> char, hs: seq<Happening>, parses: Bytes -> bool)
    requires Lawful(lower, hs) && Untorn(hs, parses)
    ensures SinceBoot(hs, Separating) && Tight(hs, parses)
  {
    hide SinceBoot, Tight, History;
    if hs == [] {
      NothingYet(parses);
    } else {
      var front, h := hs[..|hs| - 1], hs[|hs| - 1];
      assert forall i :: 0 <= i < |front| ==> front[i] == hs[i];
      assert hs == front + [h];
      UntornStaysInStep(lower, front, parses);
      HistoryInStep(lower, front);
      UntornStep(lower, front, h, parses);
    }
  }

  lemma NothingYet(parses: Bytes -> bool)
    ensures SinceBoot([], Separating) && Tight([], parses)
  {
  }

  lemma UntornStep(lower: char -> char, front: seq<Happening>, h: Happening, parses: Bytes -> bool)
    requires Lawful(lower, front + [h]) && Untorn(front + [h], parses) && Tracked(lower, front)
    requires SinceBoot(front, Separating) && Tight(front, parses)
    ensures SinceBoot(front + [h], Separating) && Tight(front + [h], parses)
  {
    hide Handle, LoadPersisted, IsLowerMap, StoreReachable, Separates, BootSeparates, FaultsIn, Marked, PS.Replay;
    assert (front + [h])[..|front|] == front && (front + [h])[|front|] == h;
    match (History(front), h)
    case (Running(c, s), Serves(call)) =>
      MarkerFollows(c, s, call);
      FaultFreeSeparation(c, s, call);
      NothingStale(c, s, call);
    case (Running(c, s), StopsIn(call, k)) =>
      assert Upto(Handle(c, s, call).steps, 0) == [];
      PS.ReplayNothing(s.disk);
      MarkedMarkerLoads(c, s);
    case (Down(d), Boots(c, bound, now, w)) =>
      BootMarks(c, d, bound, now, w);
      SoundBoot(c, d, w);
    case (Down(d), StopsBooting(c, now, k, w)) =>
      assert Upto(LoadPersisted(c, Fresh(c, d, None), now, w).steps, 0) == [];
      PS.ReplayNothing(d);
    case _ =>
  }

  lemma NothingStale(c: Config, s: State, call: Call)
    requires InStep(c, s) && s.slug == s.disk.marker
    ensures !FillsStaleMarker(c, s, call)
  {
    hide Slug.ValidateName, PS.CheckBundle, StoreReachable, Modes.Parse;
    if call.AddProfileCall? && Addable(c, s, call.req) {
      NamedSlug(c, s, call.req);
    }
    if call.RenameProfileCall? {
      ValidNameIsNotEmpty(c.lower, call.newName);
    }
  }

  lemma MarkedMarkerLoads(c: Config, s: State)
    requires Marked(c, s) && s.slug == s.disk.marker
    ensures MarkerLoads(c.trust.parses, s.disk)
  {
  }

  lemma SoundBoot(c: Config, d: PS.Disk, w: PS.Faults)
    requires w == PS.NO_FAULTS
    ensures !BootSeparates(c, d, w)
  {
  }

  // ---- where bundles come from ----

  /** The call carries these bytes and the configured roots accept them. */
  predicate Brings(c: Config, call: Call, b: Bytes)
  {
    && PS.Accepts(c.trust, b)
    && ((call.ImportCall? && call.bytes == b) || (call.AddProfileCall? && call.req.bytes == b))
  }

  predicate Migrates(c: Config, b: Bytes)
  {
    c.legacy == Some(b) && PS.Accepts(c.trust, b)
  }

  lemma AddActiveBundleSteps(lower: char -> char, t: PS.Trust, d: PS.Disk, req: PS.AddRequest, now: int, i: nat,
                             w: PS.Faults)
    requires i < |PS.PlanAddActive(lower, t, d, req, now, w).steps|
    ensures var s := PS.PlanAddActive(lower, t, d, req, now, w).steps[i];
            s.WriteBundle? ==> s.bytes == req.bytes && PS.Accepts(t, req.bytes)
  {
    if i < |PS.PlanAdd(lower, t, d, req, now, w).steps| {
      AddSteps(lower, t, d, req, now, w, i);
    }
  }

  lemma AddProfileBundleSteps(c: Config, s: State, req: AddProfileRequest, now: int, f: LegFaults, i: nat, w: PS.Faults)
    requires i < |AddProfile(c, s, req, now, f, w).steps|
    ensures var st := AddProfile(c, s, req, now, f, w).steps[i];
            st.WriteBundle? ==> st.bytes == req.bytes && PS.Accepts(c.trust, req.bytes)
  {
    var mode := if req.mode == "" then Some(s.mode) else Modes.Parse(c.lower, req.mode);
    var add := PS.AddRequest(req.name, mode.value, req.bytes, req.replace);
    if i < |PS.PlanAdd(c.lower, c.trust, s.disk, add, now, w).steps| {
      AddSteps(c.lower, c.trust, s.disk, add, now, w, i);
    }
  }

  lemma ImportBundleSteps(c: Config, s: State, bytes: Bytes, now: int, i: nat, w: PS.Faults)
    requires i < |ImportBundle(c, s, bytes, now, w).steps|
    ensures var st := ImportBundle(c, s, bytes, now, w).steps[i];
            st.WriteBundle? ==> st.bytes == bytes && PS.Accepts(c.trust, bytes)
  {
    if s.slug != "" {
      AddSteps(c.lower, c.trust, s.disk, ReplaceRequest(s, bytes), now, w, i);
    } else if PS.PlanAddActive(c.lower, c.trust, s.disk, PS.AddRequest(PS.DEFAULT_NAME, s.mode, bytes, false), now,
                               w).result == Err(PS.AlreadyExists) {
      AddActiveBundleSteps(c.lower, c.trust, s.disk, PS.AddRequest(PS.DEFAULT_NAME, s.mode, bytes, true), now, i, w);
    } else {
      AddActiveBundleSteps(c.lower, c.trust, s.disk, PS.AddRequest(PS.DEFAULT_NAME, s.mode, bytes, false), now, i, w);
    }
  }

  lemma HandleBundleSteps(c: Config, s: State, call: Call, i: nat)
    requires i < |Handle(c, s, call).steps|
    ensures var st := Handle(c, s, call).steps[i];
            st.WriteBundle? ==> Brings(c, call, st.bytes) || st.bytes in s.disk.bundles.Values
  {
    hide ImportBundle, AddProfile, PS.Replay, PS.CheckBundle;
    match call
    case ImportCall(bytes, now, w) => ImportBundleSteps(c, s, bytes, now, i, w);
    case AddProfileCall(req, now, f, w) => AddProfileBundleSteps(c, s, req, now, f, i, w);
    case RenameProfileCall(slug, newName, now, w) =>
      RenameSteps(c.lower, s.disk, slug, newName, now, w, i);
    case _ => OtherSteps(c, s, call, i);
  }

  /** The other handlers write no bundle. */
  lemma OtherSteps(c: Config, s: State, call: Call, i: nat)
    requires !call.ImportCall? && !call.AddProfileCall? && !call.RenameProfileCall?
    requires i < |Handle(c, s, call).steps|
    ensures !Handle(c, s, call).steps[i].WriteBundle?
  {
    hide BringUp, TearDownMode, TearDownAll, SwapIn, EnterMode, LeaveMode, BringMeshUp, PS.Replay, PS.Load, Modes.Parse;
    if IsLegCall(call) {
      NoSteps(c, s, call);
    }
  }

  function DiskOf(sys: System): PS.Disk
  {
    match sys
    case Running(_, s) => s.disk
    case Down(d) => d
  }

  /** The happening brought these bytes in, checked against the configuration of its time. */
  predicate BroughtBy(sys: System, h: Happening, b: Bytes)
  {
    match (sys, h)
    case (Running(c, _), Serves(call)) => Brings(c, call, b)
    case (Running(c, _), StopsIn(call, _)) => Brings(c, call, b)
    case (Down(_), Boots(c, _, _, _)) => Migrates(c, b)
    case (Down(_), StopsBooting(c, _, _, _)) => Migrates(c, b)
    case _ => false
  }

  lemma BootBundleSteps(c: Config, d: PS.Disk, bound: Option<Endpoint>, now: int, i: nat, w: PS.Faults)
    requires i < |LoadPersisted(c, Fresh(c, d, bound), now, w).steps|
    ensures var st := LoadPersisted(c, Fresh(c, d, bound), now, w).steps[i];
            st.WriteBundle? ==> Migrates(c, st.bytes)
  {
    MigrateSteps(c.lower, c.trust, d, c.legacy, c.startMode, now, w, i);
  }

  /** One happening leaves on the disk only bytes that were there or that it brought. */
  lemma HappeningBundles(sys: System, h: Happening, slug: string)
    requires slug in DiskOf(Proceed(sys, h)).bundles
    ensures var b := DiskOf(Proceed(sys, h)).bundles[slug];
            b in DiskOf(sys).bundles.Values || BroughtBy(sys, h, b)
  {
    hide Handle, LoadPersisted, PS.Replay, Proceed, PS.Accepts;
    var d, d' := DiskOf(sys), DiskOf(Proceed(sys, h));
    if d' == d {
      assert d.bundles[slug] in d.bundles.Values;
    } else {
      var steps, stop := PlannedBy(sys, h);
      ReplayBytes(d, Upto(steps, stop), slug);
      var b := d'.bundles[slug];
      if i :| 0 <= i < |Upto(steps, stop)| && Upto(steps, stop)[i].WriteBundle? && Upto(steps, stop)[i].bytes == b {
        assert steps[i] == Upto(steps, stop)[i];
        match (sys, h)
        case (Running(c, s), Serves(call)) => HandleBundleSteps(c, s, call, i);
        case (Running(c, s), StopsIn(call, _)) => HandleBundleSteps(c, s, call, i);
        case (Down(_), Boots(c, bound, now, w)) => BootBundleSteps(c, d, bound, now, i, w);
        case (Down(_), StopsBooting(c, now, _, w)) => BootBundleSteps(c, d, None, now, i, w);
        case _ =>
      }
    }
  }

  /** The file steps behind a happening that changes the disk, and where they stop. */
  lemma PlannedBy(sys: System, h: Happening) returns (steps: seq<PS.Step>, stop: nat)
    ensures DiskOf(Proceed(sys, h)) == PS.Replay(DiskOf(sys), Upto(steps, stop))
    ensures match (sys, h)
            case (Running(c, s), Serves(call)) => steps == Handle(c, s, call).steps
            case (Running(c, s), StopsIn(call, _)) => steps == Handle(c, s, call).steps
            case (Down(d), Boots(c, bound, now, w)) => steps == LoadPersisted(c, Fresh(c, d, bound), now, w).steps
            case (Down(d), StopsBooting(c, now, _, w)) => steps == LoadPersisted(c, Fresh(c, d, None), now, w).steps
            case _ => steps == []
  {
    match (sys, h)
    case (Running(c, s), Serves(call)) =>
      steps := Handle(c, s, call).steps;
      stop := |steps|;
      StepsAreTheDiskChange(c, s, call);
    case (Running(c, s), StopsIn(call, k)) =>
      steps, stop := Handle(c, s, call).steps, k;
    case (Down(d), Boots(c, bound, now, w)) =>
      steps := LoadPersisted(c, Fresh(c, d, bound), now, w).steps;
      stop := |steps|;
      BootSteps(c, d, bound, now, w);
    case (Down(d), StopsBooting(c, now, k, w)) =>
      steps, stop := LoadPersisted(c, Fresh(c, d, None), now, w).steps, k;
    case _ =>
      steps, stop := [], 0;
  }

  /**
    Every bundle on the disk, after any history, was brought in by one of its
    happenings and accepted by the trust roots configured at that moment.
  */
  lemma {:induction false} HistoryBundlesVerified(hs: seq<Happening>, slug: string)
    requires slug in DiskOf(History(hs)).bundles
    ensures exists i :: 0 <= i < |hs| && BroughtBy(History(hs[..i]), hs[i], DiskOf(History(hs)).bundles[slug])
  {
    if hs != [] {
      var k := |hs| - 1;
      var front, h := hs[..k], hs[k];
      var b := DiskOf(History(hs)).bundles[slug];
      HappeningBundles(History(front), h, slug);
      if BroughtBy(History(hs[..k]), hs[k], b) {
      } else {
        var t :| t in DiskOf(History(front)).bundles && DiskOf(History(front)).bundles[t] == b;
        HistoryBundlesVerified(front, t);
        var i :| 0 <= i < |front| && BroughtBy(History(front[..i]), front[i], b);
        assert front[..i] == hs[..i] && front[i] == hs[i];
      }
    }
  }
}
