/**
  The daemon as a state machine: every IPC handler, the mesh supervisor's tick
  and the forwarder's health callback as one atomic function each.
*/
module DaemonModel {
  import opened Results
  import opened Modes
  import opened Legs
  import PS = ProfileStore

  type Bytes = PS.Bytes

  /** Fixed at start-up. */
  datatype Config = Config(
    lower: char -> char,
    trust: PS.Trust,
    tunnelOf: Bytes -> Option<TunnelConfig>,
    expired: (Bytes, int) -> bool,
    startMode: Mode,
    explicitMode: bool,
    fronting: bool,
    names: bool,
    meshDns: DnsConfig,
    platform: Platform,
    legacy: Option<Bytes>)

  /** The host-DNS config most recently applied, kept for health transitions. */
  datatype AppliedDns = AppliedDns(iface: string, direct: DnsConfig)

  datatype Rosenpass = Rosenpass(enabled: bool, permissive: bool)

  datatype State = State(
    disk: PS.Disk,
    mode: Mode,
    slug: string,
    bundle: Option<Bytes>,
    rosenpass: Option<Rosenpass>,
    outer: Outer,
    mesh: Option<MeshHandle>,
    meshWanted: bool,
    /** Handles the daemon no longer holds, as it left them. */
    dropped: seq<MeshHandle>,
    lastDNS: Option<AppliedDns>,
    resolver: Resolver,
    fwd: Fwd)

  /** What goes wrong with the legs during a handler. */
  datatype LegFaults = LegFaults(outer: OuterFaults, mesh: Bringup)

  /** A handler's effect: the new state, the file steps it took, whether it reported success. */
  datatype Next = Next(s: State, steps: seq<PS.Step>, ok: bool)

  function Stay(s: State, ok: bool): Next
  {
    Next(s, [], ok)
  }

  /** The state after file steps. */
  function Write(s: State, steps: seq<PS.Step>): State
  {
    s.(disk := PS.Replay(s.disk, steps))
  }

  // ---- host DNS ----

  /** Values from the config file fill the fields the bundle left empty. */
  function DirectDns(c: Config, cfg: DnsConfig): DnsConfig
  {
    DnsConfig(
      if cfg.servers == [] then c.meshDns.servers else cfg.servers,
      if cfg.servers == [] then c.meshDns.port else 0,
      if cfg.searchDomains == [] then c.meshDns.searchDomains else cfg.searchDomains,
      if cfg.matchDomains == [] then c.meshDns.matchDomains else cfg.matchDomains)
  }

  function FrontedDns(direct: DnsConfig, e: Endpoint): DnsConfig
  {
    direct.(servers := [e.addr], port := e.port)
  }

  /** The forwarder stands in for the mesh nameservers. */
  predicate Fronts(c: Config, f: Fwd)
  {
    c.fronting && c.names && f.healthy && f.addr.Some? && PortOk(c.platform, f.addr.value.port)
  }

  function ApplyCurrent(c: Config, s: State, d: AppliedDns): State
  {
    s.(resolver :=
         if Fronts(c, s.fwd)
         then Applied(s.resolver, c.platform, d.iface, FrontedDns(d.direct, s.fwd.addr.value))
         else Applied(s.resolver, c.platform, d.iface, d.direct))
  }

  function ApplyDns(c: Config, s: State, cfg: TunnelConfig): State
  {
    var d := AppliedDns(cfg.iface, DirectDns(c, cfg.dns));
    ApplyCurrent(c, s.(lastDNS := Some(d)), d)
  }

  function RestoreDns(s: State): State
  {
    s.(lastDNS := None, resolver := Restored)
  }

  // ---- legs ----

  function TakeOuterDown(s: State, f: LegFaults): State
  {
    var r := RestoreDns(s);
    r.(outer := Disconnected(r.outer, f.outer))
  }

  function BringOuterUp(s: State, cfg: TunnelConfig, f: LegFaults): State
  {
    s.(outer := Connected(Configured(s.outer, cfg), f.outer))
  }

  predicate OuterComesUp(s: State, cfg: TunnelConfig, f: LegFaults)
  {
    ConnectOk(Configured(s.outer, cfg), f.outer)
  }

  /** A new handle replaces whatever was held. */
  function PutMesh(s: State): State
  {
    LetGo(s).(mesh := Some(FRESH_MESH))
  }

  /** The handle is let go of as it is. */
  function LetGo(s: State): State
  {
    s.(mesh := None, dropped := s.dropped + if s.mesh.Some? then [s.mesh.value] else [])
  }

  /** The handle is disconnected, closed and let go of. */
  function DropMesh(s: State): State
  {
    s.(mesh := None, dropped := s.dropped + if s.mesh.Some? then [MeshReleased(MeshDisconnected(s.mesh.value))] else [])
  }

  function BringMeshUp(s: State, f: LegFaults): State
  {
    if s.mesh.None? then s else s.(mesh := Some(MeshConnected(s.mesh.value, f.mesh)))
  }

  predicate MeshComesUp(s: State, f: LegFaults)
  {
    s.mesh.Some? && !s.mesh.value.closed && f.mesh.Succeeds?
  }

  function TearDownMode(s: State, m: Mode, f: LegFaults): State
  {
    var s1 := if IncludesWGCP0(m) then TakeOuterDown(s, f) else s;
    if IncludesNetbird(m) then DropMesh(s1).(meshWanted := false) else s1
  }

  function TearDownAll(s: State, f: LegFaults): State
  {
    DropMesh(TakeOuterDown(s, f)).(meshWanted := false)
  }

  // ---- start-up ----

  function OverrideOf(m: PS.Meta): Option<Rosenpass>
  {
    if m.rosenpassEnabled.None? then None
    else Some(Rosenpass(m.rosenpassEnabled.value, m.rosenpassPermissive.Some? && m.rosenpassPermissive.value))
  }

  function Adopt(c: Config, s: State, slug: string, m: PS.Meta, bundle: Bytes): State
  {
    var cfg := c.tunnelOf(bundle);
    s.(bundle := Some(bundle), slug := slug,
       mode := if Modes.Valid(m.mode) && !c.explicitMode then m.mode else s.mode,
       rosenpass := OverrideOf(m),
       outer := if cfg.Some? then Configured(s.outer, cfg.value) else s.outer)
  }

  /** New: nothing loaded, the forwarder bound or not. */
  function Fresh(c: Config, disk: PS.Disk, bound: Option<Endpoint>): State
  {
    State(disk, c.startMode, "", None, None, Outer(None, false, Closed),
          if IncludesNetbird(c.startMode) then Some(FRESH_MESH) else None, false, [],
          None, Restored, Fwd(if c.names then bound else None, c.names && bound.Some?, 0))
  }

  /** LoadPersistedBundle: the active profile, else the legacy bundle migrated, else nothing. */
  function LoadPersisted(c: Config, s: State, now: int, w: PS.Faults): Next
  {
    var active := PS.Load(c.trust, s.disk, s.disk.marker);
    if s.disk.marker != "" && active.Ok?
    then Stay(Adopt(c, s, s.disk.marker, active.value.0, active.value.1), true)
    else MigrateAndAdopt(c, s, now, w)
  }

  function MigrateAndAdopt(c: Config, s: State, now: int, w: PS.Faults): Next
  {
    var p := PS.PlanMigrate(c.lower, c.trust, s.disk, c.legacy, s.mode, now, w);
    var s1 := Write(s, p.steps);
    if p.result.Err? || p.result.value.None? then Next(s1, p.steps, true)
    else
      var slug := p.result.value.value;
      var loaded := PS.Load(c.trust, s1.disk, slug);
      Next(if loaded.Ok? then Adopt(c, s1, slug, loaded.value.0, loaded.value.1) else s1, p.steps, true)
  }

  // ---- profile handlers ----

  /** The name and mode a re-import keeps: those stored, or the slug and the current mode. */
  function ReplaceRequest(s: State, bytes: Bytes): PS.AddRequest
  {
    if s.slug in s.disk.metas
    then PS.AddRequest(s.disk.metas[s.slug].name, s.disk.metas[s.slug].mode, bytes, true)
    else PS.AddRequest(s.slug, s.mode, bytes, true)
  }

  function ConfigureFrom(c: Config, s: State, bytes: Bytes): State
  {
    if c.tunnelOf(bytes).Some? then s.(outer := Configured(s.outer, c.tunnelOf(bytes).value)) else s
  }

  function ImportBundle(c: Config, s: State, bytes: Bytes, now: int, w: PS.Faults): Next
  {
    if !PS.Accepts(c.trust, bytes) || c.expired(bytes, now) then Stay(s, false)
    else if s.slug != "" then
      var p := PS.PlanAdd(c.lower, c.trust, s.disk, ReplaceRequest(s, bytes), now, w);
      if p.result.Err? then Next(Write(s, p.steps), p.steps, false)
      else Next(ConfigureFrom(c, Write(s, p.steps).(bundle := Some(bytes)), bytes), p.steps, true)
    else
      var p := PlanDefault(c, s, bytes, now, w);
      if p.result.Err? || p.result.value.None? then Next(Write(s, p.steps), p.steps, false)
      else Next(ConfigureFrom(c, Write(s, p.steps).(bundle := Some(bytes), slug := p.result.value.value), bytes),
                p.steps, true)
  }

  /** Add PS.DEFAULT_NAME and mark it active; replace it if it is already there. */
  function PlanDefault(c: Config, s: State, bytes: Bytes, now: int, w: PS.Faults): PS.Outcome<Option<string>>
  {
    var p := PS.PlanAddActive(c.lower, c.trust, s.disk, PS.AddRequest(PS.DEFAULT_NAME, s.mode, bytes, false), now, w);
    if p.result == Err(PS.AlreadyExists) then
      PS.PlanAddActive(c.lower, c.trust, s.disk, PS.AddRequest(PS.DEFAULT_NAME, s.mode, bytes, true), now, w)
    else p
  }

  /** The mode switched to: an unknown stored mode means the default one. */
  function TargetMode(m: PS.Meta): Mode
  {
    if Modes.Valid(m.mode) then m.mode else DEFAULT
  }

  /** The new profile's bundle, mode and handle, after the old legs are down. */
  function SwapIn(s: State, slug: string, m: PS.Meta, bundle: Bytes): State
  {
    var mode := TargetMode(m);
    var s1 := s.(bundle := Some(bundle), mode := mode, slug := slug, rosenpass := OverrideOf(m));
    if IncludesNetbird(mode) && s1.mesh.None? then PutMesh(s1)
    else if !IncludesNetbird(mode) then LetGo(s1)
    else s1
  }

  function BringUp(c: Config, s: State, bundle: Bytes, f: LegFaults): State
  {
    var cfg := c.tunnelOf(bundle);
    var s1 :=
      if cfg.None? then s
      else if !IncludesWGCP0(s.mode) then s.(outer := Configured(s.outer, cfg.value))
      else
        var up := BringOuterUp(s, cfg.value, f);
        if OuterComesUp(s, cfg.value, f) then ApplyDns(c, up, cfg.value) else up;
    if IncludesNetbird(s.mode) then BringMeshUp(s1, f) else s1
  }

  /** setActiveLocked: load, tear down, swap in, bring up, and the marker last. */
  function SwitchTo(c: Config, s: State, slug: string, f: LegFaults, w: PS.Faults): Next
  {
    var target := PS.Load(c.trust, s.disk, slug);
    if target.Err? then Stay(s, false)
    else
      var down := if s.slug != "" then TearDownMode(s, s.mode, f) else s;
      var up := BringUp(c, SwapIn(down, slug, target.value.0, target.value.1), target.value.1, f);
      var p := PS.PlanSetActive(s.disk, slug, w);
      Next(Write(up, p.steps), p.steps, true)
  }

  function SetActiveProfile(c: Config, s: State, slug: string, f: LegFaults, w: PS.Faults): Next
  {
    if slug == "" then Stay(s, false) else SwitchTo(c, s, slug, f, w)
  }

  datatype AddProfileRequest = AddProfileRequest(name: string, mode: string, bytes: Bytes, replace: bool,
                                                 setActive: bool)

  function AddProfile(c: Config, s: State, req: AddProfileRequest, now: int, f: LegFaults, w: PS.Faults): Next
  {
    var mode := if req.mode == "" then Some(s.mode) else Modes.Parse(c.lower, req.mode);
    if mode.None? then Stay(s, false)
    else
      var p := PS.PlanAdd(c.lower, c.trust, s.disk,
                          PS.AddRequest(req.name, mode.value, req.bytes, req.replace), now, w);
      var s1 := Write(s, p.steps);
      if p.result.Err? then Next(s1, p.steps, false)
      else if !req.setActive then Next(s1, p.steps, true)
      else
        var n := SwitchTo(c, s1, p.result.value.slug, f, w);
        Next(n.s, p.steps + n.steps, n.ok)
  }

  function RemoveProfile(c: Config, s: State, slug: string, f: LegFaults, w: PS.Faults): Next
  {
    var s1 := if slug == s.slug then TearDownAll(s, f).(bundle := None, slug := "") else s;
    var p := PS.PlanRemove(s.disk, slug, w);
    Next(Write(s1, p.steps), p.steps, p.result.Ok?)
  }

  function RenameProfile(c: Config, s: State, slug: string, newName: string, now: int, w: PS.Faults): Next
  {
    var p := PS.PlanRename(c.lower, s.disk, slug, newName, now, w);
    var s1 := Write(s, p.steps);
    if p.result.Err? then Next(s1, p.steps, false)
    else Next(if s.slug == slug then s1.(slug := p.result.value.slug) else s1, p.steps, true)
  }

  // ---- mode and leg handlers ----

  /** The part of SetMode before anything is brought up. */
  function LeaveMode(s: State, newMode: Mode, f: LegFaults): State
  {
    var prev := s.mode;
    var s1 := s.(mode := newMode);
    var s2 := if IncludesWGCP0(prev) && !IncludesWGCP0(newMode) then TakeOuterDown(s1, f) else s1;
    var s3 := if IncludesNetbird(prev) && !IncludesNetbird(newMode) then DropMesh(s2) else s2;
    if !IncludesNetbird(prev) && IncludesNetbird(newMode) then PutMesh(s3) else s3
  }

  /** The bring-up of SetMode: the outer leg without DNS, then the mesh. */
  function EnterMode(c: Config, s: State, f: LegFaults): State
  {
    var s1 :=
      if IncludesWGCP0(s.mode) && s.bundle.Some? && c.tunnelOf(s.bundle.value).Some?
      then BringOuterUp(s, c.tunnelOf(s.bundle.value).value, f) else s;
    if IncludesNetbird(s.mode) && s.bundle.Some? then BringMeshUp(s1, f) else s1
  }

  /** Leave one mode, enter another, and record it in the active profile's meta. */
  function ChangeMode(c: Config, s: State, m: Mode, now: int, f: LegFaults, w: PS.Faults): Next
  {
    if m == s.mode then Stay(s, true)
    else
      var s1 := EnterMode(c, LeaveMode(s, m, f), f);
      if s.slug == "" then Stay(s1, true)
      else
        var p := PS.PlanUpdateMode(s.disk, s.slug, m, now, w);
        Next(Write(s1, p.steps), p.steps, true)
  }

  function SetMode(c: Config, s: State, text: string, now: int, f: LegFaults, w: PS.Faults): Next
  {
    match Modes.Parse(c.lower, text)
    case None => Stay(s, false)
    case Some(m) => ChangeMode(c, s, m, now, f, w)
  }

  function SetRosenpass(c: Config, s: State, r: Rosenpass, now: int, f: LegFaults, w: PS.Faults): Next
  {
    var s1 := s.(rosenpass := Some(r));
    var s2 :=
      if IncludesNetbird(s.mode) && s.mesh.Some? && s.bundle.Some? && s.mesh.value.state == Up
      then BringMeshUp(s1.(mesh := Some(MeshDisconnected(s.mesh.value))), f) else s1;
    if s.slug == "" then Stay(s2, true)
    else
      var p := PS.PlanUpdateRosenpass(s.disk, s.slug, Some(r.enabled), Some(r.permissive), now, w);
      Next(Write(s2, p.steps), p.steps, true)
  }

  function ConnectOuterLeg(c: Config, s: State, f: LegFaults): Next
    requires s.bundle.Some?
  {
    var cfg := c.tunnelOf(s.bundle.value);
    if cfg.None? then Stay(s, false)
    else if !ConfigureOk(s.outer, cfg.value, f.outer) then
      Stay(s.(outer := Configured(s.outer, cfg.value)), false)
    else
      var up := BringOuterUp(s, cfg.value, f);
      if OuterComesUp(s, cfg.value, f) then Stay(ApplyDns(c, up, cfg.value), true) else Stay(up, false)
  }

  function ConnectMeshLeg(s: State, f: LegFaults): Next
  {
    var s1 := (if s.mesh.None? then PutMesh(s) else s).(meshWanted := true);
    Stay(BringMeshUp(s1, f), MeshComesUp(s1, f))
  }

  function Connect(c: Config, s: State, f: LegFaults): Next
  {
    if s.bundle.None? then Stay(s, false)
    else
      var n := if IncludesWGCP0(s.mode) then ConnectOuterLeg(c, s, f) else Stay(s, true);
      if !n.ok then n
      else if IncludesNetbird(s.mode) then ConnectMeshLeg(n.s, f)
      else n
  }

  function Disconnect(s: State, f: LegFaults): Next
  {
    var s1 := if IncludesWGCP0(s.mode) then TakeOuterDown(s, f) else s;
    if IncludesWGCP0(s.mode) && !DisconnectOk(s.outer, f.outer) then Stay(s1, false)
    else if IncludesNetbird(s.mode) && s.mesh.Some? then
      Stay(s1.(meshWanted := false, mesh := Some(MeshDisconnected(s.mesh.value))), true)
    else Stay(s1, true)
  }

  function EnableInnerMesh(s: State, f: LegFaults): Next
  {
    if !IncludesNetbird(s.mode) || s.mesh.None? then Stay(s, false)
    else Stay(BringMeshUp(s.(meshWanted := true), f), MeshComesUp(s, f))
  }

  function DisableInnerMesh(s: State): Next
  {
    Stay(s.(meshWanted := false, mesh := if s.mesh.Some? then Some(MeshDisconnected(s.mesh.value)) else None), true)
  }

  /** The legs come down and are given up; the standing wish for the mesh stays. */
  function Shutdown(s: State, f: LegFaults): Next
  {
    var s1 := DropMesh(TakeOuterDown(s, f));
    Stay(s1.(outer := Released(s1.outer)), ReleaseOk(s1.outer, f.outer))
  }

  /** One tick of the mesh supervisor: reconnect a wanted mesh that settled in an error. */
  function SuperviseMesh(s: State, f: LegFaults): Next
  {
    if s.meshWanted && IncludesNetbird(s.mode) && s.mesh.Some? && s.bundle.Some? && s.mesh.value.state == Error
    then Stay(BringMeshUp(s, f), MeshComesUp(s, f)) else Stay(s, true)
  }

  /** The listener goes down or comes back; a change queues a callback. */
  function HealthChange(s: State, up: bool): Next
  {
    if s.fwd.addr.None? then Stay(s, true) else Stay(s.(fwd := SetHealth(s.fwd, up)), true)
  }

  /** onForwarderState: re-apply the variant that fits the current health. */
  function HealthCallback(c: Config, s: State): Next
  {
    if s.fwd.pending == 0 then Stay(s, true)
    else
      var s1 := s.(fwd := s.fwd.(pending := s.fwd.pending - 1));
      Stay(if s.lastDNS.Some? then ApplyCurrent(c, s1, s.lastDNS.value) else s1, true)
  }

  // ---- all of them ----

  datatype Call =
    | ImportCall(bytes: Bytes, now: int, w: PS.Faults)
    | AddProfileCall(req: AddProfileRequest, now: int, f: LegFaults, w: PS.Faults)
    | RemoveProfileCall(slug: string, f: LegFaults, w: PS.Faults)
    | RenameProfileCall(slug: string, newName: string, now: int, w: PS.Faults)
    | SetActiveProfileCall(slug: string, f: LegFaults, w: PS.Faults)
    | SetModeCall(text: string, now: int, f: LegFaults, w: PS.Faults)
    | SetRosenpassCall(r: Rosenpass, now: int, f: LegFaults, w: PS.Faults)
    | ConnectCall(f: LegFaults)
    | DisconnectCall(f: LegFaults)
    | EnableInnerMeshCall(f: LegFaults)
    | DisableInnerMeshCall
    | SupervisorTick(f: LegFaults)
    | ShutdownCall(f: LegFaults)
    | ListenerHealth(up: bool)
    | RunCallback

  function Handle(c: Config, s: State, call: Call): Next
  {
    match call
    case ImportCall(bytes, now, w) => ImportBundle(c, s, bytes, now, w)
    case AddProfileCall(req, now, f, w) => AddProfile(c, s, req, now, f, w)
    case RemoveProfileCall(slug, f, w) => RemoveProfile(c, s, slug, f, w)
    case RenameProfileCall(slug, newName, now, w) => RenameProfile(c, s, slug, newName, now, w)
    case SetActiveProfileCall(slug, f, w) => SetActiveProfile(c, s, slug, f, w)
    case SetModeCall(text, now, f, w) => SetMode(c, s, text, now, f, w)
    case SetRosenpassCall(r, now, f, w) => SetRosenpass(c, s, r, now, f, w)
    case ConnectCall(f) => Connect(c, s, f)
    case DisconnectCall(f) => Disconnect(s, f)
    case EnableInnerMeshCall(f) => EnableInnerMesh(s, f)
    case DisableInnerMeshCall => DisableInnerMesh(s)
    case SupervisorTick(f) => SuperviseMesh(s, f)
    case ShutdownCall(f) => Shutdown(s, f)
    case ListenerHealth(up) => HealthChange(s, up)
    case RunCallback => HealthCallback(c, s)
  }

  /** A process from start to end: started on a disk, then a sequence of calls. */
  function Served(c: Config, s: State, calls: seq<Call>): State
  {
    if calls == [] then s else Handle(c, Served(c, s, calls[..|calls| - 1]), calls[|calls| - 1]).s
  }

  // ---- the disk changes by file steps alone ----

  lemma TearDownKeepsDisk(s: State, m: Mode, f: LegFaults)
    ensures TearDownMode(s, m, f).disk == s.disk && TearDownAll(s, f).disk == s.disk
  {
  }

  lemma BringUpKeepsDisk(c: Config, s: State, bundle: Bytes, f: LegFaults)
    ensures BringUp(c, s, bundle, f).disk == s.disk
  {
  }

  lemma SwitchSteps(c: Config, s: State, slug: string, f: LegFaults, w: PS.Faults)
    ensures SwitchTo(c, s, slug, f, w).s.disk == PS.Replay(s.disk, SwitchTo(c, s, slug, f, w).steps)
  {
    var target := PS.Load(c.trust, s.disk, slug);
    if target.Ok? {
      var down := if s.slug != "" then TearDownMode(s, s.mode, f) else s;
      TearDownKeepsDisk(s, s.mode, f);
      BringUpKeepsDisk(c, SwapIn(down, slug, target.value.0, target.value.1), target.value.1, f);
    }
  }

  lemma AddProfileSteps(c: Config, s: State, req: AddProfileRequest, now: int, f: LegFaults, w: PS.Faults)
    ensures AddProfile(c, s, req, now, f, w).s.disk == PS.Replay(s.disk, AddProfile(c, s, req, now, f, w).steps)
  {
    var mode := if req.mode == "" then Some(s.mode) else Modes.Parse(c.lower, req.mode);
    if mode.Some? {
      var p := PS.PlanAdd(c.lower, c.trust, s.disk,
                          PS.AddRequest(req.name, mode.value, req.bytes, req.replace), now, w);
      if p.result.Ok? && req.setActive {
        var s1, slug := Write(s, p.steps), p.result.value.slug;
        SwitchSteps(c, s1, slug, f, w);
        PS.ReplayAppend(s.disk, p.steps, SwitchTo(c, s1, slug, f, w).steps);
      }
    }
  }

  lemma ChangeModeSteps(c: Config, s: State, m: Mode, now: int, f: LegFaults, w: PS.Faults)
    ensures ChangeMode(c, s, m, now, f, w).s.disk == PS.Replay(s.disk, ChangeMode(c, s, m, now, f, w).steps)
  {
    ModeChangeKeepsDisk(c, s, m, f);
  }

  lemma ModeChangeKeepsDisk(c: Config, s: State, m: Mode, f: LegFaults)
    ensures EnterMode(c, LeaveMode(s, m, f), f).disk == s.disk
    ensures EnterMode(c, LeaveMode(s, m, f), f).slug == s.slug
  {
  }

  lemma LegCallsKeepDisk(c: Config, s: State, f: LegFaults)
    ensures Connect(c, s, f).s.disk == s.disk && Connect(c, s, f).steps == []
    ensures Disconnect(s, f).s.disk == s.disk && Disconnect(s, f).steps == []
  {
  }

  lemma ImportSteps(c: Config, s: State, bytes: Bytes, now: int, w: PS.Faults)
    ensures ImportBundle(c, s, bytes, now, w).s.disk == PS.Replay(s.disk, ImportBundle(c, s, bytes, now, w).steps)
  {
    assert PS.Replay(s.disk, []) == s.disk;
    hide PS.PlanAdd, PlanDefault, PS.Replay, PS.Accepts, ReplaceRequest;
    assert ConfigureFrom(c, s, bytes).disk == s.disk;
  }

  /** Each handler's file steps lead from its disk before to its disk after. */
  lemma StepsAreTheDiskChange(c: Config, s: State, call: Call)
    ensures Handle(c, s, call).s.disk == PS.Replay(s.disk, Handle(c, s, call).steps)
  {
    hide ImportBundle, AddProfile, ChangeMode, SetRosenpass, Connect, Disconnect, Shutdown, SwitchTo, Modes.Parse,
      TearDownAll,
      PS.PlanRemove, PS.PlanRename, PS.Replay;
    assert PS.Replay(s.disk, []) == s.disk by { PS.ReplayNothing(s.disk); }
    match call
    case ImportCall(bytes, now, w) => ImportSteps(c, s, bytes, now, w);
    case AddProfileCall(req, now, f, w) => AddProfileSteps(c, s, req, now, f, w);
    case RemoveProfileCall(slug, f, w) => TearDownKeepsDisk(s, s.mode, f);
    case RenameProfileCall(slug, newName, now, w) =>
    case SetActiveProfileCall(slug, f, w) => SwitchSteps(c, s, slug, f, w);
    case SetModeCall(text, now, f, w) =>
      var m := Modes.Parse(c.lower, text);
      if m.Some? {
        ChangeModeSteps(c, s, m.value, now, f, w);
      }
    case SetRosenpassCall(r, now, f, w) => SetRosenpassSteps(c, s, r, now, f, w);
    case ConnectCall(f) => LegCallsKeepDisk(c, s, f);
    case DisconnectCall(f) => LegCallsKeepDisk(c, s, f);
    case EnableInnerMeshCall(f) =>
    case DisableInnerMeshCall =>
    case SupervisorTick(f) =>
    case ShutdownCall(f) => ShutdownIsFinal(s, f);
    case ListenerHealth(up) =>
    case RunCallback =>
  }

  /** Whatever fails, a shutdown leaves no tunnel, no mesh and no DNS config behind, and touches no file. */
  lemma ShutdownIsFinal(s: State, f: LegFaults)
    ensures var n := Shutdown(s, f);
            && !n.s.outer.made && n.s.outer.state == Closed && n.s.mesh.None?
            && n.s.lastDNS.None? && n.s.resolver == Restored
            && n.s.disk == s.disk && n.steps == []
            && n.s.slug == s.slug && n.s.bundle == s.bundle && n.s.mode == s.mode && n.s.rosenpass == s.rosenpass
            && n.s.dropped == s.dropped + if s.mesh.Some? then [MeshHandle(Closed, true, s.mesh.value.tried)] else []
  {
  }

  lemma SetRosenpassSteps(c: Config, s: State, r: Rosenpass, now: int, f: LegFaults, w: PS.Faults)
    ensures SetRosenpass(c, s, r, now, f, w).s.disk == PS.Replay(s.disk, SetRosenpass(c, s, r, now, f, w).steps)
  {
    assert PS.Replay(s.disk, []) == s.disk;
    hide PS.PlanUpdateRosenpass, PS.Replay;
  }
}
