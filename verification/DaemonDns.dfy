/**
  Host DNS over every run: what the resolver is once no health callback waits,
  and exactly when a fallen forwarder's fronting is undone.
*/
module DaemonDns {
  import opened Results
  import opened Modes
  import opened Legs
  import PS = ProfileStore
  import opened DaemonModel
  import opened DaemonProfiles
  import opened DaemonLegs

  /** There is a nameserver to point at, on a port and for domains the platform can express. */
  predicate Expressible(c: Config, direct: DnsConfig)
  {
    direct.servers != [] && PortOk(c.platform, direct.port) && DomainsOk(c.platform, direct)
  }

  /** Where the resolver should point: at the forwarder while it fronts, else at the mesh nameservers. */
  function Wanted(c: Config, f: Fwd, d: AppliedDns): Resolver
  {
    Pointed(d.iface, if Fronts(c, f) then FrontedDns(d.direct, f.addr.value) else d.direct)
  }

  /**
    An expressible config is where it should be as soon as no callback waits;
    without a config the resolver is restored.
  */
  predicate DnsFits(c: Config, s: State)
  {
    match s.lastDNS
    case None => s.resolver == Restored
    case Some(d) =>
      && IncludesWGCP0(s.mode) && s.slug != ""
      && (Expressible(c, d.direct) && s.fwd.pending == 0 ==> s.resolver == Wanted(c, s.fwd, d))
  }

  /**
    The direct config for a bundle's own one: each list is the bundle's if it
    has any, else that of the config file, whose port goes with its nameservers.
  */
  predicate Merged(c: Config, own: DnsConfig, d: DnsConfig)
  {
    && d.servers == (if own.servers != [] then own.servers else c.meshDns.servers)
    && d.port == (if own.servers != [] then 0 else c.meshDns.port)
    && d.searchDomains == (if own.searchDomains != [] then own.searchDomains else c.meshDns.searchDomains)
    && d.matchDomains == (if own.matchDomains != [] then own.matchDomains else c.meshDns.matchDomains)
  }

  /** The recorded config is the merged one of the bundle's tunnel. */
  predicate Records(c: Config, s: State, bundle: Bytes)
  {
    && c.tunnelOf(bundle).Some? && s.lastDNS.Some?
    && s.lastDNS.value.iface == c.tunnelOf(bundle).value.iface
    && Merged(c, c.tunnelOf(bundle).value.dns, s.lastDNS.value.direct)
  }

  /** The part of the state that host DNS depends on. */
  predicate SameDns(a: State, b: State)
  {
    a.lastDNS == b.lastDNS && a.resolver == b.resolver && a.fwd == b.fwd
  }

  // ---- one handler at a time ----

  lemma ApplyLands(c: Config, s: State, d: AppliedDns)
    ensures Expressible(c, d.direct) ==> ApplyCurrent(c, s, d).resolver == Wanted(c, s.fwd, d)
  {
  }

  /** Bringing the legs up applies DNS or leaves it alone. */
  lemma BringUpDns(c: Config, s: State, bundle: Bytes, f: LegFaults)
    requires s.slug != "" && s.lastDNS.None? && s.resolver == Restored
    ensures DnsFits(c, BringUp(c, s, bundle, f))
  {
    var cfg := c.tunnelOf(bundle);
    if cfg.Some? && IncludesWGCP0(s.mode) {
      var d := AppliedDns(cfg.value.iface, DirectDns(c, cfg.value.dns));
      var up := BringOuterUp(s, cfg.value, f);
      ApplyLands(c, up.(lastDNS := Some(d)), d);
    }
  }

  lemma TearDownDns(c: Config, s: State, f: LegFaults)
    requires DnsFits(c, s)
    ensures var d := TearDownMode(s, s.mode, f); d.lastDNS.None? && d.resolver == Restored
  {
  }

  lemma SwapInDns(s: State, slug: string, m: PS.Meta, bundle: Bytes)
    ensures var n := SwapIn(s, slug, m, bundle); SameDns(s, n) && n.slug == slug
  {
  }

  lemma SwitchDns(c: Config, s: State, slug: string, f: LegFaults, w: PS.Faults)
    requires DnsFits(c, s) && slug != ""
    ensures DnsFits(c, SwitchTo(c, s, slug, f, w).s)
  {
    hide PS.Replay, PS.PlanSetActive, BringUp, TearDownMode, SwapIn, DnsFits;
    var target := PS.Load(c.trust, s.disk, slug);
    if target.Ok? {
      var down := if s.slug != "" then TearDownMode(s, s.mode, f) else s;
      assert down.lastDNS.None? && down.resolver == Restored by {
        NoProfileNoDns(c, s);
        TearDownDns(c, s, f);
      }
      SwapInDns(down, slug, target.value.0, target.value.1);
      var up := BringUp(c, SwapIn(down, slug, target.value.0, target.value.1), target.value.1, f);
      BringUpDns(c, SwapIn(down, slug, target.value.0, target.value.1), target.value.1, f);
      WriteDns(c, up, PS.PlanSetActive(s.disk, slug, w).steps);
    }
  }

  lemma NoProfileNoDns(c: Config, s: State)
    ensures DnsFits(c, s) && s.slug == "" ==> s.lastDNS.None? && s.resolver == Restored
  {
  }

  lemma WriteDns(c: Config, s: State, steps: seq<PS.Step>)
    requires DnsFits(c, s)
    ensures DnsFits(c, Write(s, steps))
  {
  }

  lemma AddProfileDns(c: Config, s: State, req: AddProfileRequest, now: int, f: LegFaults, w: PS.Faults)
    requires DnsFits(c, s)
    ensures DnsFits(c, AddProfile(c, s, req, now, f, w).s)
  {
    hide SwitchTo, PS.Replay, Modes.Parse, DnsFits, Write;
    var mode := if req.mode == "" then Some(s.mode) else Modes.Parse(c.lower, req.mode);
    if mode.Some? {
      var p := PS.PlanAdd(c.lower, c.trust, s.disk,
                          PS.AddRequest(req.name, mode.value, req.bytes, req.replace), now, w);
      WriteDns(c, s, p.steps);
      if p.result.Ok? && req.setActive {
        ValidNameIsNotEmpty(c.lower, req.name);
        SwitchDns(c, Write(s, p.steps), p.result.value.slug, f, w);
      }
    }
  }

  lemma ImportDns(c: Config, s: State, bytes: Bytes, now: int, w: PS.Faults)
    requires DnsFits(c, s)
    ensures DnsFits(c, ImportBundle(c, s, bytes, now, w).s)
  {
    hide PS.Replay, PS.PlanAdd, PlanDefault, PS.Accepts;
    assert SameDns(s, ConfigureFrom(c, s, bytes));
  }

  lemma RemoveDns(c: Config, s: State, slug: string, f: LegFaults, w: PS.Faults)
    requires DnsFits(c, s)
    ensures DnsFits(c, RemoveProfile(c, s, slug, f, w).s)
  {
    hide PS.Replay, PS.PlanRemove;
  }

  lemma RenameDns(c: Config, s: State, slug: string, newName: string, now: int, w: PS.Faults)
    requires DnsFits(c, s)
    ensures DnsFits(c, RenameProfile(c, s, slug, newName, now, w).s)
  {
    hide PS.Replay;
    ValidNameIsNotEmpty(c.lower, newName);
  }

  lemma ChangeModeDns(c: Config, s: State, m: Mode, now: int, f: LegFaults, w: PS.Faults)
    requires DnsFits(c, s)
    ensures DnsFits(c, ChangeMode(c, s, m, now, f, w).s)
  {
    hide PS.Replay, PS.PlanUpdateMode, LeaveMode, EnterMode;
    LeaveModeDns(c, s, m, f);
    EnterModeDns(c, LeaveMode(s, m, f), f);
  }

  lemma LeaveModeDns(c: Config, s: State, m: Mode, f: LegFaults)
    requires DnsFits(c, s)
    ensures DnsFits(c, LeaveMode(s, m, f))
  {
  }

  lemma EnterModeDns(c: Config, s: State, f: LegFaults)
    ensures var n := EnterMode(c, s, f); SameDns(s, n) && SameProfile(s, n)
  {
  }

  lemma SetRosenpassDns(c: Config, s: State, r: Rosenpass, now: int, f: LegFaults, w: PS.Faults)
    requires DnsFits(c, s)
    ensures DnsFits(c, SetRosenpass(c, s, r, now, f, w).s)
  {
    hide PS.Replay, PS.PlanUpdateRosenpass;
  }

  lemma ConnectDns(c: Config, s: State, f: LegFaults)
    requires DnsFits(c, s) && (s.slug == "" ==> s.bundle.None?)
    ensures DnsFits(c, Connect(c, s, f).s)
  {
    if s.bundle.Some? {
      var n := Stay(s, true);
      if IncludesWGCP0(s.mode) {
        n := ConnectOuterLeg(c, s, f);
        ConnectOuterDns(c, s, f);
      }
      assert SameDns(n.s, ConnectMeshLeg(n.s, f).s) && SameProfile(n.s, ConnectMeshLeg(n.s, f).s);
    }
  }

  lemma ConnectOuterDns(c: Config, s: State, f: LegFaults)
    requires DnsFits(c, s) && s.bundle.Some? && s.slug != "" && IncludesWGCP0(s.mode)
    ensures var n := ConnectOuterLeg(c, s, f).s; DnsFits(c, n) && SameProfile(s, n)
  {
    var cfg := c.tunnelOf(s.bundle.value);
    if cfg.Some? {
      var d := AppliedDns(cfg.value.iface, DirectDns(c, cfg.value.dns));
      var up := BringOuterUp(s, cfg.value, f);
      ApplyLands(c, up.(lastDNS := Some(d)), d);
    }
  }

  lemma LegCallsDns(c: Config, s: State, f: LegFaults)
    requires DnsFits(c, s)
    ensures DnsFits(c, Disconnect(s, f).s)
    ensures DnsFits(c, EnableInnerMesh(s, f).s)
    ensures DnsFits(c, DisableInnerMesh(s).s)
    ensures DnsFits(c, SuperviseMesh(s, f).s)
    ensures DnsFits(c, Shutdown(s, f).s)
  {
  }

  lemma HealthCallsDns(c: Config, s: State, up: bool)
    requires DnsFits(c, s)
    ensures DnsFits(c, HealthChange(s, up).s)
    ensures DnsFits(c, HealthCallback(c, s).s)
  {
    if s.fwd.pending > 0 && s.lastDNS.Some? {
      ApplyLands(c, s.(fwd := s.fwd.(pending := s.fwd.pending - 1)), s.lastDNS.value);
    }
  }

  lemma HandleKeepsDns(c: Config, s: State, call: Call)
    requires DnsFits(c, s) && (s.slug == "" ==> s.bundle.None?)
    ensures DnsFits(c, Handle(c, s, call).s)
  {
    hide DnsFits, ImportBundle, AddProfile, RemoveProfile, RenameProfile, ChangeMode, SetRosenpass, Connect,
      Disconnect, EnableInnerMesh, DisableInnerMesh, SuperviseMesh, Shutdown, HealthChange, HealthCallback, SwitchTo,
      Modes.Parse;
    match call
    case ImportCall(bytes, now, w) => ImportDns(c, s, bytes, now, w);
    case AddProfileCall(req, now, f, w) => AddProfileDns(c, s, req, now, f, w);
    case RemoveProfileCall(slug, f, w) => RemoveDns(c, s, slug, f, w);
    case RenameProfileCall(slug, newName, now, w) => RenameDns(c, s, slug, newName, now, w);
    case SetActiveProfileCall(slug, f, w) =>
      if slug != "" {
        SwitchDns(c, s, slug, f, w);
      }
    case SetModeCall(text, now, f, w) =>
      var m := Modes.Parse(c.lower, text);
      if m.Some? {
        ChangeModeDns(c, s, m.value, now, f, w);
      }
    case SetRosenpassCall(r, now, f, w) => SetRosenpassDns(c, s, r, now, f, w);
    case ConnectCall(f) => ConnectDns(c, s, f);
    case DisconnectCall(f) => LegCallsDns(c, s, f);
    case EnableInnerMeshCall(f) => LegCallsDns(c, s, f);
    case DisableInnerMeshCall => LegCallsDns(c, s, LegFaults(NO_OUTER_FAULTS, Succeeds));
    case SupervisorTick(f) => LegCallsDns(c, s, f);
    case ShutdownCall(f) => LegCallsDns(c, s, f);
    case ListenerHealth(up) => HealthCallsDns(c, s, up);
    case RunCallback => HealthCallsDns(c, s, true);
  }

  // ---- whole runs ----

  lemma BootDns(c: Config, d: PS.Disk, bound: Option<Endpoint>, now: int, w: PS.Faults)
    ensures DnsFits(c, LoadPersisted(c, Fresh(c, d, bound), now, w).s)
  {
    hide PS.Replay, PS.PlanMigrate, PS.Load;
  }

  /**
    In every run: without a recorded DNS config the resolver is restored; one is
    recorded only in a mode with the outer leg and with a profile; and whenever
    no health callback waits, a recorded config the platform can express is in
    force on its interface with its domains, on the forwarder's address and port
    while that can front it, and on its own nameservers and port otherwise.
  */
  lemma RunDns(c: Config, d: PS.Disk, bound: Option<Endpoint>, now: int, w: PS.Faults, calls: seq<Call>)
    requires Bootable(c, d)
    ensures var s := RunOf(c, d, bound, now, w, calls);
            && (s.lastDNS.None? ==> s.resolver == Restored)
            && (s.lastDNS.Some? ==> (s.mode == WGCP0Only || s.mode == Combined) && s.slug != "")
            && (s.lastDNS.Some? && s.fwd.pending == 0 ==> Settled(c, s.fwd, s.lastDNS.value, s.resolver))
  {
    hide RunOf, Bootable;
    RunDnsFits(c, d, bound, now, w, calls);
  }

  /** Ports other than the DNS one cannot be expressed on Windows. */
  predicate Expresses(on: Platform, port: nat)
  {
    on == Linux || on == MacOS || port == 0 || port == 53
  }

  predicate Settled(c: Config, f: Fwd, d: AppliedDns, r: Resolver)
  {
    var named := d.direct.searchDomains != [] || d.direct.matchDomains != [];
    d.direct.servers != [] && Expresses(c.platform, d.direct.port) && (c.platform == Linux || named) ==>
      && r.Pointed? && r.iface == d.iface
      && r.cfg.searchDomains == d.direct.searchDomains && r.cfg.matchDomains == d.direct.matchDomains
      && if c.fronting && c.names && f.healthy && f.addr.Some? && Expresses(c.platform, f.addr.value.port)
         then r.cfg.servers == [f.addr.value.addr] && r.cfg.port == f.addr.value.port
         else r.cfg.servers == d.direct.servers && r.cfg.port == d.direct.port
  }

  lemma {:induction false} RunDnsFits(c: Config, d: PS.Disk, bound: Option<Endpoint>, now: int, w: PS.Faults,
                                      calls: seq<Call>)
    requires Bootable(c, d)
    ensures DnsFits(c, RunOf(c, d, bound, now, w, calls))
  {
    hide Handle, LoadPersisted, DnsFits, Bootable;
    if calls == [] {
      BootDns(c, d, bound, now, w);
    } else {
      var front := calls[..|calls| - 1];
      RunDnsFits(c, d, bound, now, w, front);
      RunSane(c, d, bound, now, w, front);
      HandleKeepsDns(c, RunOf(c, d, bound, now, w, front), calls[|calls| - 1]);
    }
  }

  /**
    Expressible is what makes fronting safe to undo: after the forwarder falls
    and the callback has run, the resolver is back on the mesh nameservers if
    and only if the direct config is expressible.  It stays on the dead
    forwarder exactly when Apply does nothing with the direct config: without
    nameservers, on a port the platform cannot express, or on Windows without
    domains.
  */
  lemma FallenForwarderIsUndone(c: Config, s: State)
    requires s.lastDNS.Some? && s.fwd.pending == 0 && Fronts(c, s.fwd)
    requires s.resolver == Wanted(c, s.fwd, s.lastDNS.value)
    requires FrontedDns(s.lastDNS.value.direct, s.fwd.addr.value) != s.lastDNS.value.direct
    ensures var n, direct := Served(c, s, [ListenerHealth(false), RunCallback]), s.lastDNS.value.direct;
            && n.fwd.pending == 0 && !n.fwd.healthy && n.lastDNS == s.lastDNS
            && (n.resolver == Wanted(c, n.fwd, n.lastDNS.value) <==> Expressible(c, direct))
            && (n.resolver == s.resolver <==>
                  direct.servers == [] || !PortOk(c.platform, direct.port)
                  || (c.platform.Windows? && !DomainsOk(c.platform, direct)))
  {
    var calls := [ListenerHealth(false), RunCallback];
    assert calls[..1] == [ListenerHealth(false)] && calls[..1][..0] == [];
    assert Served(c, s, calls[..1]) == HealthChange(s, false).s;
  }
}
