/**
  What each handler achieves: which legs are up after it, what memory and disk
  then say, exactly when it succeeds, and what a restart finds.
*/
module DaemonOutcomes {
  import opened Results
  import opened Modes
  import opened Legs
  import opened Text
  import PS = ProfileStore
  import opened ProfileSafety
  import opened DaemonModel
  import opened DaemonProfiles
  import opened DaemonSync
  import opened DaemonHistories
  import opened DaemonLegs
  import opened DaemonDns

  /** Nothing stands in the way of an outer tunnel of this config. */
  predicate OuterCan(cfg: Option<TunnelConfig>, o: Outer, f: LegFaults)
  {
    cfg.Some? && (cfg.value.keysOk || o.cfg.Some?) && !f.outer.configure && !f.outer.up && (o.made || !f.outer.create)
  }

  /** The manager holds the bundle's config, if it has a well-formed one. */
  predicate Holds(c: Config, s: State, bundle: Bytes)
  {
    var cfg := c.tunnelOf(bundle);
    cfg.Some? && cfg.value.keysOk ==> s.outer.cfg == cfg
  }

  // ---- connecting and disconnecting ----

  predicate CanConnect(c: Config, s: State, f: LegFaults)
  {
    && s.bundle.Some?
    && (IncludesWGCP0(s.mode) ==>
          var cfg := c.tunnelOf(s.bundle.value);
          OuterCan(cfg, s.outer, f) && ConfigureOk(s.outer, cfg.value, f.outer))
    && (IncludesNetbird(s.mode) ==> f.mesh.Succeeds?)
  }

  /** A connect gets as far as the mesh leg. */
  predicate TriesMesh(c: Config, s: State, f: LegFaults)
  {
    && s.bundle.Some? && (s.mode == NetbirdOnly || s.mode == Combined)
    && (s.mode == Combined ==>
          var cfg := c.tunnelOf(s.bundle.value);
          OuterCan(cfg, s.outer, f) && ConfigureOk(s.outer, cfg.value, f.outer))
  }

  /** How a bring-up leaves a handle. */
  function SettledAs(b: Bringup): LegState
  {
    match b case Succeeds => Up case Fails => Error case Cancelled => Closed
  }

  /** The outer leg of a connect touches the tunnel and, once that is up, DNS. */
  lemma ConnectOuterIs(c: Config, s: State, f: LegFaults)
    requires LegsFit(s) && s.bundle.Some?
    ensures var n, cfg := ConnectOuterLeg(c, s, f), c.tunnelOf(s.bundle.value);
            && n.steps == []
            && n.s == s.(outer := n.s.outer, lastDNS := n.s.lastDNS, resolver := n.s.resolver)
            && (n.ok <==> OuterCan(cfg, s.outer, f) && ConfigureOk(s.outer, cfg.value, f.outer))
            && (n.ok ==> Holds(c, n.s, s.bundle.value) && n.s.outer.state == Up && Records(c, n.s, s.bundle.value))
            && (n.s.outer.state != Up ==> n.s.lastDNS == s.lastDNS && n.s.resolver == s.resolver)
            && if cfg.None? || !ConfigureOk(s.outer, cfg.value, f.outer)
               then n.s.outer.state == s.outer.state && n.s.outer.made == s.outer.made
               else
                 && n.s.outer.made == (s.outer.made || !f.outer.create)
                 && n.s.outer.state == if OuterCan(cfg, s.outer, f) then Up else Error
  {
    hide FrontedDns, Applied, Fronts;
  }

  /** The mesh leg makes the mesh wanted, whatever becomes of it, and a handle if there is none. */
  lemma ConnectMeshIs(s: State, f: LegFaults)
    requires s.mesh.Some? ==> Open(s.mesh.value)
    ensures var n := ConnectMeshLeg(s, f);
            && n.steps == [] && (n.ok <==> f.mesh.Succeeds?)
            && n.s == s.(meshWanted := true, mesh := Some(MeshHandle(SettledAs(f.mesh), false, true)))
  {
  }

  /**
    Connect succeeds exactly when there is a bundle and every leg of the mode
    comes up; then those legs are up, and the DNS config recorded is the merged
    one of the bundle.  Whether it succeeds or not, the mesh is wanted and its
    handle settled as the bring-up ends once the mesh leg is tried; before that
    nothing about the mesh changes, and a failing outer leg leaves DNS alone.
  */
  lemma ConnectWorks(c: Config, s: State, f: LegFaults)
    requires LegsFit(s)
    ensures var n := Connect(c, s, f);
            && (n.ok <==> CanConnect(c, s, f))
            && (n.ok && IncludesWGCP0(s.mode) ==>
                  Holds(c, n.s, s.bundle.value) && n.s.outer.state == Up && Records(c, n.s, s.bundle.value))
            && (n.ok && IncludesNetbird(s.mode) ==> MeshUp(n.s))
            && n.s.meshWanted == (s.meshWanted || TriesMesh(c, s, f))
            && n.s.mesh == (if TriesMesh(c, s, f) then Some(MeshHandle(SettledAs(f.mesh), false, true)) else s.mesh)
            && n.s.dropped == s.dropped && n.s.fwd == s.fwd && n.steps == []
            && (s.mode == NetbirdOnly ==> n.s.outer == s.outer)
            && (s.mode == NetbirdOnly || n.s.outer.state != Up ==>
                  n.s.lastDNS == s.lastDNS && n.s.resolver == s.resolver)
  {
    hide ConnectOuterLeg, ConnectMeshLeg, OuterCan, ConfigureOk, Holds, Records;
    if s.bundle.Some? {
      var n := Stay(s, true);
      if IncludesWGCP0(s.mode) {
        n := ConnectOuterLeg(c, s, f);
        ConnectOuterIs(c, s, f);
        ConnectMeshIs(n.s, f);
        HoldsIs(c, n.s, ConnectMeshLeg(n.s, f).s, s.bundle.value);
      } else {
        ConnectMeshIs(s, f);
      }
    }
  }

  lemma HoldsIs(c: Config, a: State, b: State, bundle: Bytes)
    requires a.outer == b.outer && a.lastDNS == b.lastDNS
    ensures Holds(c, a, bundle) == Holds(c, b, bundle) && Records(c, a, bundle) == Records(c, b, bundle)
  {
  }

  /** The legs each mode is for. */
  lemma ConnectPerMode(c: Config, s: State, f: LegFaults)
    requires LegsFit(s) && Connect(c, s, f).ok && Modes.Valid(s.mode)
    ensures var n := Connect(c, s, f).s;
            && (if s.mode == NetbirdOnly then n.outer == s.outer else n.outer.state == Up)
            && (if s.mode == WGCP0Only then n.mesh == s.mesh else MeshUp(n))
  {
    hide Connect, LegsFit;
    ConnectWorks(c, s, f);
  }

  /**
    Disconnect fails only on a tunnel that will not go down.  When it succeeds
    neither leg is up, whatever the mode, and no DNS config is left.
  */
  lemma DisconnectWorks(c: Config, s: State, f: LegFaults)
    requires LegsFit(s) && DnsFits(c, s)
    ensures var n := Disconnect(s, f);
            && (n.ok <==> !(IncludesWGCP0(s.mode) && s.outer.made && f.outer.down))
            && (n.ok ==> n.s.outer.state != Up && !MeshUp(n.s))
            && n.s.lastDNS.None? && n.s.resolver == Restored
            && n.s.outer.state == (if !n.ok then Error
                                   else if s.mode == WGCP0Only || s.mode == Combined then Closed else s.outer.state)
            && n.s.mesh == (if n.ok && (s.mode == NetbirdOnly || s.mode == Combined) && s.mesh.Some?
                            then Some(MeshHandle(Closed, false, s.mesh.value.tried)) else s.mesh)
  {
  }

  /** Connecting and then disconnecting without failures leaves both legs and the resolver as before a first connect. */
  lemma ConnectThenDisconnect(c: Config, s: State, f: LegFaults)
    requires LegsFit(s) && DnsFits(c, s) && (s.slug == "" ==> s.bundle.None?)
    requires Connect(c, s, f).ok
    ensures var n := Disconnect(Connect(c, s, f).s, LegFaults(NO_OUTER_FAULTS, Succeeds));
            n.ok && n.s.outer.state != Up && !MeshUp(n.s) && n.s.resolver == Restored && SameProfile(s, n.s)
  {
    hide Connect, Disconnect, DnsFits, LegsFit;
    var up := Connect(c, s, f).s;
    ConnectKeeps(c, s, f);
    ConnectDns(c, s, f);
    ConnectSameProfile(c, s, f);
    DisconnectWorks(c, up, LegFaults(NO_OUTER_FAULTS, Succeeds));
    DisconnectSameProfile(up, LegFaults(NO_OUTER_FAULTS, Succeeds));
  }

  // ---- the mesh supervisor over a run of ticks ----

  /** Ticks one after the other, each with how its attempt ends, if it makes one. */
  function Ticked(s: State, fs: seq<LegFaults>): State
  {
    if fs == [] then s else SuperviseMesh(Ticked(s, fs[..|fs| - 1]), fs[|fs| - 1]).s
  }

  /** The first bring-up of a run that does not fail. */
  function FirstSettling(fs: seq<LegFaults>): Option<Bringup>
  {
    if fs == [] then None
    else
      var before, last := FirstSettling(fs[..|fs| - 1]), fs[|fs| - 1].mesh;
      if before.Some? then before else if last.Fails? then None else Some(last)
  }

  // ---- turning the mesh on and off ----

  /**
    Turning the mesh off works in any mode: it is down and no longer wanted, its
    handle is kept and as open as before, and nothing else changes, on disk or in
    memory.  No run of supervisor ticks brings it up again.
  */
  lemma {:induction false} DisableWorks(s: State, fs: seq<LegFaults>)
    ensures var n := DisableInnerMesh(s);
            && n.ok && n.steps == [] && !n.s.meshWanted && !MeshUp(n.s)
            && n.s.mesh == (match s.mesh case None => None case Some(m) => Some(MeshHandle(Closed, m.closed, m.tried)))
            && n.s == s.(meshWanted := false, mesh := n.s.mesh)
            && Ticked(n.s, fs) == n.s
  {
    if fs != [] {
      DisableWorks(s, fs[..|fs| - 1]);
    }
  }

  /**
    Turning it on is refused without effect outside a mesh mode or without a
    handle.  Else the mesh is wanted even when the attempt fails, comes up
    exactly when it can, and nothing else changes; a failed attempt is retried by
    the supervisor while there is a bundle, until one does not fail.
  */
  lemma EnableWorks(s: State, f: LegFaults, fs: seq<LegFaults>)
    requires LegsFit(s)
    ensures var n, can := EnableInnerMesh(s, f), (s.mode == NetbirdOnly || s.mode == Combined) && s.mesh.Some?;
            && n.steps == [] && (n.ok <==> can && f.mesh.Succeeds?)
            && (!can ==> n.s == s)
            && (can ==>
                  && n.s.meshWanted && n.s == s.(meshWanted := true, mesh := n.s.mesh)
                  && n.s.mesh == Some(MeshHandle(SettledAs(f.mesh), false, true))
                  && (s.bundle.Some? && f.mesh.Fails? ==>
                        (MeshUp(Ticked(n.s, fs)) <==> FirstSettling(fs) == Some(Succeeds))))
  {
    var n := EnableInnerMesh(s, f).s;
    if IncludesNetbird(s.mode) && s.mesh.Some? && s.bundle.Some? && f.mesh.Fails? {
      SupervisorRecovers(n, fs);
    }
  }

  /**
    A wanted mesh that settled in an error is retried until an attempt does not
    fail: it ends up if and only if that attempt succeeds.  One that is
    cancelled instead leaves this mesh closed, and it is not retried again.
    Nothing else changes.
  */
  lemma {:induction false} SupervisorRecovers(s: State, fs: seq<LegFaults>)
    requires LegsFit(s) && s.meshWanted && IncludesNetbird(s.mode) && s.bundle.Some?
    requires s.mesh.Some? && s.mesh.value.state == Error
    ensures var n := Ticked(s, fs);
            && n == s.(mesh := n.mesh) && n.mesh.Some? && LegsFit(n)
            && (MeshUp(n) <==> FirstSettling(fs) == Some(Succeeds))
            && n.mesh.value.state == (match FirstSettling(fs)
                                      case None => Error
                                      case Some(Succeeds) => Up
                                      case Some(_) => Closed)
  {
    if fs != [] {
      SupervisorRecovers(s, fs[..|fs| - 1]);
    }
  }

  // ---- switching profiles ----

  /** The legs a state ends with after a bring-up of its own bundle. */
  predicate BroughtUp(c: Config, from: Outer, n: State, bundle: Bytes, f: LegFaults)
  {
    && (n.outer.state == Up <==> IncludesWGCP0(n.mode) && OuterCan(c.tunnelOf(bundle), from, f))
    && (MeshUp(n) <==> IncludesNetbird(n.mode) && f.mesh.Succeeds?)
    && (n.lastDNS.Some? <==> n.outer.state == Up)
    && (n.outer.state == Up ==> Records(c, n, bundle))
    && Holds(c, n, bundle)
  }

  lemma BringUpWorks(c: Config, s: State, bundle: Bytes, f: LegFaults)
    requires s.outer.state != Up && s.lastDNS.None?
    requires s.mesh.Some? <==> IncludesNetbird(s.mode)
    requires s.mesh.Some? ==> Open(s.mesh.value)
    ensures BroughtUp(c, s.outer, BringUp(c, s, bundle, f), bundle, f)
  {
    hide ApplyDns, Merged, Connected, Configured, BringMeshUp;
    var cfg := c.tunnelOf(bundle);
    if cfg.Some? {
      OuterUpIs(c, s, bundle, f);
    }
    MeshUpIs(s, f);
    if cfg.Some? && IncludesWGCP0(s.mode) {
      MeshUpIs(BringOuterUp(s, cfg.value, f), f);
      MeshUpIs(ApplyDns(c, BringOuterUp(s, cfg.value, f), cfg.value), f);
    } else if cfg.Some? {
      MeshUpIs(s.(outer := Configured(s.outer, cfg.value)), f);
    }
  }

  lemma MeshUpIs(s: State, f: LegFaults)
    requires s.mesh.Some? ==> Open(s.mesh.value)
    ensures var n := BringMeshUp(s, f);
            && n == s.(mesh := n.mesh)
            && (if s.mesh.Some? then n.mesh.Some? && (MeshUp(n) <==> f.mesh.Succeeds?) else n.mesh.None?)
  {
  }

  lemma OuterUpIs(c: Config, s: State, bundle: Bytes, f: LegFaults)
    requires c.tunnelOf(bundle).Some? && s.outer.state != Up
    ensures var cfg := c.tunnelOf(bundle).value;
            var up := BringOuterUp(s, cfg, f);
            var n := ApplyDns(c, up, cfg);
            && (OuterComesUp(s, cfg, f) <==> OuterCan(Some(cfg), s.outer, f))
            && (up.outer.state == Up <==> OuterComesUp(s, cfg, f))
            && up == s.(outer := up.outer)
            && n == up.(lastDNS := n.lastDNS, resolver := n.resolver) && Records(c, n, bundle)
            && Holds(c, up, bundle)
            && Configured(s.outer, cfg).state == s.outer.state
            && (cfg.keysOk ==> Configured(s.outer, cfg).cfg == Some(cfg))
  {
    hide FrontedDns, Applied, Fronts;
  }

  /** What the teardown before a switch leaves. */
  function Downed(s: State, f: LegFaults): State
  {
    if s.slug != "" then TearDownMode(s, s.mode, f) else s
  }

  lemma DownedLegs(c: Config, s: State, f: LegFaults)
    requires LegsFit(s) && DnsFits(c, s)
    ensures var d := Downed(s, f);
            && d.outer.state != Up && d.lastDNS.None? && (d.mesh.Some? ==> Open(d.mesh.value))
            && d.outer.cfg == s.outer.cfg && d.outer.made == s.outer.made
  {
  }

  /**
    A switch succeeds exactly when the profile loads.  Then memory names it, and
    so does the marker unless its write fails; mode, bundle and Rosenpass override
    are the stored ones, each leg is up exactly when the stored mode includes it
    and nothing hinders it, and DNS is recorded with the outer leg as merged from
    the new bundle and the config file.
  */
  lemma SwitchWorks(c: Config, s: State, slug: string, f: LegFaults, w: PS.Faults)
    requires LegsFit(s) && DnsFits(c, s) && slug != ""
    ensures var n, target := SwitchTo(c, s, slug, f, w), PS.Load(c.trust, s.disk, slug);
            && (n.ok <==> target.Ok?)
            && (!n.ok ==> n.s == s)
            && (n.ok ==>
                  var (m, bundle) := target.value;
                  && n.s.slug == slug && n.s.disk == (if w.writeMarker then s.disk else s.disk.(marker := slug))
                  && n.s.bundle == Some(bundle) && n.s.mode == (if m.mode.Other? then Combined else m.mode)
                  && (m.rosenpassEnabled.None? ==> n.s.rosenpass.None?)
                  && (m.rosenpassEnabled.Some? ==>
                        n.s.rosenpass == Some(Rosenpass(m.rosenpassEnabled.value, m.rosenpassPermissive == Some(true))))
                  && BroughtUp(c, s.outer, n.s, bundle, f))
  {
    hide BringUp, TearDownMode, SwapIn, PS.PlanSetActive, PS.Replay, LegsFit, DnsFits, BroughtUp;
    var target := PS.Load(c.trust, s.disk, slug);
    if target.Ok? {
      var (m, bundle) := target.value;
      var down := Downed(s, f);
      var swapped := SwapIn(down, slug, m, bundle);
      var up := BringUp(c, swapped, bundle, f);
      DownedLegs(c, s, f);
      SwapInIs(down, slug, m, bundle);
      BringUpWorks(c, swapped, bundle, f);
      BringUpKeepsMemory(c, swapped, bundle, f);
      BringUpKeepsOverride(c, swapped, bundle, f);
      TearDownKeepsDisk(s, s.mode, f);
      SetActiveOutcome(s.disk, slug, w);
      BroughtUpFrom(c, s.outer, swapped.outer, Write(up, PS.PlanSetActive(s.disk, slug, w).steps), up, bundle, f);
    }
  }

  lemma SwapInIs(s: State, slug: string, m: PS.Meta, bundle: Bytes)
    requires s.mesh.Some? ==> Open(s.mesh.value)
    ensures var n := SwapIn(s, slug, m, bundle);
            && n.slug == slug && n.bundle == Some(bundle) && n.mode == TargetMode(m) && n.rosenpass == OverrideOf(m)
            && n.disk == s.disk && n.outer == s.outer && n.lastDNS == s.lastDNS
            && (n.mesh.Some? <==> IncludesNetbird(n.mode))
            && (n.mesh.Some? ==> Open(n.mesh.value))
  {
  }

  /** What BroughtUp says depends on the old outer manager's tunnel alone, and on the new legs. */
  lemma BroughtUpFrom(c: Config, a: Outer, b: Outer, m: State, n: State, bundle: Bytes, f: LegFaults)
    requires a.cfg == b.cfg && a.made == b.made
    requires m.outer == n.outer && m.mesh == n.mesh && m.mode == n.mode && m.lastDNS == n.lastDNS
    requires BroughtUp(c, b, n, bundle, f)
    ensures BroughtUp(c, a, m, bundle, f)
  {
  }

  // ---- changing the mode ----

  lemma LeaveModeIs(c: Config, s: State, m: Mode, f: LegFaults)
    requires LegsFit(s) && DnsFits(c, s)
    ensures var n := LeaveMode(s, m, f);
            && n.mode == m && SameProfile(s.(mode := m), n) && n.meshWanted == s.meshWanted
            && n.outer.cfg == s.outer.cfg && n.outer.made == s.outer.made
            && (IncludesWGCP0(m) ==> n.outer == s.outer)
            && (n.lastDNS == if IncludesWGCP0(m) then s.lastDNS else None)
            && (!IncludesNetbird(m) ==> n.mesh.None? || !IncludesNetbird(s.mode))
            && (IncludesNetbird(m) ==>
                  n.mesh == if IncludesNetbird(s.mode) then s.mesh else Some(FRESH_MESH))
  {
  }

  /**
    A mode change enters the new mode in memory and in the active profile's
    meta unless that write fails, brings its legs up as far as nothing hinders them, takes a leg outside
    it down, and neither applies DNS nor changes the standing wish for the mesh.
  */
  lemma ChangeModeWorks(c: Config, s: State, m: Mode, now: int, f: LegFaults, w: PS.Faults)
    requires InStep(c, s) && LegsFit(s) && DnsFits(c, s) && Modes.Valid(m) && m != s.mode
    ensures var n := ChangeMode(c, s, m, now, f, w).s;
            && n.mode == m && n.slug == s.slug && n.bundle == s.bundle && n.meshWanted == s.meshWanted
            && (s.slug != "" && !w.writeMeta ==>
                  var stored := s.disk.metas[s.slug];
                  n.disk == s.disk.(metas := s.disk.metas[s.slug := stored.(mode := m, updatedAt := now)]))
            && (s.slug == "" || w.writeMeta ==> n.disk == s.disk)
            && (n.outer.state == Up ==> IncludesWGCP0(m))
            && (MeshUp(n) ==> IncludesNetbird(m))
            && (IncludesWGCP0(m) && s.bundle.Some? && c.tunnelOf(s.bundle.value).Some? ==>
                  (n.outer.state == Up <==> OuterCan(c.tunnelOf(s.bundle.value), s.outer, f)))
            && (IncludesNetbird(m) && s.bundle.Some? && (IncludesNetbird(s.mode) ==> s.mesh.Some?) ==>
                  (MeshUp(n) <==> f.mesh.Succeeds?))
            && (IncludesWGCP0(m) && !(s.bundle.Some? && c.tunnelOf(s.bundle.value).Some?) ==> n.outer == s.outer)
            && (IncludesNetbird(m) && s.bundle.None? ==>
                  n.mesh == if IncludesNetbird(s.mode) then s.mesh else Some(FRESH_MESH))
            && n.lastDNS == if IncludesWGCP0(m) then s.lastDNS else None
  {
    hide LeaveMode, EnterMode, PS.PlanUpdateMode, PS.Replay, StoreReachable, DnsFits;
    var l := LeaveMode(s, m, f);
    LeaveModeIs(c, s, m, f);
    LeaveModeLegs(s, m, f);
    UpdateModeIs(s.disk, s.slug, m, now, w);
    EnterModeIs(c, l, f);
  }

  /** Entering a mode touches the legs alone, and brings each up exactly when nothing hinders it. */
  lemma EnterModeIs(c: Config, s: State, f: LegFaults)
    requires s.outer.state == Up ==> s.outer.cfg.Some?
    requires s.mesh.Some? ==> Open(s.mesh.value)
    ensures var n := EnterMode(c, s, f);
            && n == s.(outer := n.outer, mesh := n.mesh)
            && (if IncludesWGCP0(s.mode) && s.bundle.Some? && c.tunnelOf(s.bundle.value).Some?
                then n.outer.state == Up <==> OuterCan(c.tunnelOf(s.bundle.value), s.outer, f)
                else n.outer == s.outer)
            && (if IncludesNetbird(s.mode) && s.bundle.Some? && s.mesh.Some?
                then MeshUp(n) <==> f.mesh.Succeeds?
                else n.mesh == s.mesh)
  {
  }

  lemma UpdateModeIs(d: PS.Disk, slug: string, m: Mode, now: int, w: PS.Faults)
    requires Modes.Valid(m)
    ensures var p := PS.PlanUpdateMode(d, slug, m, now, w);
            PS.Replay(d, p.steps) ==
            if slug in d.metas && !w.writeMeta
            then d.(metas := d.metas[slug := d.metas[slug].(mode := m, updatedAt := now)]) else d
  {
    EditOutcome(d, slug, PS.WithMode(m, now), w);
  }

  // ---- removing ----

  /**
    Removing a profile touches no other and succeeds exactly when it is there
    and its unlinks, and the marker write if it is marked, go through; then no
    trace of it is left.  If it was the active one, memory is empty and both
    legs and DNS are down, whatever the mode and whatever fails.
  */
  lemma RemoveWorks(c: Config, s: State, slug: string, f: LegFaults, w: PS.Faults)
    requires Sane(c, s)
    ensures var n := RemoveProfile(c, s, slug, f, w);
            && (n.ok <==> slug in s.disk.metas && !w.removeMeta && !w.removeBundle
                          && !(s.disk.marker == slug && w.writeMarker))
            && (n.ok ==> slug !in n.s.disk.metas && slug !in n.s.disk.bundles && n.s.disk.marker != slug)
            && (forall t :: t != slug ==> SameFiles(s.disk, n.s.disk, t))
            && (slug == s.slug ==>
                  && n.s.slug == "" && n.s.bundle.None? && n.s.mesh.None?
                  && n.s.outer.state != Up && n.s.lastDNS.None? && n.s.resolver == Restored)
            && (slug != s.slug ==> n.s == s.(disk := n.s.disk))
  {
    hide PS.PlanRemove, PS.Replay, TearDownAll, StoreReachable;
    assert "" !in s.disk.metas by { ReachableIsSound(c.lower, s.disk); }
    RemoveOutcome(s.disk, slug, w);
    TearDownKeepsDisk(s, s.mode, f);
    TornDown(s, f);
  }

  lemma TornDown(s: State, f: LegFaults)
    ensures var n := TearDownAll(s, f);
            n.mesh.None? && n.outer.state != Up && n.lastDNS.None? && n.resolver == Restored
  {
  }

  // ---- restarts ----

  /** A start on the disk of a process that holds the marked profile adopts it, with what the files hold. */
  lemma RestartReads(c: Config, s: State, c': Config, bound: Option<Endpoint>, now: int, w: PS.Faults)
    requires Backed(c, s) && s.slug != "" && c'.trust.parses(s.disk.bundles[s.slug])
    ensures var n, m := LoadPersisted(c', Fresh(c', s.disk, bound), now, w).s, s.disk.metas[s.slug];
            && n.slug == s.slug && n.bundle == Some(s.disk.bundles[s.slug]) && n.disk == s.disk
            && n.mode == (if Modes.Valid(m.mode) && !c'.explicitMode then m.mode else c'.startMode)
            && n.rosenpass == OverrideOf(m)
  {
    hide MigrateAndAdopt;
  }

  /**
    A mode set while a profile is active is the mode after a restart if its meta
    write went through; otherwise the mode stored before comes back.
  */
  lemma ModeSurvivesRestart(c: Config, s: State, text: string, f: LegFaults, at: int, fails: PS.Faults,
                            bound: Option<Endpoint>, now: int, w: PS.Faults)
    requires InStep(c, s) && s.slug != "" && !c.explicitMode
    requires Modes.Parse(c.lower, text).Some? && Modes.Parse(c.lower, text).value != s.mode
    ensures var n := SetMode(c, s, text, at, f, fails).s;
            var r := LoadPersisted(c, Fresh(c, n.disk, bound), now, w).s;
            && n.mode == Modes.Parse(c.lower, text).value && r.slug == s.slug
            && r.mode == if fails.writeMeta then s.disk.metas[s.slug].mode else n.mode
  {
    hide LoadPersisted, EnterMode, LeaveMode, PS.PlanUpdateMode, PS.Replay, StoreReachable, Modes.Parse;
    var m := Modes.Parse(c.lower, text).value;
    ParseIsValid(c.lower, text);
    StoredModeIsKnown(c, s.disk, s.slug);
    ChangeModeExact(c, s, m, at, f, fails);
    ModeChangeKeepsMemory(c, s, m, f);
    UpdateModeIs(s.disk, s.slug, m, at, fails);
    MarkedIsBacked(c, SetMode(c, s, text, at, f, fails).s);
    RestartReads(c, SetMode(c, s, text, at, f, fails).s, c, bound, now, w);
  }

  /** A bundle whose import succeeded is the bundle after a restart. */
  lemma ImportSurvivesRestart(c: Config, s: State, bytes: Bytes, at: int, fails: PS.Faults,
                              bound: Option<Endpoint>, now: int, w: PS.Faults)
    requires IsLowerMap(c.lower) && Sane(c, s) && Backed(c, s) && ImportBundle(c, s, bytes, at, fails).ok
    ensures var n := ImportBundle(c, s, bytes, at, fails).s;
            var r := LoadPersisted(c, Fresh(c, n.disk, bound), now, w).s;
            r.bundle == Some(bytes) && r.slug == n.slug && r.disk == n.disk
  {
    hide LoadPersisted, ImportBundle, StoreReachable, PS.CheckBundle, IsLowerMap;
    ImportWorks(c, s, bytes, at, fails);
    var n := ImportBundle(c, s, bytes, at, fails).s;
    AcceptedParses(c.trust, bytes);
    HandleKeepsSane(c, s, ImportCall(bytes, at, fails));
    assert n.slug in n.disk.metas;
    RestartReads(c, n, c, bound, now, w);
  }
}
