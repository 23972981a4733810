/**
  The daemon as the object it is: handlers that change its fields, its legs,
  the host DNS adapter and the profile store one step after the other.  Each
  has exactly the effect, the file steps and the answer of the function of the
  same name in DaemonModel, which the run theorems are about.
*/
module Daemon {
  import opened Results
  import opened Modes
  import opened Legs
  import PS = ProfileStore
  import M = DaemonModel
  import DN = DaemonDns
  import SV = MeshSupervisor

  class Daemon {
    const c: M.Config
    const store: PS.Store
    const manager: TunnelManager
    const dns: HostDns
    var currentMode: Mode
    var currentSlug: string
    var currentBundle: Option<PS.Bytes>
    var rosenpassOverride: Option<M.Rosenpass>
    var mesh: Mesh?
    var meshWanted: bool
    var lastDNS: Option<M.AppliedDns>
    /** The names forwarder, as seen from here. */
    var fwd: Fwd
    /** The mesh handles let go of, as they were left. */
    ghost var dropped: seq<MeshHandle>

    ghost predicate Valid()
      reads this, store
    {
      store.Valid() && store.lower == c.lower && store.trust == c.trust && dns.on == c.platform
    }

    ghost function Value(): M.State
      reads this, store, manager, dns, mesh
    {
      M.State(store.disk, currentMode, currentSlug, currentBundle, rosenpassOverride, manager.Value(),
              if mesh == null then None else Some(mesh.Value()), meshWanted, dropped, lastDNS, dns.resolver, fwd)
    }

    /** The effect, the file steps and the kept handle of one handler. */
    twostate predicate Did(n: M.Next)
      reads this, store, manager, dns, mesh
    {
      Valid() && Value() == n.s && store.steps == old(store.steps) + n.steps && SameMesh()
    }

    /** The same for a part of a handler that writes no file. */
    twostate predicate Became(s: M.State)
      reads this, store, manager, dns, mesh
    {
      Valid() && Value() == s && store.steps == old(store.steps) && SameMesh()
    }

    /** Any mesh handle held is the one held before or a new one. */
    twostate predicate SameMesh()
      reads this
    {
      mesh != null ==> mesh == old(mesh) || fresh(mesh)
    }

    /** New: an empty outer manager, a mesh if the start mode has one, the forwarder bound or not. */
    constructor (c: M.Config, store: PS.Store, bound: Option<Endpoint>)
      requires store.Valid() && store.lower == c.lower && store.trust == c.trust
      ensures Valid() && this.c == c && this.store == store
      ensures fresh(manager) && fresh(dns) && (mesh != null ==> fresh(mesh))
      ensures Value() == M.Fresh(c, store.disk, bound)
    {
      this.c, this.store := c, store;
      manager := new TunnelManager();
      dns := new HostDns(c.platform);
      currentMode, currentSlug, currentBundle, rosenpassOverride := c.startMode, "", None, None;
      if IncludesNetbird(c.startMode) {
        mesh := new Mesh();
      } else {
        mesh := null;
      }
      meshWanted, lastDNS, dropped := false, None, [];
      fwd := Fwd(if c.names then bound else None, c.names && bound.Some?, 0);
    }

    // ---- host DNS ----

    method ApplyDnsCurrent(iface: string, direct: DnsConfig)
      requires Valid()
      modifies dns
      ensures Became(M.ApplyCurrent(c, old(Value()), M.AppliedDns(iface, direct)))
    {
      if c.fronting && c.names && fwd.healthy {
        if fwd.addr.Some? {
          var fronted := direct.(servers := [fwd.addr.value.addr], port := fwd.addr.value.port);
          var ok := dns.Apply(iface, fronted);
          if ok {
            return;
          }
        }
      }
      var _ := dns.Apply(iface, direct);
    }

    method ApplyDns(cfg: TunnelConfig)
      requires Valid()
      modifies this`lastDNS, dns
      ensures Became(M.ApplyDns(c, old(Value()), cfg))
      ensures lastDNS.Some? && lastDNS.value.iface == cfg.iface && DN.Merged(c, cfg.dns, lastDNS.value.direct)
    {
      var direct := DnsConfig(cfg.dns.servers, 0, cfg.dns.searchDomains, cfg.dns.matchDomains);
      if |direct.servers| == 0 {
        direct := direct.(servers := c.meshDns.servers, port := c.meshDns.port);
      }
      if |direct.searchDomains| == 0 {
        direct := direct.(searchDomains := c.meshDns.searchDomains);
      }
      if |direct.matchDomains| == 0 {
        direct := direct.(matchDomains := c.meshDns.matchDomains);
      }
      lastDNS := Some(M.AppliedDns(cfg.iface, direct));
      ApplyDnsCurrent(cfg.iface, direct);
    }

    method RestoreDns()
      requires Valid()
      modifies this`lastDNS, dns
      ensures Became(M.RestoreDns(old(Value())))
    {
      lastDNS := None;
      dns.Restore();
    }

    // ---- legs ----

    method TakeOuterDown(f: M.LegFaults) returns (ok: bool)
      requires Valid()
      modifies this`lastDNS, dns, manager
      ensures Became(M.TakeOuterDown(old(Value()), f)) && ok == DisconnectOk(old(manager.Value()), f.outer)
    {
      RestoreDns();
      ok := manager.Disconnect(f.outer);
    }

    method BringOuterUp(cfg: TunnelConfig, f: M.LegFaults) returns (ok: bool)
      requires Valid()
      modifies manager
      ensures Became(M.BringOuterUp(old(Value()), cfg, f)) && ok == M.OuterComesUp(old(Value()), cfg, f)
    {
      var _ := manager.Configure(cfg, f.outer);
      ok := manager.Connect(f.outer);
    }

    /** The mesh factory's handle replaces whatever is held. */
    method PutMesh()
      requires Valid()
      modifies this`mesh, this`dropped
      ensures Became(M.PutMesh(old(Value()))) && mesh != null && fresh(mesh)
    {
      dropped := dropped + if mesh == null then [] else [mesh.Value()];
      mesh := new Mesh();
    }

    /** The held handle is forgotten as it is. */
    method LetGo()
      requires Valid()
      modifies this`mesh, this`dropped
      ensures Became(M.LetGo(old(Value())))
    {
      dropped := dropped + if mesh == null then [] else [mesh.Value()];
      mesh := null;
    }

    /** The held handle is taken out of the field, then disconnected and closed. */
    method DropMesh()
      requires Valid()
      modifies this`mesh, this`dropped, mesh
      ensures Became(M.DropMesh(old(Value()))) && mesh == null
    {
      var held := mesh;
      mesh := null;
      if held != null {
        held.Disconnect();
        held.Close();
        dropped := dropped + [held.Value()];
      }
    }

    method BringMeshUp(f: M.LegFaults) returns (ok: bool)
      requires Valid()
      modifies mesh
      ensures Became(M.BringMeshUp(old(Value()), f)) && ok == M.MeshComesUp(old(Value()), f) && mesh == old(mesh)
    {
      if mesh == null {
        return false;
      }
      ok := mesh.Connect(f.mesh);
    }

    method TearDownMode(m: Mode, f: M.LegFaults)
      requires Valid()
      modifies this, manager, dns, mesh
      ensures Became(M.TearDownMode(old(Value()), m, f))
    {
      if IncludesWGCP0(m) {
        var _ := TakeOuterDown(f);
      }
      if IncludesNetbird(m) {
        meshWanted := false;
        DropMesh();
      }
    }

    method TearDownAll(f: M.LegFaults)
      requires Valid()
      modifies this, manager, dns, mesh
      ensures Became(M.TearDownAll(old(Value()), f))
    {
      var _ := TakeOuterDown(f);
      meshWanted := false;
      DropMesh();
    }

    // ---- start-up ----

    method AdoptProfile(slug: string, m: PS.Meta, bundle: PS.Bytes)
      requires Valid()
      modifies this, manager
      ensures Became(M.Adopt(c, old(Value()), slug, m, bundle)) && mesh == old(mesh)
    {
      currentBundle, currentSlug := Some(bundle), slug;
      if Modes.Valid(m.mode) && !c.explicitMode {
        currentMode := m.mode;
      }
      rosenpassOverride := M.OverrideOf(m);
      var cfg := c.tunnelOf(bundle);
      if cfg.Some? {
        var _ := manager.Configure(cfg.value, NO_OUTER_FAULTS);
      }
    }

    method LoadPersistedBundle(now: int, w: PS.Faults)
      requires Valid()
      modifies this, store, manager
      ensures Did(M.LoadPersisted(c, old(Value()), now, w)) && mesh == old(mesh)
    {
      hide PS.PlanMigrate, PS.Replay, M.Adopt;
      PS.ReplayNothing(store.disk);
      var active := store.disk.marker;
      if active != "" {
        var p := PS.Load(c.trust, store.disk, active);
        if p.Ok? {
          AdoptProfile(active, p.value.0, p.value.1);
          return;
        }
      }
      var migrated := store.MigrateLegacyBundle(c.legacy, currentMode, now, w);
      if migrated.Ok? && migrated.value.Some? {
        var p := PS.Load(c.trust, store.disk, migrated.value.value);
        if p.Ok? {
          AdoptProfile(migrated.value.value, p.value.0, p.value.1);
        }
      }
    }

    // ---- profile handlers ----

    method Configure(bundle: PS.Bytes)
      requires Valid()
      modifies manager
      ensures Became(M.ConfigureFrom(c, old(Value()), bundle))
    {
      var cfg := c.tunnelOf(bundle);
      if cfg.Some? {
        var _ := manager.Configure(cfg.value, NO_OUTER_FAULTS);
      }
    }

    method ImportBundle(bytes: PS.Bytes, now: int, w: PS.Faults) returns (ok: bool)
      requires Valid()
      modifies this, store, manager
      ensures Did(M.ImportBundle(c, old(Value()), bytes, now, w)) && mesh == old(mesh)
      ensures ok == M.ImportBundle(c, old(Value()), bytes, now, w).ok
    {
      hide PS.PlanAdd, PS.PlanSetActive, PS.Replay, PS.CheckBundle, M.ConfigureFrom, M.PlanDefault, M.ReplaceRequest;
      if !PS.Accepts(c.trust, bytes) || c.expired(bytes, now) {
        return false;
      }
      if currentSlug != "" {
        var r := ReplaceActive(bytes, now, w);
        if r.Err? {
          return false;
        }
      } else {
        var slug := AddDefault(bytes, now, w);
        if slug.None? {
          return false;
        }
        currentSlug := slug.value;
      }
      currentBundle := Some(bytes);
      Configure(bytes);
      return true;
    }

    method ReplaceActive(bytes: PS.Bytes, now: int, w: PS.Faults) returns (r: Result<PS.Info, PS.StoreError>)
      requires Valid()
      modifies store
      ensures var s := old(Value());
              var p := PS.PlanAdd(c.lower, c.trust, s.disk, M.ReplaceRequest(s, bytes), now, w);
              Did(M.Next(M.Write(s, p.steps), p.steps, p.result.Ok?)) && r == p.result
    {
      hide PS.PlanAdd, PS.Replay, PS.WroteAdded;
      var name, m := currentSlug, currentMode;
      if currentSlug in store.disk.metas {
        name, m := store.disk.metas[currentSlug].name, store.disk.metas[currentSlug].mode;
      }
      r := store.Add(PS.AddRequest(name, m, bytes, true), now, w);
    }

    /** Add "default", replacing one that is there, and mark it active. */
    method AddDefault(bytes: PS.Bytes, now: int, w: PS.Faults) returns (slug: Option<string>)
      requires Valid()
      modifies store
      ensures var s := old(Value());
              var p := M.PlanDefault(c, s, bytes, now, w);
              && Did(M.Next(M.Write(s, p.steps), p.steps, p.result.Ok?))
              && slug == if p.result.Ok? then p.result.value else None
    {
      hide PS.PlanAdd, PS.PlanSetActive, PS.Replay, PS.WroteAdded;
      PS.ReplayNothing(store.disk);
      ghost var d := store.disk;
      var req := PS.AddRequest(PS.DEFAULT_NAME, currentMode, bytes, false);
      AlreadyThereTakesNoSteps(req, now, w);
      var added := store.Add(req, now, w);
      if added == Err(PS.AlreadyExists) {
        req := PS.AddRequest(PS.DEFAULT_NAME, currentMode, bytes, true);
        added := store.Add(req, now, w);
      }
      if added.Err? {
        return None;
      }
      PS.ReplayAppend(d, PS.PlanAdd(c.lower, c.trust, d, req, now, w).steps,
                      PS.PlanSetActive(store.disk, added.value.slug, w).steps);
      var marked := store.SetActive(added.value.slug, w);
      return if marked.Ok? then Some(added.value.slug) else None;
    }

    lemma AlreadyThereTakesNoSteps(req: PS.AddRequest, now: int, w: PS.Faults)
      ensures var p := PS.PlanAdd(c.lower, c.trust, store.disk, req, now, w);
              p.result == Err(PS.AlreadyExists) ==> p.steps == []
    {
    }

    /** The switch behind SetActiveProfile and AddProfile. */
    method SwitchTo(slug: string, f: M.LegFaults, w: PS.Faults) returns (ok: bool)
      requires Valid()
      modifies this, store, manager, dns, mesh
      ensures Did(M.SwitchTo(c, old(Value()), slug, f, w)) && ok == M.SwitchTo(c, old(Value()), slug, f, w).ok
    {
      hide PS.PlanSetActive, PS.Replay, M.TearDownMode, M.SwapIn, M.BringUp, PS.Load;
      M.TearDownKeepsDisk(Value(), currentMode, f);
      var target := PS.Load(c.trust, store.disk, slug);
      if target.Err? {
        return false;
      }
      if currentSlug != "" {
        TearDownMode(currentMode, f);
      }
      ghost var down := Value();
      SwapIn(slug, target.value.0, target.value.1);
      M.BringUpKeepsDisk(c, Value(), target.value.1, f);
      SwapInKeepsDisk(down, slug, target.value.0, target.value.1);
      BringUp(target.value.1, f);
      var _ := store.SetActive(slug, w);
      return true;
    }

    static lemma SwapInKeepsDisk(s: M.State, slug: string, m: PS.Meta, bundle: PS.Bytes)
      ensures M.SwapIn(s, slug, m, bundle).disk == s.disk
    {
    }

    method SwapIn(slug: string, m: PS.Meta, bundle: PS.Bytes)
      requires Valid()
      modifies this
      ensures Became(M.SwapIn(old(Value()), slug, m, bundle))
    {
      var newMode := m.mode;
      if !Modes.Valid(newMode) {
        newMode := DEFAULT;
      }
      currentBundle, currentMode, currentSlug := Some(bundle), newMode, slug;
      rosenpassOverride := M.OverrideOf(m);
      if IncludesNetbird(newMode) && mesh == null {
        PutMesh();
      }
      if !IncludesNetbird(newMode) && mesh != null {
        LetGo();
      }
    }

    method BringUp(bundle: PS.Bytes, f: M.LegFaults)
      requires Valid()
      modifies this`lastDNS, manager, dns, mesh
      ensures Became(M.BringUp(c, old(Value()), bundle, f)) && mesh == old(mesh)
    {
      hide M.ApplyCurrent;
      var cfg := c.tunnelOf(bundle);
      if cfg.Some? {
        if IncludesWGCP0(currentMode) {
          var up := BringOuterUp(cfg.value, f);
          if up {
            ApplyDns(cfg.value);
          }
        } else {
          Configure(bundle);
        }
      }
      if IncludesNetbird(currentMode) {
        var _ := BringMeshUp(f);
      }
    }

    method SetActiveProfile(slug: string, f: M.LegFaults, w: PS.Faults) returns (ok: bool)
      requires Valid()
      modifies this, store, manager, dns, mesh
      ensures Did(M.SetActiveProfile(c, old(Value()), slug, f, w))
      ensures ok == M.SetActiveProfile(c, old(Value()), slug, f, w).ok
    {
      hide M.SwitchTo;
      if slug == "" {
        return false;
      }
      ok := SwitchTo(slug, f, w);
    }

    method AddProfile(req: M.AddProfileRequest, now: int, f: M.LegFaults, w: PS.Faults) returns (ok: bool)
      requires Valid()
      modifies this, store, manager, dns, mesh
      ensures Did(M.AddProfile(c, old(Value()), req, now, f, w))
      ensures ok == M.AddProfile(c, old(Value()), req, now, f, w).ok
    {
      hide M.SwitchTo, PS.PlanAdd, PS.Replay, Modes.Parse, PS.WroteAdded;
      var resolved := currentMode;
      if req.mode != "" {
        var m := Modes.Parse(c.lower, req.mode);
        if m.None? {
          return false;
        }
        resolved := m.value;
      }
      var added := store.Add(PS.AddRequest(req.name, resolved, req.bytes, req.replace), now, w);
      if added.Err? {
        return false;
      }
      if req.setActive {
        ok := SwitchTo(added.value.slug, f, w);
      } else {
        ok := true;
      }
    }

    method RemoveProfile(slug: string, f: M.LegFaults, w: PS.Faults) returns (ok: bool)
      requires Valid()
      modifies this, store, manager, dns, mesh
      ensures Did(M.RemoveProfile(c, old(Value()), slug, f, w)) && ok == M.RemoveProfile(c, old(Value()), slug, f, w).ok
    {
      hide PS.PlanRemove, PS.Replay;
      if slug == currentSlug {
        TearDownAll(f);
        currentBundle, currentSlug := None, "";
      }
      var r := store.Remove(slug, w);
      return r.Ok?;
    }

    method RenameProfile(slug: string, newName: string, now: int, w: PS.Faults) returns (ok: bool)
      requires Valid()
      modifies this`currentSlug, store
      ensures Did(M.RenameProfile(c, old(Value()), slug, newName, now, w))
      ensures ok == M.RenameProfile(c, old(Value()), slug, newName, now, w).ok
    {
      hide PS.PlanRename, PS.Replay, PS.WroteRenamed;
      var info := store.Rename(slug, newName, now, w);
      if info.Err? {
        return false;
      }
      if currentSlug == slug {
        currentSlug := info.value.slug;
      }
      return true;
    }

    // ---- mode and leg handlers ----

    method SetMode(text: string, now: int, f: M.LegFaults, w: PS.Faults) returns (ok: bool)
      requires Valid()
      modifies this, store, manager, dns, mesh
      ensures Did(M.SetMode(c, old(Value()), text, now, f, w)) && ok == M.SetMode(c, old(Value()), text, now, f, w).ok
    {
      hide M.LeaveMode, M.EnterMode, PS.PlanUpdateMode, PS.Replay, Modes.Parse;
      var newMode := Modes.Parse(c.lower, text);
      if newMode.None? {
        return false;
      }
      if newMode.value == currentMode {
        return true;
      }
      M.ModeChangeKeepsDisk(c, Value(), newMode.value, f);
      LeaveMode(newMode.value, f);
      EnterMode(f);
      if currentSlug != "" {
        var _ := store.UpdateMode(currentSlug, newMode.value, now, w);
      }
      return true;
    }

    method LeaveMode(newMode: Mode, f: M.LegFaults)
      requires Valid()
      modifies this, manager, dns, mesh
      ensures Became(M.LeaveMode(old(Value()), newMode, f))
    {
      var prev := currentMode;
      currentMode := newMode;
      if IncludesWGCP0(prev) && !IncludesWGCP0(newMode) {
        var _ := TakeOuterDown(f);
      }
      if IncludesNetbird(prev) && !IncludesNetbird(newMode) {
        DropMesh();
      }
      if !IncludesNetbird(prev) && IncludesNetbird(newMode) {
        PutMesh();
      }
    }

    method EnterMode(f: M.LegFaults)
      requires Valid()
      modifies manager, mesh
      ensures Became(M.EnterMode(c, old(Value()), f)) && mesh == old(mesh)
    {
      if IncludesWGCP0(currentMode) && currentBundle.Some? {
        var cfg := c.tunnelOf(currentBundle.value);
        if cfg.Some? {
          var _ := BringOuterUp(cfg.value, f);
        }
      }
      if IncludesNetbird(currentMode) && currentBundle.Some? {
        var _ := BringMeshUp(f);
      }
    }

    method SetRosenpass(r: M.Rosenpass, now: int, f: M.LegFaults, w: PS.Faults)
      requires Valid()
      modifies this`rosenpassOverride, store, mesh
      ensures Did(M.SetRosenpass(c, old(Value()), r, now, f, w)) && mesh == old(mesh)
    {
      hide PS.PlanUpdateRosenpass, PS.Replay;
      rosenpassOverride := Some(r);
      if IncludesNetbird(currentMode) && mesh != null && currentBundle.Some? && mesh.state == Up {
        mesh.Disconnect();
        var _ := BringMeshUp(f);
      }
      if currentSlug != "" {
        var _ := store.UpdateRosenpass(currentSlug, Some(r.enabled), Some(r.permissive), now, w);
      }
    }

    method Connect(f: M.LegFaults) returns (ok: bool)
      requires Valid()
      modifies this, manager, dns, mesh
      ensures Did(M.Connect(c, old(Value()), f)) && ok == M.Connect(c, old(Value()), f).ok
    {
      hide M.ConnectOuterLeg, M.ConnectMeshLeg;
      if currentBundle.None? {
        return false;
      }
      M.LegCallsKeepDisk(c, Value(), f);
      if IncludesWGCP0(currentMode) {
        ok := ConnectOuterLeg(f);
        if !ok {
          return;
        }
      }
      if IncludesNetbird(currentMode) {
        ok := ConnectMeshLeg(f);
        return;
      }
      return true;
    }

    method ConnectOuterLeg(f: M.LegFaults) returns (ok: bool)
      requires Valid() && currentBundle.Some?
      modifies this`lastDNS, manager, dns
      ensures Did(M.ConnectOuterLeg(c, old(Value()), f)) && ok == M.ConnectOuterLeg(c, old(Value()), f).ok
      ensures store.steps == old(store.steps) && mesh == old(mesh) && currentMode == old(currentMode)
    {
      hide M.ApplyCurrent;
      var cfg := c.tunnelOf(currentBundle.value);
      if cfg.None? {
        return false;
      }
      ok := manager.Configure(cfg.value, f.outer);
      if !ok {
        return;
      }
      ok := manager.Connect(f.outer);
      if ok {
        ApplyDns(cfg.value);
      }
    }

    method ConnectMeshLeg(f: M.LegFaults) returns (ok: bool)
      requires Valid()
      modifies this`mesh, this`meshWanted, this`dropped, mesh
      ensures Did(M.ConnectMeshLeg(old(Value()), f)) && ok == M.ConnectMeshLeg(old(Value()), f).ok
      ensures store.steps == old(store.steps)
    {
      if mesh == null {
        PutMesh();
      }
      meshWanted := true;
      ok := BringMeshUp(f);
    }

    method Disconnect(f: M.LegFaults) returns (ok: bool)
      requires Valid()
      modifies this, manager, dns, mesh
      ensures Did(M.Disconnect(old(Value()), f)) && ok == M.Disconnect(old(Value()), f).ok
    {
      if IncludesWGCP0(currentMode) {
        ok := TakeOuterDown(f);
        if !ok {
          return;
        }
      }
      if IncludesNetbird(currentMode) && mesh != null {
        meshWanted := false;
        mesh.Disconnect();
      }
      return true;
    }

    method EnableInnerMesh(f: M.LegFaults) returns (ok: bool)
      requires Valid()
      modifies this`meshWanted, mesh
      ensures Did(M.EnableInnerMesh(old(Value()), f)) && ok == M.EnableInnerMesh(old(Value()), f).ok
    {
      if !IncludesNetbird(currentMode) || mesh == null {
        return false;
      }
      meshWanted := true;
      ok := BringMeshUp(f);
    }

    method DisableInnerMesh()
      requires Valid()
      modifies this`meshWanted, mesh
      ensures Did(M.DisableInnerMesh(old(Value())))
      ensures !meshWanted && mesh == old(mesh)
      ensures mesh != null ==> mesh.state == LegState.Closed && mesh.closed == old(mesh.closed)
    {
      meshWanted := false;
      if mesh != null {
        mesh.Disconnect();
      }
    }

    method Shutdown(f: M.LegFaults) returns (ok: bool)
      requires Valid()
      modifies this, manager, dns, mesh
      ensures Did(M.Shutdown(old(Value()), f)) && ok == M.Shutdown(old(Value()), f).ok
    {
      var _ := TakeOuterDown(f);
      DropMesh();
      ok := manager.Close(f.outer);
    }

    /** What one tick of the mesh supervisor does. */
    method SuperviseMesh(f: M.LegFaults) returns (ok: bool)
      requires Valid()
      modifies mesh
      ensures Did(M.SuperviseMesh(old(Value()), f)) && ok == M.SuperviseMesh(old(Value()), f).ok
    {
      if !meshWanted || !IncludesNetbird(currentMode) || mesh == null || currentBundle.None? {
        return true;
      }
      if mesh.state != Error {
        return true;
      }
      ok := BringMeshUp(f);
    }

    // ---- the forwarder ----

    method HealthChange(up: bool)
      requires Valid()
      modifies this`fwd
      ensures Did(M.HealthChange(old(Value()), up))
    {
      if fwd.addr.Some? && fwd.healthy != up {
        fwd := fwd.(healthy := up, pending := fwd.pending + 1);
      }
    }

    method OnForwarderState()
      requires Valid()
      modifies this`fwd, dns
      ensures Did(M.HealthCallback(c, old(Value())))
    {
      if fwd.pending > 0 {
        fwd := fwd.(pending := fwd.pending - 1);
        if lastDNS.Some? {
          ApplyDnsCurrent(lastDNS.value.iface, lastDNS.value.direct);
        }
      }
    }

    // ---- all of them ----

    method Handle(call: M.Call)
      requires Valid()
      modifies this, store, manager, dns, mesh
      ensures Did(M.Handle(c, old(Value()), call))
    {
      hide M.ImportBundle, M.AddProfile, M.RemoveProfile, M.RenameProfile, M.SetActiveProfile, M.SetMode,
        M.SetRosenpass, M.Connect, M.Disconnect, M.EnableInnerMesh, M.DisableInnerMesh, M.SuperviseMesh, M.Shutdown,
        M.HealthChange, M.HealthCallback, Value;
      var ok := true;
      match call
      case ImportCall(bytes, now, w) => ok := ImportBundle(bytes, now, w);
      case AddProfileCall(req, now, f, w) => ok := AddProfile(req, now, f, w);
      case RemoveProfileCall(slug, f, w) => ok := RemoveProfile(slug, f, w);
      case RenameProfileCall(slug, newName, now, w) => ok := RenameProfile(slug, newName, now, w);
      case SetActiveProfileCall(slug, f, w) => ok := SetActiveProfile(slug, f, w);
      case SetModeCall(text, now, f, w) => ok := SetMode(text, now, f, w);
      case SetRosenpassCall(r, now, f, w) => SetRosenpass(r, now, f, w);
      case ConnectCall(f) => ok := Connect(f);
      case DisconnectCall(f) => ok := Disconnect(f);
      case EnableInnerMeshCall(f) => ok := EnableInnerMesh(f);
      case DisableInnerMeshCall => DisableInnerMesh();
      case SupervisorTick(f) => ok := SuperviseMesh(f);
      case ShutdownCall(f) => ok := Shutdown(f);
      case ListenerHealth(up) => HealthChange(up);
      case RunCallback => OnForwarderState();
    }

    /** Calls one after the other. */
    method Serve(calls: seq<M.Call>)
      requires Valid()
      modifies this, store, manager, dns, mesh
      ensures Valid() && SameMesh() && Value() == M.Served(c, old(Value()), calls)
    {
      hide M.Handle, Value;
      for k := 0 to |calls|
        invariant Valid() && SameMesh() && Value() == M.Served(c, old(Value()), calls[..k])
      {
        assert calls[..k + 1][..k] == calls[..k];
        Handle(calls[k]);
      }
      assert calls[..|calls|] == calls;
    }

    // ---- the mesh supervisor ----

    /** One wake-up, and what it found. */
    method Wake(f: M.LegFaults) returns (t: SV.Tick)
      requires Valid()
      modifies mesh
      ensures Valid() && Value() == M.SuperviseMesh(old(Value()), f).s && mesh == old(mesh)
      ensures t == SV.TickOf(old(Value()), f)
    {
      if !meshWanted || !IncludesNetbird(currentMode) || mesh == null || currentBundle.None? {
        return SV.Idle;
      }
      if mesh.state != Error {
        return if mesh.state == Up then SV.Up else SV.Unsettled;
      }
      var ok := BringMeshUp(f);
      return SV.Retried(ok);
    }

    /**
      The supervisor's loop, with other calls served between its wake-ups: the
      waits it arms, the first before any wake-up, are those of the daemon's
      own ticks.
    */
    method RunMeshSupervisor(interval: int, limit: int, rounds: seq<SV.Round>) returns (waits: seq<int>)
      requires Valid()
      modifies this, store, manager, dns, mesh
      ensures Valid() && SameMesh() && Value() == SV.After(c, old(Value()), rounds)
      ensures |waits| == |rounds| + 1
      ensures forall i :: 0 <= i <= |rounds| ==>
                waits[i] == SV.WaitAfter(SV.Base(interval), SV.Max(limit), SV.TicksOf(c, old(Value()), rounds[..i]))
    {
      hide M.Served, Value, SV.Streak, SV.Backoff, SV.WaitAfter, SV.TickOf, M.SuperviseMesh;
      var base := if interval <= 0 then SV.DEFAULT_BASE else interval;
      var max := if limit <= 0 then SV.DEFAULT_MAX else limit;
      var delay := base;
      waits := [base];
      SV.NoTicks(base, max);
      for k := 0 to |rounds|
        invariant Valid() && SameMesh() && Value() == SV.After(c, old(Value()), rounds[..k])
        invariant |waits| == k + 1
        invariant forall i :: 0 <= i <= k ==>
                    waits[i] == SV.WaitAfter(base, max, SV.TicksOf(c, old(Value()), rounds[..i]))
        invariant delay == SV.Backoff(base, max, SV.Streak(SV.TicksOf(c, old(Value()), rounds[..k])))
      {
        assert rounds[..k + 1][..k] == rounds[..k];
        Serve(rounds[k].calls);
        var t := Wake(rounds[k].f);
        var wait;
        wait, delay := SV.NextWait(base, max, delay, t, SV.TicksOf(c, old(Value()), rounds[..k]));
        waits := waits + [wait];
      }
      assert rounds[..|rounds|] == rounds;
    }
  }
}
