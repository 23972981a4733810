/**
  What the daemon drives: the outer tunnel manager, an inner-mesh handle, the
  host-DNS adapter and the names forwarder's listener supervision.
*/
module Legs {
  import opened Results

  datatype LegState = Closed | Configuring | Up | Error

  // ---- the outer tunnel ----

  datatype DnsConfig = DnsConfig(servers: seq<nat>, port: nat, searchDomains: seq<string>, matchDomains: seq<string>)

  /** A derived tunnel config; `keysOk` says both keys are 32 bytes long. */
  datatype TunnelConfig = TunnelConfig(keysOk: bool, iface: string, dns: DnsConfig)

  /** `cfg`: the stored config; `made`: the platform tunnel exists. */
  datatype Outer = Outer(cfg: Option<TunnelConfig>, made: bool, state: LegState)

  /**
    Which platform calls fail during a handler: `reconfigure` is the one that
    passes a config on to an existing tunnel, `configure` the one of a connect.
  */
  datatype OuterFaults = OuterFaults(
    create: bool, reconfigure: bool, configure: bool, up: bool, down: bool, close: bool)

  const NO_OUTER_FAULTS: OuterFaults := OuterFaults(false, false, false, false, false, false)

  function Configured(o: Outer, cfg: TunnelConfig): Outer
  {
    if cfg.keysOk then o.(cfg := Some(cfg)) else o
  }

  predicate ConfigureOk(o: Outer, cfg: TunnelConfig, f: OuterFaults)
  {
    cfg.keysOk && (o.made ==> !f.reconfigure)
  }

  function Connected(o: Outer, f: OuterFaults): Outer
  {
    if o.cfg.None? then o
    else if !o.made && f.create then o.(state := Error)
    else o.(made := true, state := if f.configure || f.up then Error else Up)
  }

  predicate ConnectOk(o: Outer, f: OuterFaults)
  {
    o.cfg.Some? && (o.made || !f.create) && !f.configure && !f.up
  }

  function Disconnected(o: Outer, f: OuterFaults): Outer
  {
    o.(state := if o.made && f.down then Error else Closed)
  }

  predicate DisconnectOk(o: Outer, f: OuterFaults)
  {
    !(o.made && f.down)
  }

  /** The platform tunnel is given up even if its own close fails. */
  function Released(o: Outer): Outer
  {
    if o.made then o.(made := false, state := Closed) else o
  }

  predicate ReleaseOk(o: Outer, f: OuterFaults)
  {
    !(o.made && f.close)
  }

  /** tunnel.Manager, over a platform tunnel whose calls succeed or fail as `f` says. */
  class TunnelManager {
    var stored: Option<TunnelConfig>
    var tun: bool
    var state: LegState

    function Value(): Outer
      reads this
    {
      Outer(stored, tun, state)
    }

    constructor ()
      ensures Value() == Outer(None, false, Closed)
    {
      stored, tun, state := None, false, Closed;
    }

    method Configure(cfg: TunnelConfig, f: OuterFaults) returns (ok: bool)
      modifies this
      ensures Value() == Configured(old(Value()), cfg)
      ensures ok == ConfigureOk(old(Value()), cfg, f)
    {
      if !cfg.keysOk {
        return false;
      }
      stored := Some(cfg);
      if tun {
        return !f.reconfigure;
      }
      return true;
    }

    method Connect(f: OuterFaults) returns (ok: bool)
      modifies this
      ensures Value() == Connected(old(Value()), f)
      ensures ok == ConnectOk(old(Value()), f)
    {
      if stored.None? {
        return false;
      }
      if !tun {
        if f.create {
          state := Error;
          return false;
        }
        tun := true;
      }
      state := Configuring;
      if f.configure {
        state := Error;
        return false;
      }
      if f.up {
        state := Error;
        return false;
      }
      state := Up;
      return true;
    }

    method Disconnect(f: OuterFaults) returns (ok: bool)
      modifies this
      ensures Value() == Disconnected(old(Value()), f)
      ensures ok == DisconnectOk(old(Value()), f)
    {
      if !tun {
        state := Closed;
        return true;
      }
      if f.down {
        state := Error;
        return false;
      }
      state := Closed;
      return true;
    }

    method Close(f: OuterFaults) returns (ok: bool)
      modifies this
      ensures Value() == Released(old(Value()))
      ensures ok == ReleaseOk(old(Value()), f)
    {
      if !tun {
        return true;
      }
      ok := !f.close;
      tun := false;
      state := Closed;
    }
  }

  // ---- the inner mesh ----

  /** `tried`: a bring-up was attempted on this handle. */
  datatype MeshHandle = MeshHandle(state: LegState, closed: bool, tried: bool)

  const FRESH_MESH: MeshHandle := MeshHandle(Closed, false, false)

  /** How a bring-up attempt ends. */
  datatype Bringup = Succeeds | Fails | Cancelled

  function MeshConnected(m: MeshHandle, b: Bringup): MeshHandle
  {
    if m.closed then m
    else m.(tried := true, state := match b case Succeeds => Up case Fails => Error case Cancelled => Closed)
  }

  function MeshDisconnected(m: MeshHandle): MeshHandle
  {
    m.(state := Closed)
  }

  function MeshReleased(m: MeshHandle): MeshHandle
  {
    m.(state := Closed, closed := true)
  }

  /** The mesh lifecycle of innermesh.Fake. */
  class Mesh {
    var state: LegState
    var closed: bool
    /** A bring-up was attempted. */
    ghost var tried: bool

    ghost function Value(): MeshHandle
      reads this
    {
      MeshHandle(state, closed, tried)
    }

    constructor ()
      ensures Value() == FRESH_MESH
    {
      state, closed := Closed, false;
      tried := false;
    }

    method Connect(b: Bringup) returns (ok: bool)
      modifies this
      ensures Value() == MeshConnected(old(Value()), b)
      ensures ok == (!old(closed) && b.Succeeds?)
    {
      if closed {
        return false;
      }
      tried := true;
      if b.Fails? {
        state := Error;
        return false;
      }
      state := Configuring;
      if b.Cancelled? {
        state := Closed;
        return false;
      }
      state := Up;
      return true;
    }

    method Disconnect()
      modifies this
      ensures Value() == MeshDisconnected(old(Value()))
    {
      state := Closed;
    }

    method Close()
      modifies this
      ensures Value() == MeshReleased(old(Value()))
    {
      closed := true;
      state := Closed;
    }
  }

  // ---- the host resolver ----

  datatype Resolver = Restored | Pointed(iface: string, cfg: DnsConfig)

  datatype Platform = Linux | MacOS | Windows

  /** NRPT rules carry no port. */
  predicate PortOk(on: Platform, port: nat)
  {
    !on.Windows? || port == 0 || port == 53
  }

  /** Only systemd-resolved can point a link without naming domains; elsewhere a rule or key is made per domain. */
  predicate DomainsOk(on: Platform, cfg: DnsConfig)
  {
    on.Linux? || cfg.searchDomains != [] || cfg.matchDomains != []
  }

  /**
    Apply without nameservers does nothing and an inexpressible port is an
    error.  Without domains the macOS adapter only removes its old keys and the
    Windows one does nothing.
  */
  function Applied(r: Resolver, on: Platform, iface: string, cfg: DnsConfig): Resolver
  {
    if cfg.servers == [] || !PortOk(on, cfg.port) then r
    else if DomainsOk(on, cfg) then Pointed(iface, cfg)
    else if on.MacOS? then Restored
    else r
  }

  predicate ApplyOk(on: Platform, cfg: DnsConfig)
  {
    cfg.servers == [] || PortOk(on, cfg.port)
  }

  class HostDns {
    const on: Platform
    var resolver: Resolver

    constructor (on: Platform)
      ensures this.on == on && resolver == Restored
    {
      this.on := on;
      resolver := Restored;
    }

    method Apply(iface: string, cfg: DnsConfig) returns (ok: bool)
      modifies this
      ensures resolver == Applied(old(resolver), on, iface, cfg)
      ensures ok == ApplyOk(on, cfg)
    {
      if |cfg.servers| == 0 {
        return true;
      }
      match on {
        case Linux =>
          resolver := Pointed(iface, cfg);
        case MacOS =>
          resolver := Restored;
          if |cfg.searchDomains| > 0 || |cfg.matchDomains| > 0 {
            resolver := Pointed(iface, cfg);
          }
        case Windows =>
          if cfg.port != 0 && cfg.port != 53 {
            return false;
          }
          if |cfg.searchDomains| + |cfg.matchDomains| > 0 {
            resolver := Pointed(iface, cfg);
          }
      }
      return true;
    }

    method Restore()
      modifies this
      ensures resolver == Restored
    {
      resolver := Restored;
    }
  }

  // ---- the names forwarder's listener ----

  datatype Endpoint = Endpoint(addr: nat, port: nat)

  const LADDER: seq<nat> := [1, 2, 5, 15, 30]

  /** What the daemon sees of the forwarder: its bound address, its health, callbacks not yet run. */
  datatype Fwd = Fwd(addr: Option<Endpoint>, healthy: bool, pending: nat)

  /** setHealthy fires a callback only on a change. */
  function SetHealth(f: Fwd, up: bool): Fwd
  {
    if f.healthy == up then f else f.(healthy := up, pending := f.pending + 1)
  }

  /** The callbacks of one listener crash after which `failures` rebind attempts fail. */
  function CrashCallbacks(failures: nat): seq<bool>
  {
    if failures >= |LADDER| then [false, true] else []
  }

  function AllCallbacks(crashes: seq<nat>): seq<bool>
  {
    if crashes == [] then []
    else AllCallbacks(crashes[..|crashes| - 1]) + CrashCallbacks(crashes[|crashes| - 1])
  }

  /** The callbacks of a crash whose rebinding is cancelled after `failures` failed attempts, or still goes on then. */
  function AbandonedCallbacks(failures: nat): seq<bool>
  {
    if failures >= |LADDER| then [false] else []
  }

  /** The first n waits: up the ladder, then its last rung. */
  function Waits(n: nat): seq<nat>
  {
    if n == 0 then [] else Waits(n - 1) + [LADDER[if n - 1 < |LADDER| then n - 1 else |LADDER| - 1]]
  }

  class ForwarderListener {
    var addr: Option<Endpoint>
    var healthy: bool
    /** The callbacks fired so far, in order. */
    ghost var fired: seq<bool>
    /** The waits between rebind attempts, in seconds. */
    ghost var waits: seq<nat>

    /** Callbacks alternate down, up, and health is what the last one said. */
    ghost predicate Valid()
      reads this
    {
      && (addr.None? ==> !healthy && fired == [])
      && (addr.Some? ==> (healthy <==> |fired| % 2 == 0))
      && forall i :: 0 <= i < |fired| ==> (fired[i] <==> i % 2 == 1)
    }

    constructor ()
      ensures Valid() && addr.None? && fired == []
    {
      addr, healthy := None, false;
      fired, waits := [], [];
    }

    /** `bound` is the address the socket got, None when binding fails. */
    method Start(bound: Option<Endpoint>) returns (ok: bool)
      requires Valid() && addr.None?
      modifies this
      ensures Valid() && addr == bound && healthy == bound.Some? == ok && fired == []
    {
      if bound.None? {
        return false;
      }
      addr := bound;
      healthy := true;
      return true;
    }

    method SetHealthy(up: bool)
      requires Valid() && addr.Some?
      modifies this`healthy, this`fired
      ensures Valid() && healthy == up
      ensures fired == if old(healthy) == up then old(fired) else old(fired) + [up]
    {
      var changed := healthy != up;
      healthy := up;
      if changed {
        fired := fired + [up];
      }
    }

    /**
      The rebind loop after one crash: waits climb the ladder, the listener is
      marked down exactly when the whole ladder failed, and up once rebound.
    */
    method Rebind(failures: nat)
      requires Valid() && addr.Some? && healthy
      modifies this
      ensures Valid() && addr == old(addr) && healthy
      ensures fired == old(fired) + CrashCallbacks(failures)
      ensures waits == old(waits) + Waits(failures + 1)
    {
      var bound := false;
      var i := 0;
      while !bound
        invariant 0 <= i <= failures + 1 && bound == (i == failures + 1)
        invariant Valid() && addr == old(addr)
        invariant fired == old(fired) + (if i > |LADDER| then [false] else [])
        invariant healthy == (i <= |LADDER|)
        invariant waits == old(waits) + Waits(i)
        decreases failures + 1 - i
      {
        var delay := LADDER[if i < |LADDER| then i else |LADDER| - 1];
        if i == |LADDER| {
          SetHealthy(false);
        }
        waits := waits + [delay];
        bound := i == failures;
        i := i + 1;
      }
      SetHealthy(true);
    }

    /** The same loop when the context ends, or simply the run, in the wait after `failures` failed attempts. */
    method Abandon(failures: nat)
      requires Valid() && addr.Some? && healthy
      modifies this
      ensures Valid() && addr == old(addr) && (healthy <==> failures < |LADDER|)
      ensures fired == old(fired) + AbandonedCallbacks(failures)
      ensures waits == old(waits) + Waits(failures + 1)
    {
      for i := 0 to failures + 1
        invariant Valid() && addr == old(addr)
        invariant fired == old(fired) + (if i > |LADDER| then [false] else [])
        invariant healthy == (i <= |LADDER|)
        invariant waits == old(waits) + Waits(i)
      {
        var delay := LADDER[if i < |LADDER| then i else |LADDER| - 1];
        if i == |LADDER| {
          SetHealthy(false);
        }
        waits := waits + [delay];
      }
    }

    /** supervise over a run of crashes, the last of which may never be recovered from. */
    method Supervise(crashes: seq<nat>, last: Option<nat>)
      requires Valid() && addr.Some? && healthy && fired == []
      modifies this
      ensures Valid() && fired == Callbacks(crashes, last)
      ensures healthy <==> last.None? || last.value < |LADDER|
    {
      for k := 0 to |crashes|
        invariant Valid() && addr == old(addr) && healthy && fired == AllCallbacks(crashes[..k])
      {
        assert crashes[..k + 1][..k] == crashes[..k];
        Rebind(crashes[k]);
      }
      assert crashes[..|crashes|] == crashes;
      if last.Some? {
        Abandon(last.value);
      }
    }
  }

  /** All callbacks of a run of recovered crashes and perhaps a last one that is not. */
  function Callbacks(crashes: seq<nat>, last: Option<nat>): seq<bool>
  {
    AllCallbacks(crashes) + if last.Some? then AbandonedCallbacks(last.value) else []
  }

  /**
    Whatever the crashes, and whether or not the last is recovered from, the
    callbacks alternate, starting with "down"; they end with "up" unless the
    ladder ran out on a last crash.
  */
  lemma CallbacksAlternate(crashes: seq<nat>, last: Option<nat>)
    ensures var all := Callbacks(crashes, last);
            && (forall i :: 0 <= i < |all| ==> (all[i] <==> i % 2 == 1))
            && (|all| % 2 == 1 <==> last.Some? && last.value >= |LADDER|)
  {
    RecoveredAlternate(crashes);
  }

  lemma {:induction false} RecoveredAlternate(crashes: seq<nat>)
    ensures |AllCallbacks(crashes)| % 2 == 0
    ensures forall i :: 0 <= i < |AllCallbacks(crashes)| ==> (AllCallbacks(crashes)[i] <==> i % 2 == 1)
  {
    if crashes != [] {
      RecoveredAlternate(crashes[..|crashes| - 1]);
    }
  }

  /** The crashes on which the whole ladder of five rebinds failed. */
  function Exhausted(crashes: seq<nat>): set<nat>
  {
    set k: nat | k < |crashes| && crashes[k] >= 5
  }

  /** A recovered crash is reported, down and up, exactly when the whole ladder failed on it. */
  lemma {:induction false} CallbacksAreCounted(crashes: seq<nat>)
    ensures |AllCallbacks(crashes)| == 2 * |Exhausted(crashes)|
  {
    if crashes == [] {
      assert Exhausted(crashes) == {};
    } else {
      var k := |crashes| - 1;
      CallbacksAreCounted(crashes[..k]);
      assert Exhausted(crashes) ==
             if crashes[k] >= 5 then Exhausted(crashes[..k]) + {k} else Exhausted(crashes[..k]);
    }
  }

  /** The waits climb the ladder's five rungs and then stay on the last. */
  lemma {:induction false} WaitsClimb(n: nat, i: nat)
    requires i < n
    ensures |Waits(n)| == n
    ensures Waits(n)[i] == if i == 0 then 1 else if i == 1 then 2 else if i == 2 then 5 else if i == 3 then 15 else 30
  {
    if n > 1 {
      WaitsClimb(n - 1, if i < n - 1 then i else 0);
    }
  }
}
