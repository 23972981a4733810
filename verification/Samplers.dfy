/**
  The peer-ping manager of internal/peerping: one sampler per target peer,
  reconciled in place against the latest target list.
*/
module Samplers {
  import opened Rings

  datatype Target = Target(ip: string, port: int)

  /** The targets by IP; an empty IP is ignored and a later entry wins. */
  function Wanted(targets: seq<Target>): map<string, Target>
  {
    if targets == [] then map[]
    else
      var t := targets[|targets| - 1];
      var m := Wanted(targets[..|targets| - 1]);
      if t.ip == "" then m else m[t.ip := t]
  }

  lemma {:induction false} WantedKeys(targets: seq<Target>, ip: string)
    ensures ip in Wanted(targets) <==> ip != "" && exists i :: 0 <= i < |targets| && targets[i].ip == ip
    ensures ip in Wanted(targets) ==> Wanted(targets)[ip].ip == ip
  {
    if targets != [] {
      var k := |targets| - 1;
      var front := targets[..k];
      WantedKeys(front, ip);
      if i :| 0 <= i < |front| && front[i].ip == ip {
        assert targets[i].ip == ip;
      }
      if i :| 0 <= i < |targets| && targets[i].ip == ip {
        assert i < k ==> front[i].ip == ip;
      }
    }
  }

  /** The target kept for an IP is the last one given for it. */
  lemma {:induction false} WantedIsLast(targets: seq<Target>, i: nat)
    requires i < |targets| && targets[i].ip != ""
    requires forall j :: i < j < |targets| ==> targets[j].ip != targets[i].ip
    ensures targets[i].ip in Wanted(targets) && Wanted(targets)[targets[i].ip] == targets[i]
  {
    var k := |targets| - 1;
    if i < k {
      assert targets[k].ip != targets[i].ip;
      WantedIsLast(targets[..k], i);
    }
  }

  /** peerRunner: a target's ring and the cancel of its Pinger goroutine. */
  class Sampler {
    const target: Target
    const ring: RingBuffer<Sample>
    var cancelled: bool

    constructor (target: Target, history: int)
      ensures this.target == target && !cancelled
      ensures fresh(ring) && fresh(ring.buf) && ring.Valid() && ring.added == []
      ensures ring.buf.Length == if history <= 0 then DEFAULT_HISTORY else history
    {
      this.target := target;
      cancelled := false;
      ring := new RingBuffer<Sample>(history, DEFAULT_HISTORY);
    }
  }

  class Manager {
    const history: int
    const bindResponder: bool
    var started: bool
    var stopped: bool
    var connOpen: bool
    var peers: map<string, Sampler>
    /** The Start context is over. */
    var ctxDone: bool
    /** Every sampler whose goroutine was ever started. */
    ghost var spawned: set<Sampler>

    /** The samples every ring keeps: as many as asked for, or 120. */
    function Capacity(): (c: nat)
      ensures c > 0 && c == if history > 0 then history else 120
    {
      if history <= 0 then DEFAULT_HISTORY else history
    }

    /** A sampler as it starts: for that target, its history empty. */
    ghost predicate Blank(s: Sampler, t: Target)
      reads s.ring
    {
      s.target == t && s.ring.added == [] && s.ring.buf.Length == Capacity()
    }

    /** A sampler's goroutine still runs. */
    ghost predicate Live(s: Sampler)
      reads this, s
    {
      !s.cancelled && !ctxDone
    }

    /** Uncancelled samplers and the entries of the peers map are one-to-one; every ring has the full capacity. */
    ghost predicate Valid()
      reads this, spawned, set s <- spawned :: s.ring, set s <- spawned :: s.ring.buf
    {
      && (forall ip :: ip in peers ==> peers[ip] in spawned && peers[ip].target.ip == ip && ip != "")
      && (forall s :: s in spawned && !s.cancelled ==> s.target.ip in peers && peers[s.target.ip] == s)
      && (forall ip :: ip in peers ==> !peers[ip].cancelled)
      && (!started || stopped ==> peers == map[])
      && (!started ==> spawned == {} && !connOpen)
      && (forall s :: s in spawned ==> s.ring.Valid() && s.ring.buf.Length == Capacity())
      && (forall s, t :: s in spawned && t in spawned && s != t ==> s.ring != t.ring && s.ring.buf != t.ring.buf)
    }

    constructor (history: int, bindResponder: bool)
      ensures Valid() && !started && !stopped && !ctxDone && spawned == {}
      ensures this.history == history && this.bindResponder == bindResponder
    {
      this.history := history;
      this.bindResponder := bindResponder;
      started, stopped, connOpen, ctxDone := false, false, false, false;
      peers := map[];
      spawned := {};
    }

    /** `bindOk` is the outcome of opening the responder's socket. */
    method Start(bindOk: bool) returns (ok: bool)
      requires Valid()
      modifies this
      ensures Valid() && peers == old(peers) && spawned == old(spawned)
      ensures stopped == old(stopped) && ctxDone == old(ctxDone) && started
      ensures ok <==> !old(started) && (bindResponder ==> bindOk)
      ensures old(started) ==> connOpen == old(connOpen)
      ensures !old(started) ==> connOpen == (bindResponder && bindOk)
    {
      if started {
        return false;
      }
      started := true;
      if bindResponder {
        if !bindOk {
          return false;
        }
        connOpen := true;
      }
      return true;
    }

    /**
      Reconcile the samplers to the targets.  Kept peers keep their very sampler
      (and so its ring, untouched); exactly the dropped ones are cancelled; new
      ones start with an empty ring.
    */
    method SetTargets(targets: seq<Target>)
      requires Valid()
      modifies this, spawned
      ensures Valid()
      ensures started == old(started) && stopped == old(stopped) && ctxDone == old(ctxDone) && connOpen == old(connOpen)
      ensures !started || stopped ==> peers == old(peers) && spawned == old(spawned)
      ensures started && !stopped ==> peers.Keys == Wanted(targets).Keys
      ensures old(spawned) <= spawned
      ensures forall ip :: ip in peers && ip in old(peers) ==> peers[ip] == old(peers[ip])
      ensures forall ip :: ip in peers && ip !in old(peers) ==>
                fresh(peers[ip]) && Blank(peers[ip], Wanted(targets)[ip])
      ensures forall s :: s in old(spawned) ==>
                s.cancelled == (old(s.cancelled) || s.target.ip !in peers)
    {
      if !started || stopped {
        return;
      }
      var wanted := BuildWanted(targets);
      CancelMissing(wanted);
      forall ip | ip in wanted ensures ip != "" && wanted[ip].ip == ip {
        WantedKeys(targets, ip);
      }
      StartMissing(wanted);
    }

    method BuildWanted(targets: seq<Target>) returns (wanted: map<string, Target>)
      ensures wanted == Wanted(targets)
    {
      wanted := map[];
      for i := 0 to |targets|
        invariant wanted == Wanted(targets[..i])
      {
        assert targets[..i + 1][..i] == targets[..i];
        if targets[i].ip != "" {
          wanted := wanted[targets[i].ip := targets[i]];
        }
      }
      assert targets[..|targets|] == targets;
    }

    /** Cancel one peer's sampler and forget it. */
    method Drop(ip: string, pr: Sampler)
      requires Valid() && ip in peers && peers[ip] == pr
      modifies this`peers, pr`cancelled
      ensures Valid() && peers == old(peers) - {ip}
      ensures pr.cancelled
      ensures forall s :: s in spawned ==> s.cancelled == (old(s.cancelled) || s.target.ip == ip)
    {
      pr.cancelled := true;
      peers := peers - {ip};
    }

    /** Start one peer's sampler. */
    method Spawn(ip: string, t: Target)
      requires Valid() && started && !stopped && ip !in peers && ip != "" && t.ip == ip
      modifies this`peers, this`spawned
      ensures Valid() && ip in peers && peers == old(peers)[ip := peers[ip]]
      ensures spawned == old(spawned) + {peers[ip]}
      ensures fresh(peers[ip]) && Blank(peers[ip], t)
    {
      var pr := new Sampler(t, history);
      peers := peers[ip := pr];
      spawned := spawned + {pr};
    }

    lemma KnowPeers()
      requires Valid()
      ensures forall ip :: ip in peers ==> peers[ip] in spawned && peers[ip].target.ip == ip
      ensures forall s :: s in spawned ==> s.cancelled == (s.cancelled || s.target.ip !in peers)
    {
    }

    /** The first loop: peers that disappeared lose their sampler. */
    method CancelMissing(wanted: map<string, Target>)
      requires Valid() && started && !stopped
      modifies this`peers, spawned
      ensures Valid() && spawned == old(spawned)
      ensures forall ip :: ip in peers <==> ip in old(peers) && ip in wanted
      ensures forall ip :: ip in peers ==> peers[ip] == old(peers)[ip]
      ensures forall s :: s in spawned ==> s.cancelled == (old(s.cancelled) || s.target.ip !in peers)
    {
      KnowPeers();
      hide Valid;
      var todo := peers.Keys;
      while todo != {}
        invariant Valid()
        invariant forall ip :: ip in todo ==> ip in peers
        invariant forall ip :: ip in peers <==> ip in old(peers) && (ip in todo || ip in wanted)
        invariant forall ip :: ip in peers ==> peers[ip] == old(peers)[ip] && peers[ip] in spawned
        invariant forall s :: s in spawned ==> s.cancelled == (old(s.cancelled) || s.target.ip !in peers)
      {
        var ip :| ip in todo;
        todo := todo - {ip};
        DropUnwanted(ip, peers[ip], wanted);
      }
    }

    /** The body of that loop. */
    method DropUnwanted(ip: string, pr: Sampler, wanted: map<string, Target>)
      requires Valid() && ip in peers && peers[ip] == pr
      modifies this`peers, pr`cancelled
      ensures Valid() && peers == if ip in wanted then old(peers) else old(peers) - {ip}
      ensures forall s :: s in spawned ==>
                s.cancelled == (old(s.cancelled) || (s.target.ip == ip && ip !in wanted))
    {
      if ip !in wanted {
        Drop(ip, pr);
      }
    }

    /** The second loop: newly seen peers get a sampler with an empty ring. */
    method StartMissing(wanted: map<string, Target>)
      requires Valid() && started && !stopped && peers.Keys <= wanted.Keys
      requires forall ip :: ip in wanted ==> ip != "" && wanted[ip].ip == ip
      modifies this`peers, this`spawned
      ensures Valid() && old(spawned) <= spawned
      ensures peers.Keys == wanted.Keys
      ensures forall ip :: ip in old(peers) ==> peers[ip] == old(peers)[ip]
      ensures forall ip :: ip in peers && ip !in old(peers) ==>
                fresh(peers[ip]) && Blank(peers[ip], wanted[ip])
    {
      hide Valid;
      var todo := wanted.Keys;
      while todo != {}
        invariant todo <= wanted.Keys
        invariant old(peers).Keys <= peers.Keys <= wanted.Keys
        invariant wanted.Keys <= peers.Keys + todo
        invariant Valid() && old(spawned) <= spawned
        invariant forall ip :: ip in old(peers) ==> peers[ip] == old(peers)[ip]
        invariant forall ip :: ip in peers && ip !in old(peers) ==>
                    fresh(peers[ip]) && Blank(peers[ip], wanted[ip])
      {
        var ip :| ip in todo;
        todo := todo - {ip};
        if ip !in peers {
          Spawn(ip, wanted[ip]);
        }
      }
    }

    /** The outcome of one probe of a sampler that still runs. */
    method Record(ip: string, s: Sample)
      requires Valid() && ip in peers && !ctxDone
      modifies peers[ip].ring, peers[ip].ring.buf
      ensures Valid()
      ensures peers[ip].ring.added == old(peers[ip].ring.added) + [s]
    {
      peers[ip].ring.Add(s);
    }

    method Snapshot() returns (out: map<string, Stats>)
      requires Valid()
      ensures out.Keys == peers.Keys
      ensures forall ip :: ip in peers ==> out[ip] == StatsOf(peers[ip].ring.Window())
      ensures forall ip :: ip in peers ==>
                out[ip].n == if |peers[ip].ring.added| < Capacity() then |peers[ip].ring.added| else Capacity()
    {
      out := map[];
      var todo := peers.Keys;
      while todo != {}
        invariant todo <= peers.Keys && out.Keys == peers.Keys - todo
        invariant forall ip :: ip in out ==> out[ip] == StatsOf(peers[ip].ring.Window())
      {
        var ip :| ip in todo;
        todo := todo - {ip};
        var st := ComputeStats(peers[ip].ring);
        out := out[ip := st];
      }
    }

    /** The Start context ends: every sampler stops at once and the socket closes. */
    method CancelContext()
      requires Valid()
      modifies this
      ensures Valid() && ctxDone && !connOpen
      ensures started == old(started) && stopped == old(stopped) && peers == old(peers) && spawned == old(spawned)
      ensures forall s :: s in spawned ==> !Live(s)
    {
      ctxDone := true;
      connOpen := false;
    }

    method DropAll()
      requires Valid()
      modifies this`peers, spawned
      ensures Valid() && peers == map[]
    {
      var todo := peers.Keys;
      while todo != {}
        invariant Valid() && todo == peers.Keys <= old(peers).Keys
        invariant forall ip :: ip in peers ==> peers[ip] in spawned
      {
        var ip :| ip in todo;
        todo := todo - {ip};
        Drop(ip, peers[ip]);
      }
    }

    /**
      Nothing is live afterwards; SetTargets is a no-op from then on.  (Stop runs
      under the manager's lock, so setting the flag last is not observable.)
    */
    method Stop()
      requires Valid()
      modifies this, spawned
      ensures Valid() && stopped && peers == map[] && spawned == old(spawned)
      ensures started == old(started) && ctxDone == old(ctxDone)
      ensures forall s :: s in spawned ==> s.cancelled && !Live(s)
      ensures !old(stopped) ==> !connOpen
    {
      if stopped {
        return;
      }
      DropAll();
      stopped := true;
      if connOpen {
        connOpen := false;
      }
    }
  }
}
