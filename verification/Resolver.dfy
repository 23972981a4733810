/**
  The fallback resolver of internal/names: live upstreams first, then a
  verified self-claim, then the signed snapshot and the observed log.
*/
module Resolver {
  import opened Results
  import opened Text
  import opened Names
  import opened Claims
  import SS = SnapshotStore
  import OS = ObservedStore

  const TYPE_A: nat := 1

  const TYPE_AAAA: nat := 28

  const RCODE_SUCCESS: nat := 0

  const RCODE_SERVFAIL: nat := 2

  datatype Question = Question(name: string, qtype: nat)

  datatype RR = A(name: string, ip: Addr) | AAAA(name: string, ip: Addr) | OtherRR

  datatype Msg = Msg(rcode: nat, answer: seq<RR>)

  datatype Tier = ClaimTier | SnapshotTier | ObservedTier

  datatype Reply =
    | FormErr
    | ServFail
    | NoData
    | Relayed(msg: Msg)
    | Fallback(name: string, ip: Addr, tier: Tier)

  // ---- live upstreams ----

  /** The first answer, asking the non-blank upstreams in order. */
  function FirstAnswer(upstreams: seq<string>, exchange: string -> Option<Msg>): Option<Msg>
  {
    if upstreams == [] then None
    else
      var up := TrimSpace(upstreams[0]);
      if up != "" && exchange(up).Some? then exchange(up) else FirstAnswer(upstreams[1..], exchange)
  }

  /** The upstream is blank or does not answer. */
  predicate Silent(up: string, exchange: string -> Option<Msg>)
  {
    (forall i :: 0 <= i < |up| ==> IsSpace(up[i])) || exchange(TrimSpace(up)).None?
  }

  /** The i-th upstream answers with m, and every one before it is silent. */
  predicate AnswersAt(upstreams: seq<string>, exchange: string -> Option<Msg>, m: Msg, i: int)
  {
    && 0 <= i < |upstreams| && !Silent(upstreams[i], exchange) && exchange(TrimSpace(upstreams[i])) == Some(m)
    && forall j :: 0 <= j < i ==> Silent(upstreams[j], exchange)
  }

  lemma BlankIffTrimmedAway(up: string)
    ensures TrimSpace(up) == "" <==> forall i :: 0 <= i < |up| ==> IsSpace(up[i])
  {
    var n := FirstKept(up, IsSpace, 0);
    assert n < |up| ==> LastKept(up[n..], IsSpace, |up| - n) > 0;
  }

  /** Failover: no answer exactly when every upstream is silent; else the answer of the first that is not. */
  lemma {:induction false} FirstAnswerIsFirst(upstreams: seq<string>, exchange: string -> Option<Msg>)
    ensures var r := FirstAnswer(upstreams, exchange);
            && (r.None? <==> forall i :: 0 <= i < |upstreams| ==> Silent(upstreams[i], exchange))
            && (r.Some? ==> exists i :: AnswersAt(upstreams, exchange, r.value, i))
  {
    hide TrimSpace;
    if upstreams != [] {
      var rest, r := upstreams[1..], FirstAnswer(upstreams, exchange);
      FirstAnswerIsFirst(rest, exchange);
      BlankIffTrimmedAway(upstreams[0]);
      assert forall i :: 1 <= i < |upstreams| ==> upstreams[i] == rest[i - 1];
      if !Silent(upstreams[0], exchange) {
        assert AnswersAt(upstreams, exchange, r.value, 0);
      } else if r.Some? {
        var i :| AnswersAt(rest, exchange, r.value, i);
        assert AnswersAt(upstreams, exchange, r.value, i + 1);
      }
    }
  }

  method TryUpstreams(upstreams: seq<string>, exchange: string -> Option<Msg>) returns (r: Option<Msg>)
    ensures r == FirstAnswer(upstreams, exchange)
    ensures r.None? <==> forall i :: 0 <= i < |upstreams| ==> Silent(upstreams[i], exchange)
    ensures r.Some? ==> exists i :: AnswersAt(upstreams, exchange, r.value, i)
  {
    FirstAnswerIsFirst(upstreams, exchange);
    for i := 0 to |upstreams|
      invariant FirstAnswer(upstreams, exchange) == FirstAnswer(upstreams[i..], exchange)
    {
      assert upstreams[i..][1..] == upstreams[i + 1..];
      var up := TrimSpace(upstreams[i]);
      if up == "" {
        continue;
      }
      var resp := exchange(up);
      if resp.Some? {
        return resp;
      }
    }
    assert upstreams[|upstreams|..] == [];
    return None;
  }

  predicate Positive(resp: Option<Msg>)
  {
    resp.Some? && resp.value.rcode == RCODE_SUCCESS && resp.value.answer != []
  }

  /** Neither SERVFAIL nor an empty success. */
  predicate Definitive(resp: Option<Msg>)
  {
    Positive(resp) || (resp.Some? && resp.value.rcode != RCODE_SUCCESS && resp.value.rcode != RCODE_SERVFAIL)
  }

  // ---- learning from live answers ----

  /** The environment of one query: what each sort does and which log writes go through. */
  datatype Env = Env(sortAt: nat -> OS.Sorter, writeOk: nat -> bool)

  function Binding(rr: RR): Option<(string, Addr)>
  {
    match rr
    case A(n, ip) => Some((n, ip))
    case AAAA(n, ip) => Some((n, ip))
    case OtherRR => None
  }

  function LearnOne(lower: char -> char, net: Netip, log: OS.Log, rr: RR, now: int, sort: OS.Sorter,
                    writeOk: bool): OS.Log
  {
    match Binding(rr)
    case None => log
    case Some(b) => OS.Observe(lower, sort, log, b.0, net.show(b.1), now, writeOk)
  }

  function Learn(lower: char -> char, net: Netip, log: OS.Log, rrs: seq<RR>, now: int, env: Env): OS.Log
  {
    if rrs == [] then log
    else
      var k := |rrs| - 1;
      var l := Learn(lower, net, log, rrs[..k], now, env);
      LearnOne(lower, net, l, rrs[k], now, env.sortAt(k), env.writeOk(k))
  }

  // ---- the ordered choice ----

  function FirstOf(tiers: seq<Option<Reply>>, otherwise: Reply): Reply
  {
    if tiers == [] then otherwise
    else if tiers[0].Some? then tiers[0].value
    else FirstOf(tiers[1..], otherwise)
  }

  /** All that one query sees. */
  datatype View = View(
    lower: char -> char, net: Netip, trust: Trust,
    live: Option<Msg>, snapshot: Option<Snapshot>, claims: seq<Envelope>,
    observed: seq<Observation>, now: int)

  function LiveReply(v: View): Option<Reply>
  {
    if Definitive(v.live) then Some(Relayed(v.live.value)) else None
  }

  function NotAddressReply(q: Question): Option<Reply>
  {
    if q.qtype != TYPE_A && q.qtype != TYPE_AAAA then Some(ServFail) else None
  }

  predicate WantV6(q: Question)
  {
    q.qtype == TYPE_AAAA
  }

  function TakenClaim(v: View, q: Question): Option<ValidClaim>
  {
    if v.snapshot.None? then None
    else Freshest(Checker(v.lower, v.net, v.trust, v.snapshot.value, v.now), v.claims, Normalize(v.lower, q.name))
  }

  function ClaimReply(v: View, q: Question): Option<Reply>
  {
    var vc := TakenClaim(v, q);
    if vc.Some? && vc.value.ip.v6 == WantV6(q) then Some(Fallback(q.name, vc.value.ip, ClaimTier)) else None
  }

  function FoundObservation(v: View, q: Question): Option<Observation>
  {
    OS.Find(v.lower, v.observed, Normalize(v.lower, q.name), v.now)
  }

  function Picked(v: View, q: Question): Result<Answer, Refusal>
  {
    PickFallback(v.lower, v.net, v.snapshot, FoundObservation(v, q), q.name, v.now)
  }

  function PickedReply(v: View, q: Question): Option<Reply>
  {
    match Picked(v, q)
    case Err(_) => None
    case Ok(ans) =>
      Some(if ans.ip.v6 != WantV6(q) then NoData
           else Fallback(q.name, ans.ip, if ans.FromSnapshot? then SnapshotTier else ObservedTier))
  }

  /** The reply to a question: the first tier that has one, SERVFAIL if none has. */
  function Choose(v: View, q: Question): Reply
  {
    FirstOf([LiveReply(v), NotAddressReply(q), ClaimReply(v, q), PickedReply(v, q)], ServFail)
  }

  /** How many fallback records are among the replies sent. */
  function FallbackCount(sent: seq<Reply>): nat
  {
    if sent == [] then 0
    else FallbackCount(sent[..|sent| - 1]) + (if sent[|sent| - 1].Fallback? then 1 else 0)
  }

  lemma CountSnoc(sent: seq<Reply>, reply: Reply)
    ensures FallbackCount(sent + [reply]) == FallbackCount(sent) + if reply.Fallback? then 1 else 0
  {
    assert (sent + [reply])[..|sent|] == sent;
  }

  /** A live answer, relayed at some time, that taught a record. */
  datatype Lesson = Lesson(msg: Msg, now: int)

  ghost predicate Taught(lower: char -> char, net: Netip, lessons: seq<Lesson>, o: Observation)
  {
    exists i, k :: 0 <= i < |lessons| && Positive(Some(lessons[i].msg)) && 0 <= k < |lessons[i].msg.answer|
      && Teaches(lower, net, lessons[i].msg.answer[k], lessons[i].now, o)
  }

  ghost predicate Teaches(lower: char -> char, net: Netip, rr: RR, now: int, o: Observation)
  {
    match rr
    case A(n, ip) => o == Observation(Normalize(lower, n), net.show(ip), Unix(now))
    case AAAA(n, ip) => o == Observation(Normalize(lower, n), net.show(ip), Unix(now))
    case OtherRR => false
  }

  /** A rewrite adds no record but the one observed. */
  lemma ObserveAdds(lower: char -> char, sort: OS.Sorter, log: OS.Log, name: string, ip: string, now: int,
                    writeOk: bool, o: Observation)
    requires OS.Sorts(sort)
    requires o in OS.Observe(lower, sort, log, name, ip, now, writeOk).records
    ensures o in log.records || o == Observation(Normalize(lower, name), ip, Unix(now))
  {
    var want := Normalize(lower, name);
    if o !in log.records {
      var c := OS.Candidates(lower, log.records, want, ip, now);
      assert multiset(sort(c)) == multiset(c);
      assert o in sort(c);
      assert o in multiset(sort(c));
      OS.KeptMembers(lower, log.records, want, now);
    }
  }

  lemma {:induction false} LearnAdds(lower: char -> char, net: Netip, log: OS.Log, rrs: seq<RR>, now: int, env: Env,
                                     o: Observation)
    requires forall k :: OS.Sorts(env.sortAt(k))
    requires o in Learn(lower, net, log, rrs, now, env).records && o !in log.records
    ensures exists k :: 0 <= k < |rrs| && Teaches(lower, net, rrs[k], now, o)
  {
    var k := |rrs| - 1;
    var l := Learn(lower, net, log, rrs[..k], now, env);
    if Binding(rrs[k]).Some? {
      var b := Binding(rrs[k]).value;
      ObserveAdds(lower, env.sortAt(k), l, b.0, net.show(b.1), now, env.writeOk(k), o);
    }
    if o in l.records {
      LearnAdds(lower, net, log, rrs[..k], now, env, o);
      var j :| 0 <= j < k && Teaches(lower, net, rrs[..k][j], now, o);
      assert rrs[j] == rrs[..k][j];
    } else {
      assert Teaches(lower, net, rrs[k], now, o);
    }
  }

  /** The record is an address record for the name. */
  predicate Addresses(lower: char -> char, rr: RR, want: string)
  {
    match rr
    case A(n, _) => Normalize(lower, n) == want
    case AAAA(n, _) => Normalize(lower, n) == want
    case OtherRR => false
  }

  /** No answer is passed over: the memo of every name answered is its last address, noted within the minute. */
  lemma {:induction false} LearnCovers(lower: char -> char, net: Netip, log: OS.Log, rrs: seq<RR>, now: int, env: Env,
                                       k: nat, want: string)
    requires k < |rrs| && Addresses(lower, rrs[k], want)
    requires forall j :: k < j < |rrs| ==> !Addresses(lower, rrs[j], want)
    ensures var marks := Learn(lower, net, log, rrs, now, env).marks;
            && want in marks && marks[want].ip == net.show(rrs[k].ip)
            && now - marks[want].at < 60 * 1_000_000_000
  {
    hide OS.Rewritten, Normalize;
    var last := |rrs| - 1;
    if k < last {
      LearnCovers(lower, net, log, rrs[..last], now, env, k, want);
    }
  }

  /** The log's records come from the initial file and from lessons. */
  ghost predicate Sourced(lower: char -> char, net: Netip, initial: seq<Observation>, lessons: seq<Lesson>,
                          records: seq<Observation>)
  {
    forall o :: o in records ==> o in initial || Taught(lower, net, lessons, o)
  }

  lemma LessonsGrow(lower: char -> char, net: Netip, initial: seq<Observation>, lessons: seq<Lesson>, next: Lesson,
                    log: OS.Log, env: Env)
    requires Sourced(lower, net, initial, lessons, log.records) && Positive(Some(next.msg))
    requires forall k :: OS.Sorts(env.sortAt(k))
    ensures Sourced(lower, net, initial, lessons + [next],
                    Learn(lower, net, log, next.msg.answer, next.now, env).records)
  {
    var all := lessons + [next];
    forall o | o in Learn(lower, net, log, next.msg.answer, next.now, env).records
      ensures o in initial || Taught(lower, net, all, o)
    {
      if o !in log.records {
        LearnAdds(lower, net, log, next.msg.answer, next.now, env, o);
        var k :| 0 <= k < |next.msg.answer| && Teaches(lower, net, next.msg.answer[k], next.now, o);
        assert all[|lessons|] == next;
        assert Teaches(lower, net, all[|lessons|].msg.answer[k], all[|lessons|].now, o);
      } else if o !in initial {
        var i, k :| 0 <= i < |lessons| && Positive(Some(lessons[i].msg)) && 0 <= k < |lessons[i].msg.answer|
          && Teaches(lower, net, lessons[i].msg.answer[k], lessons[i].now, o);
        assert all[i] == lessons[i];
        assert Teaches(lower, net, all[i].msg.answer[k], all[i].now, o);
      }
    }
  }

  class Forwarder {
    const lower: char -> char
    const net: Netip
    const trust: Trust
    const snapshots: SS.Store
    const observed: OS.Store
    var claims: Option<seq<Envelope>>
    var served: nat
    var lastFall: int
    ghost var sent: seq<Reply>
    ghost var lessons: seq<Lesson>
    ghost var initial: seq<Observation>

    /** Every log record was taught by a live answer or was there at the start. */
    ghost predicate Stores()
      reads this, snapshots, observed
    {
      && snapshots.Valid() && observed.lower == lower
      && Sourced(lower, net, initial, lessons, observed.records)
    }

    /** Between queries the counter is the number of fallback records written out. */
    ghost predicate Valid()
      reads this, snapshots, observed
    {
      Stores() && served == FallbackCount(sent)
    }

    constructor (lower: char -> char, net: Netip, trust: Trust, snapshots: SS.Store, observed: OS.Store,
                 claims: Option<seq<Envelope>>)
      requires snapshots.Valid() && observed.lower == lower
      ensures Valid() && sent == [] && lessons == [] && initial == observed.records
      ensures this.snapshots == snapshots && this.observed == observed && this.claims == claims
    {
      this.lower, this.net, this.trust := lower, net, trust;
      this.snapshots, this.observed, this.claims := snapshots, observed, claims;
      served, lastFall := 0, 0;
      sent, lessons, initial := [], [], observed.records;
    }

    /** What the tiers below live DNS see. */
    ghost function ViewOf(now: int): (v: View)
      reads this, snapshots, observed
      ensures v.observed == observed.records && v.now == now
      ensures v.claims == match claims case Some(envs) => envs case None => []
      ensures match v.snapshot
              case Some(snap) => SS.Read(snapshots.verify, snapshots.disk) == Ok(snap)
              case None => SS.Read(snapshots.verify, snapshots.disk).Err?
    {
      var loaded := SS.Read(snapshots.verify, snapshots.disk);
      View(lower, net, trust, None,
           if loaded.Ok? then Some(loaded.value) else None,
           if claims.Some? then claims.value else [],
           observed.records, now)
    }

    method RecordOne(rr: RR, now: int, sort: OS.Sorter, writeOk: bool)
      requires observed.lower == lower
      modifies observed
      ensures observed.Value() == LearnOne(lower, net, old(observed.Value()), rr, now, sort, writeOk)
    {
      match rr {
        case A(n, ip) =>
          var _ := observed.RecordObservation(n, net.show(ip), now, sort, writeOk);
        case AAAA(n, ip) =>
          var _ := observed.RecordObservation(n, net.show(ip), now, sort, writeOk);
        case OtherRR =>
      }
    }

    method RecordAll(rrs: seq<RR>, now: int, env: Env)
      requires observed.lower == lower
      modifies observed
      ensures observed.Value() == Learn(lower, net, old(observed.Value()), rrs, now, env)
    {
      for i := 0 to |rrs|
        invariant observed.Value() == Learn(lower, net, old(observed.Value()), rrs[..i], now, env)
      {
        assert rrs[..i + 1][..i] == rrs[..i];
        RecordOne(rrs[i], now, env.sortAt(i), env.writeOk(i));
      }
      assert rrs[..|rrs|] == rrs;
    }

    method RecordLiveAnswers(resp: Msg, now: int, env: Env)
      requires Valid() && Positive(Some(resp)) && forall k :: OS.Sorts(env.sortAt(k))
      modifies observed, this`lessons
      ensures Valid() && lessons == old(lessons) + [Lesson(resp, now)]
      ensures observed.Value() == Learn(lower, net, old(observed.Value()), resp.answer, now, env)
    {
      LessonsGrow(lower, net, initial, lessons, Lesson(resp, now), observed.Value(), env);
      RecordAll(resp.answer, now, env);
      lessons := lessons + [Lesson(resp, now)];
    }

    /** w.WriteMsg: a reply goes out; nothing is counted here. */
    method WriteMsg(reply: Reply)
      requires Stores()
      modifies this`sent
      ensures Stores() && sent == old(sent) + [reply]
    {
      sent := sent + [reply];
    }

    /** A reply that is no fallback record, written out uncounted. */
    method Pass(reply: Reply)
      requires Valid() && !reply.Fallback?
      modifies this`sent
      ensures Valid() && sent == old(sent) + [reply]
    {
      CountSnoc(sent, reply);
      WriteMsg(reply);
    }

    /** One query: the reply is the ordered choice, and only a live answer teaches the log. */
    method Handle(question: Option<Question>, upstreams: seq<string>, exchange: string -> Option<Msg>, now: int,
                  env: Env)
      returns (reply: Reply)
      requires Valid() && forall k :: OS.Sorts(env.sortAt(k))
      modifies this, snapshots`snapCache, snapshots`snapCacheKey, observed
      ensures Valid() && claims == old(claims) && initial == old(initial)
      ensures sent == old(sent) + [reply]
      ensures served == old(served) + if reply.Fallback? then 1 else 0
      ensures question.None? ==> reply == FormErr
      ensures question.Some? ==>
                reply == Choose(old(ViewOf(now)).(live := FirstAnswer(upstreams, exchange)), question.value)
      ensures lastFall == if reply.Fallback? then Unix(now) else old(lastFall)
      ensures var live := FirstAnswer(upstreams, exchange);
              if question.Some? && live.Some? && live.value.rcode == 0 && live.value.answer != []
              then observed.Value() == Learn(lower, net, old(observed.Value()), live.value.answer, now, env)
                && lessons == old(lessons) + [Lesson(live.value, now)]
              else observed.Value() == old(observed.Value()) && lessons == old(lessons)
    {
      hide Choose, ClaimReply, PickedReply, FallbackCount, Sourced, Learn, FirstAnswer, Stores;
      if question.None? {
        reply := FormErr;
        Pass(reply);
        return;
      }
      var q := question.value;
      var resp := TryUpstreams(upstreams, exchange);
      ghost var v := ViewOf(now).(live := resp);
      TierOrder(v, q);
      if resp.Some? {
        if resp.value.rcode == RCODE_SUCCESS && |resp.value.answer| > 0 {
          RecordLiveAnswers(resp.value, now, env);
          reply := Relayed(resp.value);
          Pass(reply);
          return;
        }
        if resp.value.rcode != RCODE_SUCCESS && resp.value.rcode != RCODE_SERVFAIL {
          reply := Relayed(resp.value);
          Pass(reply);
          return;
        }
      }
      if q.qtype != TYPE_A && q.qtype != TYPE_AAAA {
        reply := ServFail;
        Pass(reply);
        return;
      }
      var claimed := AnswerFromClaim(q, now, v);
      if claimed.Some? {
        return claimed.value;
      }
      reply := AnswerFromFallback(q, now, v);
    }

    /** The claim tier, for an address query: a claim of the right family is counted and sent. */
    method AnswerFromClaim(q: Question, now: int, ghost v: View) returns (reply: Option<Reply>)
      requires Valid() && v == ViewOf(now).(live := v.live)
      modifies this`served, this`lastFall, this`sent, snapshots`snapCache, snapshots`snapCacheKey
      ensures Valid() && reply == ClaimReply(v, q) && (reply.Some? ==> reply.value.Fallback?)
      ensures sent == if reply.Some? then old(sent) + [reply.value] else old(sent)
      ensures served == old(served) + if reply.Some? then 1 else 0
      ensures lastFall == if reply.Some? then Unix(now) else old(lastFall)
    {
      hide TakenClaim, Sourced, FallbackCount;
      var vc := FindClaim(q, now, v);
      if vc.Some? {
        var wantV6 := q.qtype == TYPE_AAAA;
        if vc.value.ip.v6 == wantV6 {
          served := served + 1;
          lastFall := Unix(now);
          var msg := Fallback(q.name, vc.value.ip, ClaimTier);
          CountSnoc(sent, msg);
          WriteMsg(msg);
          return Some(msg);
        }
      }
      return None;
    }

    method FindClaim(q: Question, now: int, ghost v: View) returns (vc: Option<ValidClaim>)
      requires Valid() && v == ViewOf(now).(live := v.live)
      modifies snapshots`snapCache, snapshots`snapCacheKey
      ensures Valid() && vc == TakenClaim(v, q)
    {
      hide Sourced, FallbackCount;
      var loaded := snapshots.LoadSnapshot();
      vc := None;
      if loaded.Ok? && claims.Some? {
        vc := LookupClaim(Checker(lower, net, trust, loaded.value, now), claims.value, Normalize(lower, q.name));
      }
    }

    /** The snapshot and observed tiers, down to SERVFAIL: only a record of the right family is counted. */
    method AnswerFromFallback(q: Question, now: int, ghost v: View) returns (reply: Reply)
      requires Valid() && v == ViewOf(now).(live := v.live)
      modifies this`served, this`lastFall, this`sent, snapshots`snapCache, snapshots`snapCacheKey
      ensures Valid() && reply == if PickedReply(v, q).Some? then PickedReply(v, q).value else ServFail
      ensures sent == old(sent) + [reply]
      ensures served == old(served) + if reply.Fallback? then 1 else 0
      ensures lastFall == if reply.Fallback? then Unix(now) else old(lastFall)
    {
      hide Picked, Sourced, FallbackCount;
      var ans := FindFallback(q, now, v);
      if ans.Err? {
        reply := ServFail;
        Pass(reply);
        return;
      }
      var wantV6 := q.qtype == TYPE_AAAA;
      if ans.value.ip.v6 != wantV6 {
        reply := NoData;
        Pass(reply);
        return;
      }
      served := served + 1;
      lastFall := Unix(now);
      reply := Fallback(q.name, ans.value.ip, if ans.value.FromSnapshot? then SnapshotTier else ObservedTier);
      CountSnoc(sent, reply);
      WriteMsg(reply);
    }

    method FindFallback(q: Question, now: int, ghost v: View) returns (ans: Result<Answer, Refusal>)
      requires Valid() && v == ViewOf(now).(live := v.live)
      modifies snapshots`snapCache, snapshots`snapCacheKey
      ensures Valid() && ans == Picked(v, q)
    {
      hide Sourced, FallbackCount, PickFallback;
      var loaded := snapshots.LoadSnapshot();
      var snap := if loaded.Ok? then Some(loaded.value) else None;
      var obs := observed.LookupObserved(q.name, now);
      ans := PickFallback(lower, net, snap, obs, q.name, now);
    }
  }

  lemma FirstOfCons(t: Option<Reply>, rest: seq<Option<Reply>>, otherwise: Reply)
    ensures FirstOf([t] + rest, otherwise) == if t.Some? then t.value else FirstOf(rest, otherwise)
  {
    assert ([t] + rest)[1..] == rest;
  }

  /** Live first, then the query type, then claims, then the snapshot and the log. */
  lemma TierOrder(v: View, q: Question)
    ensures Choose(v, q) ==
            if v.live.Some? && (if v.live.value.rcode == 0 then v.live.value.answer != [] else v.live.value.rcode != 2)
            then Relayed(v.live.value)
            else if q.qtype != 1 && q.qtype != 28 then ServFail
            else if ClaimReply(v, q).Some? then ClaimReply(v, q).value
            else if PickedReply(v, q).Some? then PickedReply(v, q).value
            else ServFail
  {
    var l, n, c, p := LiveReply(v), NotAddressReply(q), ClaimReply(v, q), PickedReply(v, q);
    assert [l, n, c, p] == [l] + [n, c, p];
    FirstOfCons(l, [n, c, p], ServFail);
    assert [n, c, p] == [n] + [c, p];
    FirstOfCons(n, [c, p], ServFail);
    assert [c, p] == [c] + [p];
    FirstOfCons(c, [p], ServFail);
    assert [p] == [p] + [];
    FirstOfCons(p, [], ServFail);
  }

  /** Every fallback record is honest about the tier it names. */
  lemma FallbackIsSafe(v: View, q: Question)
    ensures var r := Choose(v, q);
            r.Fallback? ==>
              && !Definitive(v.live) && r.name == q.name && r.ip.v6 == (q.qtype == 28)
              && (r.tier.ClaimTier? ==>
                    && v.snapshot.Some? && TakenClaim(v, q).Some? && TakenClaim(v, q).value.ip == r.ip
                    && Carried(Checker(v.lower, v.net, v.trust, v.snapshot.value, v.now), v.claims,
                               Normalize(v.lower, q.name), TakenClaim(v, q).value))
              && (r.tier.SnapshotTier? ==>
                    && v.snapshot.Some?
                    && v.now - v.snapshot.value.generatedAt * SECOND < v.snapshot.value.ttl * SECOND
                    && var rec := Canonical(v.lower, v.snapshot, q.name, v.now);
                       rec.Some? && v.net.parse(rec.value.ip) == Some(r.ip))
              && (r.tier.ObservedTier? ==>
                    && FoundObservation(v, q).Some?
                    && v.net.parse(FoundObservation(v, q).value.ip) == Some(r.ip)
                    && v.now - FoundObservation(v, q).value.observedAt * SECOND < OS.OBSERVED_TTL)
  {
    TierOrder(v, q);
    FallbackChoice(v.lower, v.net, v.snapshot, FoundObservation(v, q), q.name, v.now);
    OS.FindIsFirst(v.lower, v.observed, Normalize(v.lower, q.name), v.now);
    if v.snapshot.Some? {
      ServedIsInsideTtl(v.snapshot.value, v.now);
      FreshestBelow(Checker(v.lower, v.net, v.trust, v.snapshot.value, v.now), v.claims, Normalize(v.lower, q.name));
    }
  }

  /** The observation answers for the name: there is one, and no canonical record it does not supersede. */
  predicate ObservedWins(v: View, q: Question)
  {
    var rec, obs := Canonical(v.lower, v.snapshot, q.name, v.now), FoundObservation(v, q);
    && obs.Some?
    && (rec.Some? ==> obs.value.ip != rec.value.ip && obs.value.observedAt > v.snapshot.value.generatedAt)
  }

  /**
    And none is withheld.  An address query without a definitive live answer gets
    no address only if every valid claim for the name of the wanted family is no
    fresher than one of the other; and then it is refused exactly when the record
    or observation in charge, if any, has no well-formed address, and answered
    without data exactly when that address is of the other family.
  */
  lemma FallbackIsComplete(v: View, q: Question)
    requires !Definitive(v.live) && (q.qtype == TYPE_A || q.qtype == TYPE_AAAA)
    ensures var r, rec := Choose(v, q), Canonical(v.lower, v.snapshot, q.name, v.now);
            var ip := if ObservedWins(v, q) then v.net.parse(FoundObservation(v, q).value.ip)
                      else if rec.Some? then v.net.parse(rec.value.ip) else None;
            var claimed := r.Fallback? && r.tier.ClaimTier?;
            && (r == ServFail <==> !claimed && ip.None?)
            && (r == NoData <==> !claimed && ip.Some? && ip.value.v6 != (q.qtype == 28))
            && (!claimed && v.snapshot.Some? ==>
                  forall vc ::
                    Carried(ClaimCheck(v), v.claims, Normalize(v.lower, q.name), vc) && vc.ip.v6 == (q.qtype == 28) ==>
                    exists other :: Carried(ClaimCheck(v), v.claims, Normalize(v.lower, q.name), other)
                      && other.ip.v6 != vc.ip.v6 && other.age <= vc.age)
            && (claimed && v.snapshot.Some? && TakenClaim(v, q).Some? ==>
                  forall vc :: Carried(ClaimCheck(v), v.claims, Normalize(v.lower, q.name), vc) ==>
                    TakenClaim(v, q).value.age <= vc.age)
  {
    TierOrder(v, q);
    FallbackChoice(v.lower, v.net, v.snapshot, FoundObservation(v, q), q.name, v.now);
    if v.snapshot.Some? {
      FreshestBelow(ClaimCheck(v), v.claims, Normalize(v.lower, q.name));
    }
  }

  /** How a query checks claims, given a snapshot. */
  function ClaimCheck(v: View): Check
    requires v.snapshot.Some?
  {
    Checker(v.lower, v.net, v.trust, v.snapshot.value, v.now)
  }
}
