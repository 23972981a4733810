/**
  The observed half of the names store: a log of live-learned bindings, newest
  first, capped and pruned, whose rewrites are suppressed for repeated bindings.
*/
module ObservedStore {
  import opened Results
  import opened Text
  import opened Names

  const OBSERVED_TTL: int := 30 * 24 * 3600 * SECOND

  const OBSERVED_MAX: nat := 512

  const OBS_SUPPRESS: int := 60 * SECOND

  /** The suppression memo for one name. */
  datatype Mark = Mark(ip: string, at: int)

  /** The file's records and the in-memory memos. */
  datatype Log = Log(records: seq<Observation>, marks: map<string, Mark>)

  type Sorter = seq<Observation> -> seq<Observation>

  predicate NewestFirst(rs: seq<Observation>)
  {
    forall i, j :: 0 <= i < j < |rs| ==> rs[i].observedAt >= rs[j].observedAt
  }

  /** The contract of sort.Slice with this comparison: some newest-first permutation. */
  ghost predicate Sorts(sort: Sorter)
  {
    forall rs :: multiset(sort(rs)) == multiset(rs) && NewestFirst(sort(rs))
  }

  predicate ExpiredAt(o: Observation, now: int)
  {
    now - o.observedAt * SECOND >= OBSERVED_TTL
  }

  /** The filter loop: the name's own record and expired ones go. */
  function Kept(lower: char -> char, rs: seq<Observation>, want: string, now: int): (r: seq<Observation>)
    ensures |r| <= |rs|
  {
    if rs == [] then []
    else
      var front, o := Kept(lower, rs[..|rs| - 1], want, now), rs[|rs| - 1];
      if Map(lower, o.name) == want || ExpiredAt(o, now) then front else front + [o]
  }

  function Suppressed(marks: map<string, Mark>, want: string, ip: string, now: int): bool
  {
    want in marks && marks[want].ip == ip && now - marks[want].at < OBS_SUPPRESS
  }

  /** The file RecordObservation writes. */
  function Rewritten(lower: char -> char, sort: Sorter, rs: seq<Observation>, want: string, ip: string, now: int)
    : seq<Observation>
  {
    var sorted := sort(Kept(lower, rs, want, now) + [Observation(want, ip, Unix(now))]);
    if |sorted| > OBSERVED_MAX then sorted[..OBSERVED_MAX] else sorted
  }

  function Observe(lower: char -> char, sort: Sorter, log: Log, name: string, ip: string, now: int, writeOk: bool): Log
  {
    var want := Normalize(lower, name);
    if Suppressed(log.marks, want, ip, now) then log
    else
      Log(if writeOk then Rewritten(lower, sort, log.records, want, ip, now) else log.records,
          log.marks[want := Mark(ip, now)])
  }

  /** LookupObserved: the first unexpired record of the name. */
  function Find(lower: char -> char, rs: seq<Observation>, want: string, now: int): Option<Observation>
  {
    if rs == [] then None
    else if !ExpiredAt(rs[0], now) && Map(lower, rs[0].name) == want then Some(rs[0])
    else Find(lower, rs[1..], want, now)
  }

  /** The i-th record is the first of the name that is not thirty days old. */
  predicate FoundAt(lower: char -> char, rs: seq<Observation>, want: string, now: int, o: Observation, i: int)
  {
    && 0 <= i < |rs| && rs[i] == o && Answering(lower, o, want, now)
    && forall j :: 0 <= j < i ==> !Answering(lower, rs[j], want, now)
  }

  predicate Answering(lower: char -> char, o: Observation, want: string, now: int)
  {
    Map(lower, o.name) == want && now - o.observedAt * 1_000_000_000 < 30 * 86_400 * 1_000_000_000
  }

  lemma {:induction false} FindIsFirst(lower: char -> char, rs: seq<Observation>, want: string, now: int)
    ensures var r := Find(lower, rs, want, now);
            && (r.None? <==> forall i :: 0 <= i < |rs| ==> !Answering(lower, rs[i], want, now))
            && (r.Some? ==> exists i :: FoundAt(lower, rs, want, now, r.value, i))
  {
    if rs != [] && !Answering(lower, rs[0], want, now) {
      var rest, r := rs[1..], Find(lower, rs, want, now);
      FindIsFirst(lower, rest, want, now);
      assert forall i :: 1 <= i < |rs| ==> rs[i] == rest[i - 1];
      if r.Some? {
        var i :| FoundAt(lower, rest, want, now, r.value, i);
        assert FoundAt(lower, rs, want, now, r.value, i + 1);
      }
    } else if rs != [] {
      assert FoundAt(lower, rs, want, now, rs[0], 0);
    }
  }

  class Store {
    const lower: char -> char
    var records: seq<Observation>
    var lastObs: map<string, Mark>

    function Value(): Log
      reads this
    {
      Log(records, lastObs)
    }

    constructor (lower: char -> char, records: seq<Observation>)
      ensures this.lower == lower && Value() == Log(records, map[])
    {
      this.lower := lower;
      this.records := records;
      lastObs := map[];
    }

    /** `sort` is what the library sort does this time, `writeOk` whether the file write goes through. */
    method RecordObservation(name: string, ip: string, now: int, sort: Sorter, writeOk: bool) returns (ok: bool)
      modifies this
      ensures Value() == Observe(lower, sort, old(Value()), name, ip, now, writeOk)
      ensures ok <==> writeOk || Suppressed(old(lastObs), Normalize(lower, name), ip, now)
    {
      var want := Normalize(lower, name);
      if want in lastObs && lastObs[want].ip == ip && now - lastObs[want].at < OBS_SUPPRESS {
        return true;
      }
      lastObs := lastObs[want := Mark(ip, now)];
      var kept := [];
      for i := 0 to |records|
        invariant kept == Kept(lower, records[..i], want, now)
      {
        var o := records[i];
        assert records[..i + 1][..i] == records[..i];
        if Map(lower, o.name) == want {
          continue;
        }
        if now - o.observedAt * SECOND >= OBSERVED_TTL {
          continue;
        }
        kept := kept + [o];
      }
      assert records[..|records|] == records;
      kept := kept + [Observation(want, ip, Unix(now))];
      kept := sort(kept);
      if |kept| > OBSERVED_MAX {
        kept := kept[..OBSERVED_MAX];
      }
      if !writeOk {
        return false;
      }
      records := kept;
      return true;
    }

    method LookupObserved(name: string, now: int) returns (r: Option<Observation>)
      ensures r == Find(lower, records, Normalize(lower, name), now)
    {
      var want := Normalize(lower, name);
      for i := 0 to |records|
        invariant Find(lower, records, want, now) == Find(lower, records[i..], want, now)
      {
        var o := records[i];
        assert records[i..][1..] == records[i + 1..];
        if now - o.observedAt * SECOND >= OBSERVED_TTL {
          continue;
        }
        if Map(lower, o.name) == want {
          return Some(o);
        }
      }
      assert records[|records|..] == [];
      return None;
    }
  }

  // ---- the log is well formed ----

  /** One record per normalized name, newest first, at most 512. */
  ghost predicate WellFormed(lower: char -> char, rs: seq<Observation>)
  {
    && |rs| <= OBSERVED_MAX
    && NewestFirst(rs)
    && OnePerName(rs)
    && forall i :: 0 <= i < |rs| ==> Map(lower, rs[i].name) == rs[i].name
  }

  ghost predicate OnePerName(rs: seq<Observation>)
  {
    forall i, j :: 0 <= i < j < |rs| ==> rs[i].name != rs[j].name
  }

  lemma {:induction false} KeptMembers(lower: char -> char, rs: seq<Observation>, want: string, now: int)
    ensures forall o :: o in Kept(lower, rs, want, now) <==>
              o in rs && Map(lower, o.name) != want && !ExpiredAt(o, now)
  {
    if rs != [] {
      KeptMembers(lower, rs[..|rs| - 1], want, now);
      assert rs == rs[..|rs| - 1] + [rs[|rs| - 1]];
    }
  }

  lemma {:induction false} KeptOnePerName(lower: char -> char, rs: seq<Observation>, want: string, now: int)
    requires OnePerName(rs)
    ensures OnePerName(Kept(lower, rs, want, now))
  {
    if rs != [] {
      var front, o := rs[..|rs| - 1], rs[|rs| - 1];
      KeptOnePerName(lower, front, want, now);
      KeptMembers(lower, front, want, now);
      var k := Kept(lower, front, want, now);
      forall i | 0 <= i < |k| ensures k[i].name != o.name {
        assert k[i] in front;
      }
    }
  }

  lemma {:induction false} NoRepeats(a: seq<Observation>, x: Observation)
    requires OnePerName(a)
    ensures multiset(a)[x] <= 1
  {
    if a != [] {
      var front, o := a[..|a| - 1], a[|a| - 1];
      assert a == front + [o];
      NoRepeats(front, x);
      if x == o {
        assert x !in front;
      }
    }
  }

  lemma RepeatCounts(b: seq<Observation>, i: nat, j: nat)
    requires i < j < |b| && b[i] == b[j]
    ensures multiset(b)[b[i]] >= 2
  {
    var front, back := b[..j], b[j..];
    assert b == front + back;
    assert front[i] == b[i] && back[0] == b[i];
  }

  /** Being one-per-name does not depend on the order. */
  lemma OnePerNamePermutes(a: seq<Observation>, b: seq<Observation>)
    requires multiset(a) == multiset(b) && OnePerName(a)
    ensures OnePerName(b)
  {
    forall i, j | 0 <= i < j < |b| ensures b[i].name != b[j].name {
      assert b[i] in multiset(a) && b[j] in multiset(a);
      if b[i] == b[j] {
        NoRepeats(a, b[i]);
        RepeatCounts(b, i, j);
      }
    }
  }

  lemma LowerIdempotent(lower: char -> char, s: string)
    requires IsLowerMap(lower)
    ensures Map(lower, Map(lower, s)) == Map(lower, s)
  {
    var t := Map(lower, s);
    assert forall i :: 0 <= i < |s| ==> lower(lower(s[i])) == lower(s[i]);
  }

  /** What goes into the sort: the kept records and the new one. */
  function Candidates(lower: char -> char, rs: seq<Observation>, want: string, ip: string, now: int): seq<Observation>
  {
    Kept(lower, rs, want, now) + [Observation(want, ip, Unix(now))]
  }

  lemma CandidatesWellFormed(lower: char -> char, rs: seq<Observation>, name: string, ip: string, now: int)
    requires IsLowerMap(lower) && WellFormed(lower, rs)
    ensures var c := Candidates(lower, rs, Normalize(lower, name), ip, now);
            OnePerName(c) && forall o :: o in c ==> Map(lower, o.name) == o.name
  {
    var want := Normalize(lower, name);
    KeptMembers(lower, rs, want, now);
    KeptOnePerName(lower, rs, want, now);
    LowerIdempotent(lower, if name != "" && name[|name| - 1] == '.' then name[..|name| - 1] else name);
    var k := Kept(lower, rs, want, now);
    forall i | 0 <= i < |k| ensures k[i].name != want {
      assert k[i] in k;
    }
  }

  /** Every rewrite keeps the log well formed and drops nothing newer than what it keeps. */
  lemma ObserveWellFormed(lower: char -> char, sort: Sorter, log: Log, name: string, ip: string, now: int,
                          writeOk: bool)
    requires IsLowerMap(lower) && Sorts(sort) && WellFormed(lower, log.records)
    ensures WellFormed(lower, Observe(lower, sort, log, name, ip, now, writeOk).records)
  {
    var want := Normalize(lower, name);
    var c := Candidates(lower, log.records, want, ip, now);
    CandidatesWellFormed(lower, log.records, name, ip, now);
    var s := sort(c);
    assert multiset(s) == multiset(c) && NewestFirst(s);
    OnePerNamePermutes(c, s);
    forall i | 0 <= i < |s| ensures Map(lower, s[i].name) == s[i].name {
      assert s[i] in multiset(s);
    }
  }

  /** Another name's record that is not thirty days old. */
  predicate Stays(lower: char -> char, o: Observation, want: string, now: int)
  {
    Map(lower, o.name) != want && now - o.observedAt * 1_000_000_000 < 30 * 86_400 * 1_000_000_000
  }

  /**
    What a call does: nothing when the memo has the same address and is less than
    a minute old; else the memo is renewed, and if the write goes through the
    file holds the new record and every other that stays, as far as 512 reach.
  */
  lemma ObserveIs(lower: char -> char, sort: Sorter, log: Log, name: string, ip: string, now: int, writeOk: bool)
    requires Sorts(sort)
    ensures var want := Normalize(lower, name);
            var n, rec := Observe(lower, sort, log, name, ip, now, writeOk), Observation(want, ip, now / 1_000_000_000);
            if want in log.marks && log.marks[want].ip == ip && now - log.marks[want].at < 60 * 1_000_000_000
            then n == log
            else
              && n.marks == log.marks[want := Mark(ip, now)]
              && (!writeOk ==> n.records == log.records)
              && (writeOk ==>
                    && |n.records| <= 512
                    && (forall o :: o in n.records ==> o == rec || (o in log.records && Stays(lower, o, want, now)))
                    && (forall o :: o == rec || (o in log.records && Stays(lower, o, want, now)) ==>
                          o in n.records || (|n.records| == 512 && forall k :: k in n.records ==>
                                               k.observedAt >= o.observedAt)))
  {
    hide Normalize, Kept;
    var want := Normalize(lower, name);
    KeptMembers(lower, log.records, want, now);
    var c := Candidates(lower, log.records, want, ip, now);
    var s := sort(c);
    assert multiset(s) == multiset(c) && NewestFirst(s);
    forall o ensures o in c <==> o in s {
      assert o in c <==> o in multiset(c);
      assert o in s <==> o in multiset(s);
    }
    var r := Rewritten(lower, sort, log.records, want, ip, now);
    forall o | o in r
      ensures o == Observation(want, ip, now / 1_000_000_000) || (o in log.records && Stays(lower, o, want, now))
    {
      assert o in s && o in c;
      assert c == Kept(lower, log.records, want, now) + [Observation(want, ip, Unix(now))];
    }
    forall o, k | o in s && o !in r && k in r ensures k.observedAt >= o.observedAt {
      CapDropsOldest(lower, sort, log.records, want, ip, now, k, o);
    }
  }

  lemma CapDropsOldest(lower: char -> char, sort: Sorter, rs: seq<Observation>, want: string, ip: string, now: int,
                       kept: Observation, dropped: Observation)
    requires Sorts(sort)
    requires kept in Rewritten(lower, sort, rs, want, ip, now)
    requires dropped in Candidates(lower, rs, want, ip, now) && dropped !in Rewritten(lower, sort, rs, want, ip, now)
    ensures dropped.observedAt <= kept.observedAt
  {
    var c := Candidates(lower, rs, want, ip, now);
    var s := sort(c);
    assert multiset(s) == multiset(c) && NewestFirst(s);
    assert dropped in multiset(s);
    var j :| 0 <= j < |s| && s[j] == dropped;
    var r := Rewritten(lower, sort, rs, want, ip, now);
    var i :| 0 <= i < |r| && r[i] == kept;
    assert s[i] == kept;
    assert j >= OBSERVED_MAX;
  }

  // ---- suppression is invisible ----

  /** One observation, with what the library sort does at that call and whether its write goes through. */
  datatype Call = Call(name: string, ip: string, now: int, sort: Sorter, writeOk: bool)

  function Run(lower: char -> char, calls: seq<Call>): Log
  {
    if calls == [] then Log([], map[])
    else
      var c := calls[|calls| - 1];
      Observe(lower, c.sort, Run(lower, calls[..|calls| - 1]), c.name, c.ip, c.now, c.writeOk)
  }

  /** Nondecreasing clock, none of it later than `until`, and lawful sorts. */
  ghost predicate Orderly(calls: seq<Call>, until: int)
  {
    && (forall i, j :: 0 <= i < j < |calls| ==> calls[i].now <= calls[j].now)
    && (forall i :: 0 <= i < |calls| ==> calls[i].now <= until && Sorts(calls[i].sort))
  }

  function NamesOf(lower: char -> char, calls: seq<Call>): set<string>
  {
    if calls == [] then {}
    else NamesOf(lower, calls[..|calls| - 1]) + {Normalize(lower, calls[|calls| - 1].name)}
  }

  /** The last call for a normalized name. */
  function LastCall(lower: char -> char, calls: seq<Call>, name: string): Option<Call>
  {
    if calls == [] then None
    else if Normalize(lower, calls[|calls| - 1].name) == name then Some(calls[|calls| - 1])
    else LastCall(lower, calls[..|calls| - 1], name)
  }

  /** The last call for a name that was not suppressed: the one its memo is of. */
  function LastNoted(lower: char -> char, calls: seq<Call>, name: string): Option<Call>
  {
    if calls == [] then None
    else
      var front, c := calls[..|calls| - 1], calls[|calls| - 1];
      if Normalize(lower, c.name) == name && !Suppressed(Run(lower, front).marks, name, c.ip, c.now) then Some(c)
      else LastNoted(lower, front, name)
  }

  /** The last of those whose write went through: the one its record is of. */
  function LastWritten(lower: char -> char, calls: seq<Call>, name: string): Option<Call>
  {
    if calls == [] then None
    else
      var front, c := calls[..|calls| - 1], calls[|calls| - 1];
      if Normalize(lower, c.name) == name && !Suppressed(Run(lower, front).marks, name, c.ip, c.now) && c.writeOk
      then Some(c) else LastWritten(lower, front, name)
  }

  function RecordOf(name: string, c: Call): Observation
  {
    Observation(name, c.ip, Unix(c.now))
  }

  /** The record of a name's last write is in the file, or would have expired by now anyway. */
  ghost predicate Filed(lower: char -> char, calls: seq<Call>, log: Log, name: string, now: int)
  {
    var w := LastWritten(lower, calls, name);
    w.Some? ==> RecordOf(name, w.value) in log.records || ExpiredAt(RecordOf(name, w.value), now)
  }

  /**
    The memo of a name is of its last call that was not suppressed, and repeats
    its last call, less than a minute old then.
  */
  ghost predicate Memoed(lower: char -> char, calls: seq<Call>, log: Log, name: string)
  {
    var noted, last := LastNoted(lower, calls, name), LastCall(lower, calls, name);
    && name in log.marks && noted.Some? && last.Some?
    && log.marks[name] == Mark(noted.value.ip, noted.value.now)
    && log.marks[name].ip == last.value.ip
    && 0 <= last.value.now - log.marks[name].at < OBS_SUPPRESS
  }

  ghost predicate Faithful(lower: char -> char, calls: seq<Call>, log: Log, now: int)
  {
    && WellFormed(lower, log.records)
    && log.marks.Keys == NamesOf(lower, calls)
    && (forall o :: o in log.records ==>
          && o.name in NamesOf(lower, calls) && LastWritten(lower, calls, o.name).Some?
          && o == RecordOf(o.name, LastWritten(lower, calls, o.name).value))
    && (forall n :: n in log.marks ==> Filed(lower, calls, log, n, now))
    && (forall n :: n in log.marks ==> Memoed(lower, calls, log, n))
  }

  lemma {:induction false} OnePerNameBound(rs: seq<Observation>, names: set<string>)
    requires OnePerName(rs) && forall o :: o in rs ==> o.name in names
    ensures |rs| <= |names|
  {
    if rs != [] {
      var front, o := rs[..|rs| - 1], rs[|rs| - 1];
      assert rs == front + [o];
      OnePerNameBound(front, names - {o.name});
    }
  }

  /** A rewrite of a log whose names fit loses nothing to the cap. */
  lemma RewriteKeepsAll(lower: char -> char, sort: Sorter, rs: seq<Observation>, name: string, ip: string, now: int,
                        names: set<string>)
    requires IsLowerMap(lower) && Sorts(sort) && WellFormed(lower, rs) && |names| <= OBSERVED_MAX
    requires Normalize(lower, name) in names && forall o :: o in rs ==> o.name in names
    ensures var want := Normalize(lower, name);
            forall o :: o in Rewritten(lower, sort, rs, want, ip, now) <==>
              o == Observation(want, ip, Unix(now)) || (o in rs && o.name != want && !ExpiredAt(o, now))
  {
    var want := Normalize(lower, name);
    var c := Candidates(lower, rs, want, ip, now);
    CandidatesWellFormed(lower, rs, name, ip, now);
    KeptMembers(lower, rs, want, now);
    OnePerNameBound(c, names);
    var s := sort(c);
    assert multiset(s) == multiset(c);
    assert |s| == |multiset(s)| == |multiset(c)| == |c|;
    forall o ensures o in s <==> o in c {
      assert o in s <==> o in multiset(s);
      assert o in c <==> o in multiset(c);
    }
    forall o | o in rs ensures Map(lower, o.name) == o.name {
      var i :| 0 <= i < |rs| && rs[i] == o;
    }
  }

  /** What one more call changes in the three last calls of a name. */
  lemma LastCalls(lower: char -> char, calls: seq<Call>, c: Call, n: string)
    ensures var all, want := calls + [c], Normalize(lower, c.name);
            var noted := n == want && !Suppressed(Run(lower, calls).marks, want, c.ip, c.now);
            && LastCall(lower, all, n) == (if n == want then Some(c) else LastCall(lower, calls, n))
            && LastNoted(lower, all, n) == (if noted then Some(c) else LastNoted(lower, calls, n))
            && LastWritten(lower, all, n) == (if noted && c.writeOk then Some(c) else LastWritten(lower, calls, n))
  {
    hide Normalize, Run, Suppressed;
    assert (calls + [c])[..|calls|] == calls;
  }

  lemma OneMoreName(lower: char -> char, calls: seq<Call>, c: Call)
    ensures NamesOf(lower, calls + [c]) == NamesOf(lower, calls) + {Normalize(lower, c.name)}
  {
    assert (calls + [c])[..|calls|] == calls;
  }

  /** A repeated binding inside the minute changes only whose call was last. */
  lemma SuppressedStep(lower: char -> char, calls: seq<Call>, prev: int, c: Call)
    requires prev <= c.now && Faithful(lower, calls, Run(lower, calls), prev)
    requires forall n :: n in Run(lower, calls).marks ==> Run(lower, calls).marks[n].at <= prev
    requires Suppressed(Run(lower, calls).marks, Normalize(lower, c.name), c.ip, c.now)
    ensures Faithful(lower, calls + [c], Run(lower, calls), c.now)
  {
    hide Run, Normalize, LastCall, LastNoted, LastWritten, NamesOf, WellFormed;
    var log, all := Run(lower, calls), calls + [c];
    OneMoreName(lower, calls, c);
    forall n | n in log.marks ensures Filed(lower, all, log, n, c.now) && Memoed(lower, all, log, n) {
      LastCalls(lower, calls, c, n);
      assert Filed(lower, calls, log, n, prev) && Memoed(lower, calls, log, n);
    }
    forall o | o in log.records
      ensures o.name in NamesOf(lower, all) && LastWritten(lower, all, o.name) == LastWritten(lower, calls, o.name)
    {
      LastCalls(lower, calls, c, o.name);
    }
  }

  /** A failed write leaves the file as it was and a new memo behind. */
  lemma FailedStep(lower: char -> char, calls: seq<Call>, prev: int, c: Call)
    requires prev <= c.now && Faithful(lower, calls, Run(lower, calls), prev) && !c.writeOk
    requires !Suppressed(Run(lower, calls).marks, Normalize(lower, c.name), c.ip, c.now)
    ensures Faithful(lower, calls + [c], Observe(lower, c.sort, Run(lower, calls), c.name, c.ip, c.now, false), c.now)
  {
    hide Run, Normalize, LastCall, LastNoted, LastWritten, NamesOf, WellFormed, Suppressed;
    var log, all, want := Run(lower, calls), calls + [c], Normalize(lower, c.name);
    var log' := Observe(lower, c.sort, log, c.name, c.ip, c.now, false);
    OneMoreName(lower, calls, c);
    assert log' == Log(log.records, log.marks[want := Mark(c.ip, c.now)]);
    forall n | n in log'.marks ensures Filed(lower, all, log', n, c.now) && Memoed(lower, all, log', n) {
      LastCalls(lower, calls, c, n);
      NotNamedNotWritten(lower, calls, n);
      if n in log.marks {
        assert Filed(lower, calls, log, n, prev) && Memoed(lower, calls, log, n);
      }
    }
    forall o | o in log.records
      ensures o.name in NamesOf(lower, all) && LastWritten(lower, all, o.name) == LastWritten(lower, calls, o.name)
    {
      LastCalls(lower, calls, c, o.name);
    }
  }

  lemma {:induction false} NotNamedNotWritten(lower: char -> char, calls: seq<Call>, n: string)
    ensures n !in NamesOf(lower, calls) ==> LastWritten(lower, calls, n).None? && LastNoted(lower, calls, n).None?
  {
    if calls != [] {
      NotNamedNotWritten(lower, calls[..|calls| - 1], n);
    }
  }

  /** A rewrite: the name gets its new record and memo, every other name keeps both or expires. */
  lemma WrittenStep(lower: char -> char, calls: seq<Call>, prev: int, c: Call)
    requires IsLowerMap(lower) && Sorts(c.sort) && c.writeOk
    requires prev <= c.now && Faithful(lower, calls, Run(lower, calls), prev)
    requires |NamesOf(lower, calls + [c])| <= OBSERVED_MAX
    requires !Suppressed(Run(lower, calls).marks, Normalize(lower, c.name), c.ip, c.now)
    ensures Faithful(lower, calls + [c], Observe(lower, c.sort, Run(lower, calls), c.name, c.ip, c.now, true), c.now)
  {
    hide Run, Normalize, LastCall, LastNoted, LastWritten, NamesOf, WellFormed, Suppressed, IsLowerMap, Sorts,
      Rewritten;
    var log, all, want := Run(lower, calls), calls + [c], Normalize(lower, c.name);
    var log' := Observe(lower, c.sort, log, c.name, c.ip, c.now, true);
    OneMoreName(lower, calls, c);
    ObserveWellFormed(lower, c.sort, log, c.name, c.ip, c.now, true);
    RewriteKeepsAll(lower, c.sort, log.records, c.name, c.ip, c.now, NamesOf(lower, all));
    assert log'.marks == log.marks[want := Mark(c.ip, c.now)];
    assert log'.records == Rewritten(lower, c.sort, log.records, want, c.ip, c.now);
    forall n | n in log'.marks ensures Filed(lower, all, log', n, c.now) && Memoed(lower, all, log', n) {
      LastCalls(lower, calls, c, n);
      if n != want {
        assert Filed(lower, calls, log, n, prev) && Memoed(lower, calls, log, n);
      }
    }
    forall o | o in log'.records
      ensures o.name in NamesOf(lower, all) && LastWritten(lower, all, o.name).Some?
      ensures o == RecordOf(o.name, LastWritten(lower, all, o.name).value)
    {
      LastCalls(lower, calls, c, o.name);
    }
  }

  lemma {:induction false} RunIsFaithful(lower: char -> char, calls: seq<Call>, now: int)
    requires IsLowerMap(lower) && Orderly(calls, now) && |NamesOf(lower, calls)| <= OBSERVED_MAX
    ensures Faithful(lower, calls, Run(lower, calls), now)
    ensures forall n :: n in Run(lower, calls).marks ==> Run(lower, calls).marks[n].at <= now
  {
    if calls != [] {
      var front, c := calls[..|calls| - 1], calls[|calls| - 1];
      assert calls == front + [c];
      SubsetSize(NamesOf(lower, front), NamesOf(lower, calls));
      RunIsFaithful(lower, front, c.now);
      var log := Run(lower, calls);
      if Suppressed(Run(lower, front).marks, Normalize(lower, c.name), c.ip, c.now) {
        SuppressedStep(lower, front, c.now, c);
      } else if c.writeOk {
        WrittenStep(lower, front, c.now, c);
      } else {
        FailedStep(lower, front, c.now, c);
      }
      FaithfulLater(lower, calls, log, c.now, now);
    }
  }

  lemma FaithfulLater(lower: char -> char, calls: seq<Call>, log: Log, at: int, now: int)
    requires Faithful(lower, calls, log, at) && at <= now
    ensures Faithful(lower, calls, log, now)
  {
    hide LastCall, LastNoted, LastWritten, NamesOf, WellFormed;
    forall n | n in log.marks ensures Filed(lower, calls, log, n, now) {
      assert Filed(lower, calls, log, n, at);
    }
  }

  lemma SubsetSize(a: set<string>, b: set<string>)
    requires a <= b
    ensures |a| <= |b|
  {
    assert b == a + (b - a);
  }

  lemma {:induction false} FindUnique(lower: char -> char, rs: seq<Observation>, want: string, now: int)
    requires OnePerName(rs) && forall i :: 0 <= i < |rs| ==> Map(lower, rs[i].name) == rs[i].name
    ensures forall o :: Find(lower, rs, want, now) == Some(o) <==> o in rs && o.name == want && !ExpiredAt(o, now)
  {
    if rs != [] {
      FindUnique(lower, rs[1..], want, now);
      assert rs == [rs[0]] + rs[1..];
      forall o | o in rs[1..] ensures o.name != rs[0].name {
        var i :| 0 <= i < |rs[1..]| && rs[1..][i] == o;
        assert rs[i + 1] == o;
      }
    }
  }

  /**
    Suppression cannot be seen at `now` for this name: a lookup that finds it
    finds the address of the last call for it, dated less than a minute (plus
    second rounding) before that call, and finds it whenever the call is that
    much younger than the TTL.
  */
  predicate InvisibleFor(lower: char -> char, calls: seq<Call>, now: int, name: string)
  {
    var r := Find(lower, Run(lower, calls).records, name, now);
    var last := LastCall(lower, calls, name);
    && (r.Some? ==>
          && last.Some? && r.value.ip == last.value.ip
          && 0 <= last.value.now - r.value.observedAt * SECOND < OBS_SUPPRESS + SECOND)
    && (last.Some? && now - last.value.now <= OBSERVED_TTL - OBS_SUPPRESS - SECOND ==> r.Some?)
  }

  /** The write behind the name's memo went through. */
  predicate MemoWritten(lower: char -> char, calls: seq<Call>, name: string)
  {
    var noted := LastNoted(lower, calls, name);
    noted.Some? ==> noted.value.writeOk
  }

  /**
    The last write for the name, if it was called for at all, has the last
    call's address and is about a minute older at most.
  */
  predicate OnFile(lower: char -> char, calls: seq<Call>, name: string)
  {
    var last, w := LastCall(lower, calls, name), LastWritten(lower, calls, name);
    last.Some? ==>
      w.Some? && w.value.ip == last.value.ip && last.value.now - Unix(w.value.now) * SECOND < OBS_SUPPRESS + SECOND
  }

  /** The last call for the name is long enough ago that a record of it may have expired, and no record is left. */
  predicate Forgotten(lower: char -> char, calls: seq<Call>, name: string, now: int)
  {
    var last, w := LastCall(lower, calls, name), LastWritten(lower, calls, name);
    && last.Some? && now - last.value.now > OBSERVED_TTL - OBS_SUPPRESS - SECOND
    && (w.Some? ==> ExpiredAt(RecordOf(name, w.value), now))
  }

  /** A lookup finds the record of the name's last write, until that expires. */
  lemma FindsLastWritten(lower: char -> char, calls: seq<Call>, name: string, now: int)
    requires IsLowerMap(lower) && Orderly(calls, now) && |NamesOf(lower, calls)| <= OBSERVED_MAX
    ensures var r, w := Find(lower, Run(lower, calls).records, name, now), LastWritten(lower, calls, name);
            r == if w.Some? && !ExpiredAt(RecordOf(name, w.value), now) then Some(RecordOf(name, w.value)) else None
  {
    hide Run, LastCall, LastNoted, LastWritten, NamesOf, Find, IsLowerMap;
    var log := Run(lower, calls);
    RunIsFaithful(lower, calls, now);
    FindUnique(lower, log.records, name, now);
    NotNamedNotWritten(lower, calls, name);
    if name in log.marks {
      assert Filed(lower, calls, log, name, now);
    }
    var r := Find(lower, log.records, name, now);
    if r.Some? {
      assert r == Some(r.value);
    }
  }

  lemma {:induction false} WrittenBeforeLast(lower: char -> char, calls: seq<Call>, name: string, now: int)
    requires Orderly(calls, now)
    ensures var last, w := LastCall(lower, calls, name), LastWritten(lower, calls, name);
            && (w.Some? ==> last.Some? && w.value.now <= last.value.now)
            && (last.Some? ==> last.value.now <= now)
  {
    hide Run, Normalize, Suppressed;
    if calls != [] {
      WrittenBeforeLast(lower, calls[..|calls| - 1], name, now);
      LastCallIn(lower, calls[..|calls| - 1], name, calls[|calls| - 1].now);
    }
  }

  lemma {:induction false} LastCallIn(lower: char -> char, calls: seq<Call>, name: string, now: int)
    requires forall i :: 0 <= i < |calls| ==> calls[i].now <= now
    ensures LastCall(lower, calls, name).Some? ==> LastCall(lower, calls, name).value.now <= now
    ensures LastWritten(lower, calls, name).Some? ==> LastWritten(lower, calls, name).value.now <= now
  {
    hide Run, Normalize, Suppressed;
    if calls != [] {
      LastCallIn(lower, calls[..|calls| - 1], name, now);
    }
  }

  /**
    With a nondecreasing clock, at most 512 names and any writes failing,
    suppression cannot be seen for a name if and only if its last write is on
    file, or it is forgotten altogether.
  */
  lemma SuppressionIsExact(lower: char -> char, calls: seq<Call>, name: string, now: int)
    requires IsLowerMap(lower) && Orderly(calls, now) && |NamesOf(lower, calls)| <= OBSERVED_MAX
    ensures InvisibleFor(lower, calls, now, name) <==>
              OnFile(lower, calls, name) || Forgotten(lower, calls, name, now)
  {
    hide Run, LastCall, LastNoted, LastWritten, NamesOf, Find, IsLowerMap, Orderly;
    FindsLastWritten(lower, calls, name, now);
    WrittenBeforeLast(lower, calls, name, now);
  }

  /**
    In particular it cannot be seen while the write behind the name's memo went
    through, whatever other writes fail.
  */
  lemma SuppressionIsInvisible(lower: char -> char, calls: seq<Call>, name: string, now: int)
    requires IsLowerMap(lower) && Orderly(calls, now) && |NamesOf(lower, calls)| <= OBSERVED_MAX
    requires MemoWritten(lower, calls, name)
    ensures InvisibleFor(lower, calls, now, name)
  {
    hide Run, LastCall, LastNoted, LastWritten, NamesOf, Find, IsLowerMap, Orderly;
    SuppressionIsExact(lower, calls, name, now);
    RunIsFaithful(lower, calls, now);
    MemoIsLastWrite(lower, calls, name);
    LastCallNamed(lower, calls, name);
    if name in Run(lower, calls).marks {
      assert Memoed(lower, calls, Run(lower, calls), name);
    }
  }

  lemma {:induction false} MemoIsLastWrite(lower: char -> char, calls: seq<Call>, name: string)
    requires MemoWritten(lower, calls, name)
    ensures LastWritten(lower, calls, name) == LastNoted(lower, calls, name)
  {
    hide Run, Normalize, Suppressed;
    if calls != [] {
      var front, c := calls[..|calls| - 1], calls[|calls| - 1];
      if LastNoted(lower, calls, name) == LastNoted(lower, front, name) {
        MemoIsLastWrite(lower, front, name);
      }
    }
  }

  lemma {:induction false} LastCallNamed(lower: char -> char, calls: seq<Call>, name: string)
    ensures LastCall(lower, calls, name).Some? <==> name in NamesOf(lower, calls)
  {
    if calls != [] {
      LastCallNamed(lower, calls[..|calls| - 1], name);
    }
  }

  // ---- and where it can be seen ----

  lemma {:induction false} KeptAll(lower: char -> char, rs: seq<Observation>, want: string, now: int)
    requires forall o :: o in rs ==> Map(lower, o.name) != want && !ExpiredAt(o, now)
    ensures Kept(lower, rs, want, now) == rs
  {
    if rs != [] {
      var front, o := rs[..|rs| - 1], rs[|rs| - 1];
      assert rs == front + [o];
      KeptAll(lower, front, want, now);
    }
  }

  lemma {:induction false} FindNothing(lower: char -> char, rs: seq<Observation>, want: string, now: int)
    requires forall o :: o in rs ==> Map(lower, o.name) != want
    ensures Find(lower, rs, want, now) == None
  {
    if rs != [] {
      FindNothing(lower, rs[1..], want, now);
    }
  }

  lemma OnlyOldest(rs: seq<Observation>, newer: Observation, o: Observation)
    requires rs != [] && o in rs + [newer] && o.observedAt <= rs[|rs| - 1].observedAt < newer.observedAt
    requires forall i :: 0 <= i < |rs| - 1 ==> rs[|rs| - 1].observedAt < rs[i].observedAt
    ensures o == rs[|rs| - 1]
  {
    var i :| 0 <= i < |rs| + 1 && (rs + [newer])[i] == o;
  }

  /** A full log of unexpired records whose last is the single oldest. */
  ghost predicate FullWithOldest(lower: char -> char, rs: seq<Observation>, now: int)
  {
    && WellFormed(lower, rs) && |rs| == OBSERVED_MAX
    && (forall o :: o in rs ==> !ExpiredAt(o, now))
    && (forall i :: 0 <= i < OBSERVED_MAX - 1 ==> rs[OBSERVED_MAX - 1].observedAt < rs[i].observedAt)
  }

  lemma OldestSortsLast(rs: seq<Observation>, newer: Observation, s: seq<Observation>)
    requires |rs| == OBSERVED_MAX && rs[OBSERVED_MAX - 1].observedAt < newer.observedAt
    requires forall i :: 0 <= i < OBSERVED_MAX - 1 ==> rs[OBSERVED_MAX - 1].observedAt < rs[i].observedAt
    requires multiset(s) == multiset(rs + [newer]) && NewestFirst(s)
    ensures |s| == OBSERVED_MAX + 1 && s[OBSERVED_MAX] == rs[OBSERVED_MAX - 1]
  {
    var c, oldest := rs + [newer], rs[OBSERVED_MAX - 1];
    assert |s| == |multiset(s)| == |multiset(c)| == |c|;
    assert c[OBSERVED_MAX - 1] == oldest;
    assert oldest in multiset(c);
    var k :| 0 <= k < |s| && s[k] == oldest;
    assert s[OBSERVED_MAX] in multiset(s);
    assert s[OBSERVED_MAX] in c;
    OnlyOldest(rs, newer, s[OBSERVED_MAX]);
  }

  lemma NewNamePushesOutOldest(lower: char -> char, sort: Sorter, rs: seq<Observation>, name: string, ip: string,
                               now: int)
    requires IsLowerMap(lower) && Sorts(sort) && FullWithOldest(lower, rs, now)
    requires rs[OBSERVED_MAX - 1].observedAt < Unix(now)
    requires forall o :: o in rs ==> o.name != Normalize(lower, name)
    ensures forall o :: o in Rewritten(lower, sort, rs, Normalize(lower, name), ip, now) ==>
              Map(lower, o.name) != rs[OBSERVED_MAX - 1].name
  {
    var want := Normalize(lower, name);
    forall o | o in rs ensures Map(lower, o.name) == o.name {
      var i :| 0 <= i < |rs| && rs[i] == o;
    }
    KeptAll(lower, rs, want, now);
    CandidatesWellFormed(lower, rs, name, ip, now);
    var c := Candidates(lower, rs, want, ip, now);
    var s := sort(c);
    assert multiset(s) == multiset(c) && NewestFirst(s);
    OldestSortsLast(rs, Observation(want, ip, Unix(now)), s);
    OnePerNamePermutes(c, s);
    forall o | o in s[..OBSERVED_MAX] ensures Map(lower, o.name) != s[OBSERVED_MAX].name {
      var i :| 0 <= i < OBSERVED_MAX && s[i] == o;
      assert s[i] in multiset(s);
    }
  }

  /**
    The 512-name condition is needed.  In a full log one newer name pushes out
    the single oldest record; observing that old binding again inside its minute
    is suppressed, and the name cannot be looked up although it was just seen.
  */
  lemma FullLogShowsSuppression(lower: char -> char, sort: Sorter, log: Log, name: string, ip: string, now: int,
                                prior: string, again: int)
    requires IsLowerMap(lower) && Sorts(sort) && FullWithOldest(lower, log.records, now)
    requires forall o :: o in log.records ==> o.name != Normalize(lower, name)
    requires !Suppressed(log.marks, Normalize(lower, name), ip, now)
    requires var oldest := log.records[OBSERVED_MAX - 1];
             && oldest.observedAt < Unix(now)
             && Normalize(lower, prior) == oldest.name
             && Suppressed(log.marks, oldest.name, oldest.ip, again)
    ensures var oldest := log.records[OBSERVED_MAX - 1];
            var log1 := Observe(lower, sort, log, name, ip, now, true);
            var log2 := Observe(lower, sort, log1, prior, oldest.ip, again, true);
            Find(lower, log2.records, oldest.name, again) == None
  {
    var oldest := log.records[OBSERVED_MAX - 1];
    NewNamePushesOutOldest(lower, sort, log.records, name, ip, now);
    var log1 := Observe(lower, sort, log, name, ip, now, true);
    assert oldest in log.records;
    FindNothing(lower, log1.records, oldest.name, again);
  }

  /** From the empty log: a call whose write fails, and a repeat a second later whose write would not. */
  function FailedThenRepeated(name: string, ip: string, sort: Sorter): seq<Call>
  {
    [Call(name, ip, 0, sort, false), Call(name, ip, SECOND, sort, true)]
  }

  /** A failed write can be seen: the repeat is suppressed, and the name cannot be looked up though just seen. */
  lemma FailedWriteShowsSuppression(lower: char -> char, name: string, ip: string, sort: Sorter)
    requires Sorts(sort)
    ensures var calls, want := FailedThenRepeated(name, ip, sort), Normalize(lower, name);
            && Orderly(calls, SECOND) && NamesOf(lower, calls) == {want}
            && Find(lower, Run(lower, calls).records, want, SECOND) == None
            && !InvisibleFor(lower, calls, SECOND, want)
  {
    hide Normalize;
    var calls, want := FailedThenRepeated(name, ip, sort), Normalize(lower, name);
    assert calls[..1] == [calls[0]] && calls[..1][..0] == [];
    assert Run(lower, calls[..1]) == Log([], map[want := Mark(ip, 0)]);
    assert Run(lower, calls) == Log([], map[want := Mark(ip, 0)]);
    assert NamesOf(lower, calls[..1]) == {want};
    assert LastCall(lower, calls, want) == Some(calls[1]);
  }
}
