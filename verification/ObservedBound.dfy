/**
  The 512-name bound of the observed log is sharp: a run from the empty log in
  which suppression shows, and the bound as an equivalence.
*/
module ObservedBound {
  import opened Results
  import opened Text
  import opened Names
  import opened ObservedStore

  ghost predicate Invisible(lower: char -> char, calls: seq<Call>, now: int)
  {
    forall name :: InvisibleFor(lower, calls, now, name)
  }

  /** Every write goes through. */
  predicate AllWritten(calls: seq<Call>)
  {
    forall i :: 0 <= i < |calls| ==> calls[i].writeOk
  }

  /** Then every memo's write did. */
  lemma {:induction false} WrittenMemos(lower: char -> char, calls: seq<Call>, name: string)
    requires AllWritten(calls)
    ensures MemoWritten(lower, calls, name)
  {
    hide Run, Normalize, Suppressed;
    if calls != [] {
      WrittenMemos(lower, calls[..|calls| - 1], name);
    }
  }

  /** The record a memo stands for. */
  function Memo(log: Log, name: string): Observation
    requires name in log.marks
  {
    Observation(name, log.marks[name].ip, Unix(log.marks[name].at))
  }

  /** And the file holds exactly the records of the memos that have not expired. */
  lemma WrittenRun(lower: char -> char, calls: seq<Call>, now: int)
    requires IsLowerMap(lower) && Orderly(calls, now) && |NamesOf(lower, calls)| <= OBSERVED_MAX && AllWritten(calls)
    ensures var log := Run(lower, calls);
            && WellFormed(lower, log.records) && log.marks.Keys == NamesOf(lower, calls)
            && (forall o :: o in log.records ==> o.name in log.marks && o == Memo(log, o.name))
            && (forall n :: n in log.marks ==> Memo(log, n) in log.records || ExpiredAt(Memo(log, n), now))
  {
    hide Run, LastCall, LastNoted, LastWritten, NamesOf, IsLowerMap, Orderly, WellFormed;
    var log := Run(lower, calls);
    RunIsFaithful(lower, calls, now);
    forall n | n in log.marks
      ensures LastWritten(lower, calls, n).Some? && Memo(log, n) == RecordOf(n, LastWritten(lower, calls, n).value)
      ensures Memo(log, n) in log.records || ExpiredAt(Memo(log, n), now)
    {
      WrittenMemos(lower, calls, n);
      MemoIsLastWrite(lower, calls, n);
      assert Memoed(lower, calls, log, n) && Filed(lower, calls, log, n, now);
    }
  }

  // ---- a burst of names within a second ----

  const IP: string := "x"

  /** The i-th name: i + 1 letters. */
  function NameAt(i: nat): string
  {
    seq(i + 1, _ => 'a')
  }

  function TimeAt(i: nat): int
  {
    if i == 0 then 0 else SECOND
  }

  /** One call each for the first k + 1 names, the first a second before the others. */
  function Burst(sort: Sorter, k: nat): seq<Call>
  {
    var c := Call(NameAt(k), IP, TimeAt(k), sort, true);
    if k == 0 then [c] else Burst(sort, k - 1) + [c]
  }

  lemma NamesAreNormal(lower: char -> char, i: nat)
    requires IsLowerMap(lower)
    ensures Normalize(lower, NameAt(i)) == NameAt(i)
  {
    assert lower('a') == 'a';
  }

  lemma NamesDiffer(i: nat, j: nat)
    ensures NameAt(i) == NameAt(j) <==> i == j
  {
    assert |NameAt(i)| == i + 1 && |NameAt(j)| == j + 1;
  }

  lemma {:induction false} BurstIsOrderly(sort: Sorter, k: nat, until: int)
    requires Sorts(sort) && until >= SECOND
    ensures Orderly(Burst(sort, k), until) && AllWritten(Burst(sort, k)) && |Burst(sort, k)| == k + 1
    ensures forall i :: 0 <= i <= k ==> Burst(sort, k)[i] == Call(NameAt(i), IP, TimeAt(i), sort, true)
  {
    if k > 0 {
      BurstIsOrderly(sort, k - 1, until);
    }
  }

  function BurstNames(k: nat): set<string>
  {
    if k == 0 then {NameAt(0)} else BurstNames(k - 1) + {NameAt(k)}
  }

  /** The run, its names and its last calls, one call further. */
  lemma OneMore(lower: char -> char, calls: seq<Call>, c: Call)
    ensures Run(lower, calls + [c]) == Observe(lower, c.sort, Run(lower, calls), c.name, c.ip, c.now, c.writeOk)
    ensures NamesOf(lower, calls + [c]) == NamesOf(lower, calls) + {Normalize(lower, c.name)}
    ensures LastCall(lower, calls + [c], Normalize(lower, c.name)) == Some(c)
  {
    hide Observe, Normalize;
    assert (calls + [c])[..|calls|] == calls;
  }

  lemma NoCalls(lower: char -> char)
    ensures Run(lower, []) == Log([], map[]) && NamesOf(lower, []) == {}
  {
  }

  lemma {:induction false} BurstNamesHold(k: nat, i: nat)
    ensures NameAt(i) in BurstNames(k) <==> i <= k
  {
    hide NameAt;
    NamesDiffer(i, k);
    if k > 0 {
      BurstNamesHold(k - 1, i);
    }
  }

  lemma {:induction false} BurstNamesCount(k: nat)
    ensures |BurstNames(k)| == k + 1
  {
    hide NameAt;
    if k > 0 {
      BurstNamesCount(k - 1);
      BurstNamesHold(k - 1, k);
    }
  }

  lemma {:induction false} BurstNamesAre(lower: char -> char, sort: Sorter, k: nat)
    requires IsLowerMap(lower)
    ensures NamesOf(lower, Burst(sort, k)) == BurstNames(k)
  {
    hide NameAt, IsLowerMap, Normalize, Run, LastCall, Observe, NamesOf;
    NamesAreNormal(lower, k);
    var c := Call(NameAt(k), IP, TimeAt(k), sort, true);
    if k == 0 {
      assert [] + [c] == [c];
      NoCalls(lower);
      OneMore(lower, [], c);
    } else {
      BurstNamesAre(lower, sort, k - 1);
      OneMore(lower, Burst(sort, k - 1), c);
      assert NamesOf(lower, Burst(sort, k)) == BurstNames(k - 1) + {NameAt(k)};
    }
  }

  /** A call for a name without a memo leaves one. */
  lemma NewMark(lower: char -> char, log: Log, c: Call)
    requires Normalize(lower, c.name) !in log.marks
    ensures Observe(lower, c.sort, log, c.name, c.ip, c.now, true).marks ==
            log.marks[Normalize(lower, c.name) := Mark(c.ip, c.now)]
  {
  }

  /** The memo of the i-th name after a burst. */
  predicate Noted(log: Log, i: nat)
  {
    NameAt(i) in log.marks && log.marks[NameAt(i)] == Mark(IP, TimeAt(i))
  }

  lemma {:induction false} BurstMarks(lower: char -> char, sort: Sorter, k: nat)
    requires IsLowerMap(lower)
    ensures Run(lower, Burst(sort, k)).marks.Keys == BurstNames(k)
    ensures forall i :: 0 <= i <= k ==> Noted(Run(lower, Burst(sort, k)), i)
  {
    hide NameAt, IsLowerMap, Normalize, Observe, Run;
    NamesAreNormal(lower, k);
    var c := Call(NameAt(k), IP, TimeAt(k), sort, true);
    if k == 0 {
      assert [] + [c] == [c];
      NoCalls(lower);
      OneMore(lower, [], c);
      NewMark(lower, Run(lower, []), c);
    } else {
      var log := Run(lower, Burst(sort, k - 1));
      BurstMarks(lower, sort, k - 1);
      OneMore(lower, Burst(sort, k - 1), c);
      BurstNamesHold(k - 1, k);
      NewMark(lower, log, c);
      forall i | 0 <= i < k ensures Noted(Run(lower, Burst(sort, k)), i) {
        NamesDiffer(i, k);
        assert Noted(log, i);
      }
    }
  }

  lemma {:induction false} NamesFit(rs: seq<Observation>, names: set<string>)
    requires forall n :: n in names ==> exists i :: 0 <= i < |rs| && rs[i].name == n
    ensures |names| <= |rs|
  {
    if rs == [] {
      assert names == {};
    } else {
      var front, o := rs[..|rs| - 1], rs[|rs| - 1];
      var rest := names - {o.name};
      forall n | n in rest ensures exists i :: 0 <= i < |front| && front[i].name == n {
        var i :| 0 <= i < |rs| && rs[i].name == n;
        assert front[i] == rs[i];
      }
      NamesFit(front, rest);
      assert names <= rest + {o.name};
      SubsetSize(names, rest + {o.name});
    }
  }

  /** 512 names fill the log, with the first name's record alone at its end. */
  lemma BurstFills(lower: char -> char, sort: Sorter)
    requires IsLowerMap(lower) && Sorts(sort)
    ensures var rs := Run(lower, Burst(sort, OBSERVED_MAX - 1)).records;
            FullWithOldest(lower, rs, SECOND) && rs[OBSERVED_MAX - 1] == Observation(NameAt(0), IP, 0)
  {
    hide Run, NameAt, Burst, BurstNames, WellFormed, IsLowerMap, Noted, LastCall, Sorts, AllWritten;
    var k := OBSERVED_MAX - 1;
    var calls := Burst(sort, k);
    var log := Run(lower, calls);
    BurstIsOrderly(sort, k, SECOND);
    BurstNamesAre(lower, sort, k);
    BurstNamesCount(k);
    BurstMarks(lower, sort, k);
    WrittenRun(lower, calls, SECOND);
    forall n | n in BurstNames(k) ensures Memo(log, n) in log.records {
      BurstIsRecent(log, k, n);
    }
    AllRecorded(log, BurstNames(k));
    WellFormedSize(lower, log.records);
    BurstNamesHold(k, 0);
    RecordsOfBurst(lower, log, k);
  }

  /** No memo of the burst has expired. */
  lemma BurstIsRecent(log: Log, k: nat, n: string)
    requires n in BurstNames(k) && n in log.marks && forall i :: 0 <= i <= k ==> Noted(log, i)
    ensures !ExpiredAt(Memo(log, n), SECOND)
  {
    hide NameAt, BurstNames;
    BurstMember(k, n);
    var i: nat :| i <= k && n == NameAt(i);
    assert Noted(log, i);
  }

  lemma AllRecorded(log: Log, names: set<string>)
    requires forall n :: n in names ==> n in log.marks && Memo(log, n) in log.records
    ensures |names| <= |log.records|
  {
    forall n | n in names ensures exists i :: 0 <= i < |log.records| && log.records[i].name == n {
      var i :| 0 <= i < |log.records| && log.records[i] == Memo(log, n);
    }
    NamesFit(log.records, names);
  }

  lemma WellFormedSize(lower: char -> char, rs: seq<Observation>)
    requires WellFormed(lower, rs)
    ensures |rs| <= OBSERVED_MAX && NewestFirst(rs) && OnePerName(rs)
  {
  }

  lemma {:induction false} BurstMember(k: nat, n: string)
    requires n in BurstNames(k)
    ensures exists i: nat :: i <= k && n == NameAt(i)
  {
    if k > 0 && n != NameAt(k) {
      BurstMember(k - 1, n);
    }
  }

  /** Every record is the first name's, dated 0, or another's, dated 1. */
  lemma RecordOfBurst(log: Log, k: nat, o: Observation)
    requires log.marks.Keys == BurstNames(k) && forall i :: 0 <= i <= k ==> Noted(log, i)
    requires o.name in log.marks && o == Memo(log, o.name)
    ensures o == Observation(NameAt(0), IP, 0) || (o.observedAt == 1 && o.name != NameAt(0))
  {
    hide NameAt, BurstNames;
    BurstMember(k, o.name);
    var i: nat :| i <= k && o.name == NameAt(i);
    assert Noted(log, i);
    NamesDiffer(i, 0);
  }

  lemma RecordsOfBurst(lower: char -> char, log: Log, k: nat)
    requires k == OBSERVED_MAX - 1 && |log.records| == OBSERVED_MAX && WellFormed(lower, log.records)
    requires log.marks.Keys == BurstNames(k) && forall i :: 0 <= i <= k ==> Noted(log, i)
    requires forall o :: o in log.records ==> o.name in log.marks && o == Memo(log, o.name)
    requires NameAt(0) in log.marks && Memo(log, NameAt(0)) in log.records
    ensures FullWithOldest(lower, log.records, SECOND) && log.records[k] == Observation(NameAt(0), IP, 0)
  {
    hide NameAt, BurstNames;
    var rs, first := log.records, Observation(NameAt(0), IP, 0);
    assert Noted(log, 0);
    forall o | o in rs ensures o == first || (o.observedAt == 1 && o.name != NameAt(0)) {
      RecordOfBurst(log, k, o);
    }
    var j :| 0 <= j < |rs| && rs[j] == first;
    assert rs[k] in rs;
    assert rs[j].observedAt >= rs[k].observedAt;
    assert j == k;
    forall i | 0 <= i < k ensures rs[k].observedAt < rs[i].observedAt {
      assert rs[i] in rs && rs[i].name != rs[k].name;
    }
  }

  // ---- the bound ----

  /** 513 names within a second, then the first again. */
  function BurstThenFirst(sort: Sorter): seq<Call>
  {
    Burst(sort, OBSERVED_MAX) + [Call(NameAt(0), IP, 2 * SECOND, sort, true)]
  }

  lemma BurstIsARun(lower: char -> char, sort: Sorter)
    requires IsLowerMap(lower) && Sorts(sort)
    ensures Orderly(BurstThenFirst(sort), 2 * SECOND) && AllWritten(BurstThenFirst(sort))
    ensures |NamesOf(lower, BurstThenFirst(sort))| == OBSERVED_MAX + 1
  {
    hide NameAt, Burst, BurstNames, IsLowerMap, Normalize, Sorts;
    var n := OBSERVED_MAX;
    BurstIsOrderly(sort, n, 2 * SECOND);
    BurstNamesAre(lower, sort, n);
    BurstNamesCount(n);
    BurstNamesHold(n, 0);
    NamesAreNormal(lower, 0);
    OneMore(lower, Burst(sort, n), Call(NameAt(0), IP, 2 * SECOND, sort, true));
    assert BurstNames(n) + {NameAt(0)} == BurstNames(n);
  }

  /** The 513th name pushes out the first, whose repeat is then suppressed. */
  lemma FirstIsPushedOut(lower: char -> char, sort: Sorter)
    requires IsLowerMap(lower) && Sorts(sort)
    ensures var log := Run(lower, Burst(sort, OBSERVED_MAX - 1));
            var log1 := Observe(lower, sort, log, NameAt(OBSERVED_MAX), IP, SECOND, true);
            var log2 := Observe(lower, sort, log1, NameAt(0), IP, 2 * SECOND, true);
            Find(lower, log2.records, NameAt(0), 2 * SECOND) == None
  {
    hide NameAt, Burst, BurstNames, WellFormed, Observe, Find, FullWithOldest, Run, IsLowerMap, Normalize, Sorts;
    var k, n := OBSERVED_MAX - 1, OBSERVED_MAX;
    var log := Run(lower, Burst(sort, k));
    BurstFills(lower, sort);
    BurstMarks(lower, sort, k);
    BurstNamesHold(k, n);
    NamesAreNormal(lower, 0);
    NamesAreNormal(lower, n);
    assert Noted(log, 0);
    NotAmongRecords(lower, sort, k, n);
    FullLogShowsSuppression(lower, sort, log, NameAt(n), IP, SECOND, NameAt(0), 2 * SECOND);
  }

  lemma BurstRuns(lower: char -> char, sort: Sorter)
    requires IsLowerMap(lower)
    ensures var log := Run(lower, Burst(sort, OBSERVED_MAX - 1));
            var log1 := Observe(lower, sort, log, NameAt(OBSERVED_MAX), IP, SECOND, true);
            var calls := BurstThenFirst(sort);
            && Run(lower, calls) == Observe(lower, sort, log1, NameAt(0), IP, 2 * SECOND, true)
            && LastCall(lower, calls, NameAt(0)) == Some(Call(NameAt(0), IP, 2 * SECOND, sort, true))
  {
    hide NameAt, Observe, Run, IsLowerMap, Normalize, LastCall, NamesOf;
    var k, n := OBSERVED_MAX - 1, OBSERVED_MAX;
    NamesAreNormal(lower, 0);
    OneMore(lower, Burst(sort, k), Call(NameAt(n), IP, TimeAt(n), sort, true));
    OneMore(lower, Burst(sort, n), Call(NameAt(0), IP, 2 * SECOND, sort, true));
  }

  /** The first name was just seen again and cannot be looked up. */
  lemma BurstShowsSuppression(lower: char -> char, sort: Sorter)
    requires IsLowerMap(lower) && Sorts(sort)
    ensures Find(lower, Run(lower, BurstThenFirst(sort)).records, NameAt(0), 2 * SECOND) == None
    ensures !Invisible(lower, BurstThenFirst(sort), 2 * SECOND)
  {
    hide NameAt, BurstThenFirst, Observe, Find, Run, IsLowerMap, Sorts, LastCall;
    FirstIsPushedOut(lower, sort);
    BurstRuns(lower, sort);
    assert !InvisibleFor(lower, BurstThenFirst(sort), 2 * SECOND, NameAt(0));
  }

  lemma NotAmongRecords(lower: char -> char, sort: Sorter, k: nat, n: nat)
    requires IsLowerMap(lower) && Sorts(sort) && k < OBSERVED_MAX && n > k
    ensures forall o :: o in Run(lower, Burst(sort, k)).records ==> o.name != NameAt(n)
  {
    hide NameAt, Burst, BurstNames, WellFormed, Run, IsLowerMap, Sorts, LastCall;
    BurstIsOrderly(sort, k, SECOND);
    BurstNamesAre(lower, sort, k);
    BurstNamesCount(k);
    BurstNamesHold(k, n);
    WrittenRun(lower, Burst(sort, k), SECOND);
  }

  /**
    Suppression is invisible in every orderly run of at most n names whose
    writes go through if and only if n is at most 512.
  */
  lemma BoundIsSharp(lower: char -> char, sort: Sorter, n: nat)
    requires IsLowerMap(lower) && Sorts(sort)
    ensures (forall calls, now :: Orderly(calls, now) && AllWritten(calls) && |NamesOf(lower, calls)| <= n ==>
               Invisible(lower, calls, now))
            <==> n <= OBSERVED_MAX
  {
    if n <= OBSERVED_MAX {
      forall calls, now | Orderly(calls, now) && AllWritten(calls) && |NamesOf(lower, calls)| <= n
        ensures Invisible(lower, calls, now)
      {
        forall name ensures InvisibleFor(lower, calls, now, name) {
          WrittenMemos(lower, calls, name);
          SuppressionIsInvisible(lower, calls, name, now);
        }
      }
    } else {
      BurstIsARun(lower, sort);
      BurstShowsSuppression(lower, sort);
    }
  }
}
