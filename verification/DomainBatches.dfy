/**
  splitDomainsIntoBatches of the macOS host-DNS adapter: greedy batching of a
  domain list under a per-key entry limit and a per-key byte limit, and its
  optimality among all order-preserving splits.
*/
module DomainBatches {
  import opened Results
  import C = ConfigFile

  const MAX_DOMAINS: nat := 50

  const MAX_BYTES: nat := 1500

  type Batch = seq<string>

  /** Bytes of the batch joined by single spaces: what is written under one key. */
  function JoinedBytes(b: Batch): nat
  {
    if b == [] then 0
    else if |b| == 1 then |b[0]|
    else JoinedBytes(b[..|b| - 1]) + 1 + |b[|b| - 1]|
  }

  /** The running count of the loop: no separator is counted while the count is 0. */
  function CountedBytes(b: Batch): nat
  {
    if b == [] then 0
    else
      var c := CountedBytes(b[..|b| - 1]);
      if c == 0 then |b[|b| - 1]| else c + 1 + |b[|b| - 1]|
  }

  /** The limits as they are meant: an oversized single entry is let through. */
  predicate Fits(b: Batch)
  {
    |b| == 1 || (0 < |b| <= MAX_DOMAINS && JoinedBytes(b) <= MAX_BYTES)
  }

  /** The limits as the loop counts them. */
  predicate CountedFits(b: Batch)
  {
    |b| == 1 || (0 < |b| <= MAX_DOMAINS && CountedBytes(b) <= MAX_BYTES)
  }

  predicate NonEmptyDomains(ds: seq<string>)
  {
    forall i :: 0 <= i < |ds| ==> ds[i] != ""
  }

  // ---- the greedy split ----

  /** Extend a first batch of n entries for as long as the next one still fits. */
  function Extend(ds: seq<string>, n: nat): (m: nat)
    requires 1 <= n <= |ds|
    ensures n <= m <= |ds|
    decreases |ds| - n
  {
    if n < |ds| && CountedFits(ds[..n + 1]) then Extend(ds, n + 1) else n
  }

  function Greedy(ds: seq<string>): seq<Batch>
  {
    if ds == [] then []
    else
      var n := Extend(ds, 1);
      [ds[..n]] + Greedy(ds[n..])
  }

  function Flatten(bs: seq<Batch>): seq<string>
  {
    if bs == [] then [] else bs[0] + Flatten(bs[1..])
  }

  /** An order-preserving split of ds all of whose batches meet the limits as counted. */
  ghost predicate IsSplit(bs: seq<Batch>, ds: seq<string>)
  {
    Flatten(bs) == ds && forall i :: 0 <= i < |bs| ==> CountedFits(bs[i])
  }

  // ---- counting is monotone over slices ----

  lemma {:induction false} CountedPrefix(b: Batch, n: nat)
    requires n <= |b|
    ensures CountedBytes(b[..n]) <= CountedBytes(b)
    decreases |b|
  {
    if n < |b| {
      var front := b[..|b| - 1];
      CountedPrefix(front, n);
      assert front[..n] == b[..n];
    } else {
      assert b[..n] == b;
    }
  }

  lemma {:induction false} CountedSuffix(b: Batch, k: nat)
    requires k <= |b|
    ensures CountedBytes(b[k..]) <= CountedBytes(b)
    decreases |b|
  {
    if k < |b| {
      var front := b[..|b| - 1];
      CountedSuffix(front, k);
      assert b[k..][..|b| - k - 1] == front[k..];
    }
  }

  /** Every non-empty slice of a batch within the limits is within the limits. */
  lemma SliceFits(b: Batch, k: nat, n: nat)
    requires CountedFits(b) && k < n <= |b|
    ensures CountedFits(b[k..n])
  {
    CountedPrefix(b, n);
    CountedSuffix(b[..n], k);
    assert b[..n][k..] == b[k..n];
  }

  // ---- what the greedy split keeps ----

  lemma {:induction false} ExtendFits(ds: seq<string>, n: nat)
    requires 1 <= n <= |ds| && CountedFits(ds[..n])
    ensures CountedFits(ds[..Extend(ds, n)])
    decreases |ds| - n
  {
    if n < |ds| && CountedFits(ds[..n + 1]) {
      ExtendFits(ds, n + 1);
    }
  }

  /** Nothing longer than the extension fits. */
  lemma {:induction false} ExtendMaximal(ds: seq<string>, n: nat, m: nat)
    requires 1 <= n <= m <= |ds| && CountedFits(ds[..m])
    ensures m <= Extend(ds, n)
    decreases |ds| - n
  {
    if n < m {
      SliceFits(ds[..m], 0, n + 1);
      assert ds[..m][0..n + 1] == ds[..n + 1];
      ExtendMaximal(ds, n + 1, m);
    }
  }

  /** The batches keep every domain, in order, and each meets the limits as counted. */
  lemma {:induction false} GreedyIsSplit(ds: seq<string>)
    ensures IsSplit(Greedy(ds), ds)
  {
    if ds != [] {
      var n := Extend(ds, 1);
      ExtendFits(ds, 1);
      GreedyIsSplit(ds[n..]);
      assert ds == ds[..n] + ds[n..];
    }
  }

  // ---- optimality ----

  lemma GreedyUnfold(ds: seq<string>)
    requires ds != []
    ensures |Greedy(ds)| == 1 + |Greedy(ds[Extend(ds, 1)..])|
  {
  }

  /** The first batch of a suffix that starts inside the first batch reaches at least as far. */
  lemma ExtendCovers(ds: seq<string>, k: nat)
    requires ds != [] && k < Extend(ds, 1)
    ensures k + Extend(ds[k..], 1) >= Extend(ds, 1)
  {
    assert CountedFits(ds[..1]);
    hide CountedFits, Extend;
    var n := Extend(ds, 1);
    ExtendFits(ds, 1);
    SliceFits(ds[..n], k, n);
    assert ds[..n][k..n] == ds[k..][..n - k];
    ExtendMaximal(ds[k..], 1, n - k);
  }

  /** Dropping entries from the front never costs the greedy split a batch. */
  lemma {:induction false} GreedyOfSuffix(ds: seq<string>, k: nat)
    requires k <= |ds|
    ensures |Greedy(ds[k..])| <= |Greedy(ds)|
    decreases |ds|
  {
    hide Greedy, Extend;
    if k < |ds| {
      var n := Extend(ds, 1);
      var rest := ds[n..];
      GreedyUnfold(ds);
      if k < n {
        var m := Extend(ds[k..], 1);
        ExtendCovers(ds, k);
        GreedyUnfold(ds[k..]);
        assert ds[k..][m..] == rest[k + m - n..];
        GreedyOfSuffix(rest, k + m - n);
      } else {
        assert ds[k..] == rest[k - n..];
        GreedyOfSuffix(rest, k - n);
      }
    } else {
      assert ds[k..] == [];
      GreedyOfNothing();
    }
  }

  lemma GreedyOfNothing()
    ensures Greedy([]) == []
  {
  }

  /** No order-preserving split within the limits has fewer batches. */
  lemma {:induction false} GreedyIsOptimal(ds: seq<string>, alt: seq<Batch>)
    requires IsSplit(alt, ds)
    ensures |Greedy(ds)| <= |alt|
    decreases |alt|
  {
    if ds != [] {
      var first := alt[0];
      assert CountedFits(first) && first != [];
      hide CountedFits, Extend;
      var n, a := Extend(ds, 1), |first|;
      assert ds[..a] == first && ds[a..] == Flatten(alt[1..]);
      ExtendMaximal(ds, 1, a);
      GreedyIsOptimal(ds[a..], alt[1..]);
      assert ds[a..][n - a..] == ds[n..];
      GreedyOfSuffix(ds[a..], n - a);
    }
  }

  // ---- the count against the bytes written ----

  /** How many empty domains a batch starts with. */
  function LeadingEmpties(b: Batch): (n: nat)
    ensures n <= |b|
  {
    if b == [] || b[0] != "" then 0 else 1 + LeadingEmpties(b[1..])
  }

  lemma {:induction false} LeadingEmptiesSnoc(b: Batch, d: string)
    ensures LeadingEmpties(b + [d]) ==
            if LeadingEmpties(b) == |b| && d == "" then |b| + 1 else LeadingEmpties(b)
  {
    if b == [] {
      assert (b + [d])[1..] == [];
    } else {
      assert (b + [d])[1..] == b[1..] + [d];
      LeadingEmptiesSnoc(b[1..], d);
    }
  }

  /** The loop forgets exactly the separators that follow leading empty domains. */
  lemma {:induction false} CountedIsJoined(b: Batch)
    ensures CountedBytes(b) == 0 <==> LeadingEmpties(b) == |b|
    ensures JoinedBytes(b) == CountedBytes(b) +
            (if b != [] && LeadingEmpties(b) == |b| then |b| - 1 else LeadingEmpties(b))
  {
    if b != [] {
      var front, d := b[..|b| - 1], b[|b| - 1];
      assert b == front + [d];
      LeadingEmptiesSnoc(front, d);
      CountedIsJoined(front);
    }
  }

  /** What is counted is the text written: the domains joined by single spaces. */
  lemma {:induction false} JoinedIsWritten(b: Batch)
    ensures JoinedBytes(b) == |C.Join(b, ' ')|
  {
    if |b| > 1 {
      var k := |b| - 1;
      JoinedIsWritten(b[..k]);
      JoinSnoc(b[..k], b[k]);
      assert b == b[..k] + [b[k]];
    }
  }

  lemma {:induction false} JoinSnoc(b: Batch, d: string)
    requires b != []
    ensures C.Join(b + [d], ' ') == C.Join(b, ' ') + [' '] + d
  {
    if |b| == 1 {
      assert (b + [d])[1..] == [d];
    } else {
      assert (b + [d])[1..] == b[1..] + [d];
      JoinSnoc(b[1..], d);
    }
  }

  lemma CountedFitsIsFits(b: Batch)
    requires NonEmptyDomains(b)
    ensures CountedFits(b) <==> Fits(b)
  {
    CountedIsJoined(b);
  }

  lemma {:induction false} FlattenNonEmpty(bs: seq<Batch>, i: nat)
    requires i < |bs| && NonEmptyDomains(Flatten(bs))
    ensures NonEmptyDomains(bs[i])
  {
    var f := Flatten(bs);
    assert f == bs[0] + Flatten(bs[1..]);
    if i == 0 {
      assert forall j :: 0 <= j < |bs[0]| ==> bs[0][j] == f[j];
    } else {
      assert forall j :: 0 <= j < |f| - |bs[0]| ==> Flatten(bs[1..])[j] == f[|bs[0]| + j];
      FlattenNonEmpty(bs[1..], i - 1);
    }
  }

  /**
    For a list without empty domains the split is exact: every batch meets the
    real limits, and no order-preserving split meeting them has fewer batches.
  */
  lemma NonEmptyDomainsExact(ds: seq<string>, alt: seq<Batch>)
    requires NonEmptyDomains(ds)
    ensures Flatten(Greedy(ds)) == ds
    ensures forall i :: 0 <= i < |Greedy(ds)| ==> Fits(Greedy(ds)[i])
    ensures forall b :: b in Greedy(ds) ==> 1 <= |b| <= 50 && (|b| > 1 ==> |C.Join(b, ' ')| <= 1500)
    ensures Flatten(alt) == ds && (forall i :: 0 <= i < |alt| ==> Fits(alt[i])) ==> |Greedy(ds)| <= |alt|
  {
    var bs := Greedy(ds);
    forall b | b in bs ensures |b| > 1 ==> |C.Join(b, ' ')| == JoinedBytes(b) {
      JoinedIsWritten(b);
    }
    GreedyIsSplit(ds);
    forall i | 0 <= i < |bs| ensures Fits(bs[i]) {
      FlattenNonEmpty(bs, i);
      CountedFitsIsFits(bs[i]);
    }
    if Flatten(alt) == ds && forall i :: 0 <= i < |alt| ==> Fits(alt[i]) {
      forall i | 0 <= i < |alt| ensures CountedFits(alt[i]) {
        FlattenNonEmpty(alt, i);
        CountedFitsIsFits(alt[i]);
      }
      GreedyIsOptimal(ds, alt);
    }
  }

  /**
    No list the daemon passes on has an empty domain: its domains are those of
    the config file.  So every file that is read at all is batched exactly.
  */
  lemma ConfiguredDomainsExact(lower: char -> char, body: string, ds: seq<string>, alt: seq<Batch>)
    requires C.Read(lower, body).Ok?
    requires ds == C.Read(lower, body).value.searchDomains || ds == C.Read(lower, body).value.matchDomains
    ensures Flatten(Greedy(ds)) == ds
    ensures forall i :: 0 <= i < |Greedy(ds)| ==> Fits(Greedy(ds)[i])
    ensures Flatten(alt) == ds && (forall i :: 0 <= i < |alt| ==> Fits(alt[i])) ==> |Greedy(ds)| <= |alt|
  {
    hide C.ReadLines, C.Split;
    C.ReadLinesAreClean(lower, C.Split(body, '\n'));
    forall i | 0 <= i < |ds| ensures ds[i] != "" {
      assert C.IsClean(ds[i]);
    }
    NonEmptyDomainsExact(ds, alt);
  }

  /** With empty domains allowed a batch can pass the byte limit, by at most 49 bytes. */
  lemma AnyDomainsBound(ds: seq<string>, i: nat)
    requires i < |Greedy(ds)|
    ensures var b := Greedy(ds)[i];
            |b| == 1 || (0 < |b| <= MAX_DOMAINS && JoinedBytes(b) <= MAX_BYTES + MAX_DOMAINS - 1)
  {
    GreedyIsSplit(ds);
    CountedIsJoined(Greedy(ds)[i]);
  }

  /** One empty domain before a 1500-byte one is such a list. */
  lemma EmptyDomainOverflows(d: string)
    requires |d| == MAX_BYTES
    ensures Greedy(["", d]) == [["", d]] && !Fits(["", d])
  {
    var ds: seq<string> := ["", d];
    var one: seq<string> := [""];
    assert ds[..1] == one && ds[..2] == ds && ds[2..] == [];
    assert one[..0] == [];
    assert CountedBytes(one) == 0;
    assert CountedBytes(ds) == MAX_BYTES;
    assert Extend(ds, 2) == 2 && Extend(ds, 1) == 2;
    assert JoinedBytes(ds) == MAX_BYTES + 1;
  }

  // ---- the loop ----

  lemma {:induction false} ExtendFrom(ds: seq<string>, n: nat)
    requires 1 <= n <= |ds| && CountedFits(ds[..n])
    ensures Extend(ds, 1) == Extend(ds, n)
  {
    if n > 1 {
      SliceFits(ds[..n], 0, n - 1);
      assert ds[..n][0..n - 1] == ds[..n - 1];
      ExtendFrom(ds, n - 1);
    }
  }

  /** A batch that cannot take the next domain is the greedy split's first. */
  lemma GreedyCuts(current: Batch, rest: seq<string>)
    requires CountedFits(current)
    requires rest != [] ==> !CountedFits(current + [rest[0]])
    ensures Greedy(current + rest) == [current] + Greedy(rest)
  {
    var ds, n := current + rest, |current|;
    assert ds[..n] == current && ds[n..] == rest;
    ExtendFrom(ds, n);
    if rest != [] {
      assert ds[..n + 1] == current + [rest[0]];
    }
  }

  lemma CountedSnoc(current: Batch, d: string)
    ensures CountedBytes(current + [d]) ==
            if CountedBytes(current) == 0 then |d| else CountedBytes(current) + 1 + |d|
  {
    assert (current + [d])[..|current|] == current;
  }

  /** The loop's invariant: what is done, followed by the greedy split of what is left. */
  ghost predicate Remaining(batches: seq<Batch>, current: Batch, rest: seq<string>, all: seq<string>)
  {
    batches + Greedy(current + rest) == Greedy(all)
  }

  lemma RemainingCut(batches: seq<Batch>, current: Batch, rest: seq<string>, all: seq<string>)
    requires Remaining(batches, current, rest, all)
    requires CountedFits(current) && (rest != [] ==> !CountedFits(current + [rest[0]]))
    ensures Remaining(batches + [current], [], rest, all)
  {
    GreedyCuts(current, rest);
    assert [] + rest == rest;
    assert batches + ([current] + Greedy(rest)) == (batches + [current]) + Greedy(rest);
  }

  lemma RemainingTake(batches: seq<Batch>, current: Batch, ds: seq<string>, i: nat, all: seq<string>)
    requires i < |ds| && Remaining(batches, current, ds[i..], all)
    ensures Remaining(batches, current + [ds[i]], ds[i + 1..], all)
  {
    assert current + ds[i..] == (current + [ds[i]]) + ds[i + 1..];
  }

  method SplitDomainsIntoBatches(domains: seq<string>) returns (batches: seq<Batch>)
    ensures batches == Greedy(domains)
  {
    if |domains| == 0 {
      return [];
    }
    batches := [];
    var current: Batch := [];
    var currentBytes := 0;
    assert Remaining([], [], domains[0..], domains) by {
      assert [] + domains[0..] == domains;
    }
    for i := 0 to |domains|
      invariant currentBytes == CountedBytes(current)
      invariant current == [] || CountedFits(current)
      invariant i > 0 ==> current != []
      invariant Remaining(batches, current, domains[i..], domains)
    {
      var d := domains[i];
      var add := |d|;
      if currentBytes > 0 {
        add := add + 1;
      }
      CountedSnoc(current, d);
      if |current| > 0 && (|current| >= MAX_DOMAINS || currentBytes + add > MAX_BYTES) {
        RemainingCut(batches, current, domains[i..], domains);
        batches := batches + [current];
        current := [];
        currentBytes := 0;
      }
      CountedSnoc(current, d);
      RemainingTake(batches, current, domains, i, domains);
      current := current + [d];
      if currentBytes == 0 {
        currentBytes := |d|;
      } else {
        currentBytes := currentBytes + 1 + |d|;
      }
    }
    if |current| > 0 {
      RemainingCut(batches, current, [], domains);
      batches := batches + [current];
    }
  }
}
