/**
  The fixed-capacity rolling histories: peerping.Ring with its summary, the
  daemon's receivedRing, and the daemon's diagnostic log tail.  Each buffer is
  related to the ghost sequence of everything ever added to it.
*/
module Rings {
  import opened Results

  // ---- positions modulo the capacity ----

  lemma ModUnique(a: int, q: int, r: int, c: nat)
    requires c > 0 && 0 <= r < c && a == q * c + r
    ensures a % c == r
  {
    var d := a / c - q;
    assert d * c == r - a % c;
    assert d > 0 ==> d * c >= c;
    assert d < 0 ==> d * c <= 0 - c;
  }

  lemma ModShift(a: int, k: int, c: nat)
    requires c > 0
    ensures (a % c + k) % c == (a + k) % c
  {
    var q := (a % c + k) / c;
    assert a + k == (a / c + q) * c + (a % c + k) % c;
    ModUnique(a + k, a / c + q, (a % c + k) % c, c);
  }

  lemma ModDistinct(i: int, j: int, c: nat)
    requires c > 0 && i < j < i + c
    ensures i % c != j % c
  {
    var d := j / c - i / c;
    assert j - i == d * c + (j % c - i % c);
    assert d >= 1 ==> d * c >= c;
    assert d <= 0 ==> d * c <= 0;
  }

  /** The last n elements, or all of them. */
  function LastN<T>(s: seq<T>, n: nat): (r: seq<T>)
    ensures |r| == if |s| <= n then |s| else n
  {
    if |s| <= n then s else s[|s| - n..]
  }

  function Reversed<T>(s: seq<T>): (r: seq<T>)
    ensures |r| == |s|
    ensures forall i :: 0 <= i < |s| ==> r[i] == s[|s| - 1 - i]
  {
    if s == [] then [] else [s[|s| - 1]] + Reversed(s[..|s| - 1])
  }

  const DEFAULT_HISTORY: nat := 120

  class RingBuffer<T(0)> {
    const buf: array<T>
    var head: nat
    var n: nat
    ghost var added: seq<T>

    ghost predicate Valid()
      reads this, buf
    {
      && buf.Length > 0
      && n == (if |added| <= buf.Length then |added| else buf.Length)
      && head == |added| % buf.Length
      && forall i :: |added| - n <= i < |added| ==> buf[i % buf.Length] == added[i]
    }

    /** The history the buffer still shows. */
    ghost function Window(): seq<T>
      reads this, buf
    {
      LastN(added, buf.Length)
    }

    constructor (capacity: int, fallback: nat)
      requires fallback > 0
      ensures Valid() && fresh(buf) && added == []
      ensures buf.Length == if capacity <= 0 then fallback else capacity
    {
      buf := new T[if capacity <= 0 then fallback else capacity];
      head, n := 0, 0;
      added := [];
    }

    method Add(s: T)
      requires Valid()
      modifies this, buf
      ensures Valid() && added == old(added) + [s]
    {
      ghost var k, c := |added|, buf.Length;
      buf[head] := s;
      ModShift(k, 1, c);
      head := (head + 1) % buf.Length;
      if n < buf.Length {
        n := n + 1;
      }
      added := added + [s];
      forall i | k + 1 - n <= i < k + 1 ensures buf[i % c] == added[i] {
        if i < k {
          ModDistinct(i, k, c);
        }
      }
    }

    /** Samples: the window, oldest first. */
    method Samples() returns (out: seq<T>)
      requires Valid()
      ensures out == Window()
    {
      out := [];
      for i := 0 to n
        invariant out == Window()[..i]
      {
        var s := At(i);
        out := out + [s];
      }
    }

    lemma SlotFromStart(i: nat)
      requires Valid() && i < n
      ensures ((head - n + buf.Length) % buf.Length + i) % buf.Length == (|added| - n + i) % buf.Length
    {
      var k, c := |added|, buf.Length;
      ModShift(k, i - n + c, c);
      ModShift(head - n + c, i, c);
      assert (k + i - n + c) % c == (k - n + i) % c by {
        ModUnique(k - n + i + c, (k - n + i) / c + 1, (k - n + i) % c, c);
      }
    }

    /** list: the same records, newest first. */
    method NewestFirst() returns (out: seq<T>)
      requires Valid()
      ensures out == Reversed(Window())
    {
      out := [];
      for i := 0 to n
        invariant |out| == i
        invariant forall j :: 0 <= j < i ==> out[j] == added[|added| - 1 - j]
      {
        SlotFromHead(i);
        var idx := (head - 1 - i + buf.Length) % buf.Length;
        out := out + [buf[idx]];
      }
    }

    /** The i-th oldest entry: head-n (mod capacity), walked forward i steps. */
    method At(i: nat) returns (s: T)
      requires Valid() && i < n
      ensures s == Window()[i]
    {
      SlotFromStart(i);
      var start := (head - n + buf.Length) % buf.Length;
      s := buf[(start + i) % buf.Length];
    }

    lemma SlotFromHead(i: nat)
      requires Valid() && i < n
      ensures (head - 1 - i + buf.Length) % buf.Length == (|added| - 1 - i) % buf.Length
    {
      var k, c := |added|, buf.Length;
      ModShift(k, c - 1 - i, c);
      ModUnique(k - 1 - i + c, (k - 1 - i) / c + 1, (k - 1 - i) % c, c);
    }

    method Last() returns (r: Option<T>)
      requires Valid()
      ensures r == if added == [] then None else Some(added[|added| - 1])
    {
      if n == 0 {
        return None;
      }
      SlotFromHead(0);
      return Some(buf[(head - 1 + buf.Length) % buf.Length]);
    }
  }

  // ---- the latency summary ----

  datatype Sample = Sample(seqNo: nat, at: int, rtt: int, lost: bool)

  datatype Stats = Stats(n: nat, lost: nat, lossPct: real, min: int, max: int, avg: int, last: int)

  /** The round-trip times of the probes that came back. */
  function Successes(w: seq<Sample>): (r: seq<int>)
    ensures |r| <= |w|
  {
    if w == [] then []
    else
      var front, s := Successes(w[..|w| - 1]), w[|w| - 1];
      if s.lost then front else front + [s.rtt]
  }

  function Sum(xs: seq<int>): int
  {
    if xs == [] then 0 else Sum(xs[..|xs| - 1]) + xs[|xs| - 1]
  }

  /** Two's-complement 64-bit value of an integer. */
  function Wrap64(x: int): int
  {
    (x + 0x8000_0000_0000_0000) % 0x1_0000_0000_0000_0000 - 0x8000_0000_0000_0000
  }

  /** Go's integer division, which truncates toward zero. */
  function TruncDiv(a: int, b: int): int
    requires b > 0
  {
    if a >= 0 then a / b else -((-a) / b)
  }

  function MinOf(xs: seq<int>): int
  {
    if xs == [] then 0
    else if |xs| == 1 then xs[0]
    else
      var m, x := MinOf(xs[..|xs| - 1]), xs[|xs| - 1];
      if x < m then x else m
  }

  /** The largest element, or 0 when all are negative: Max starts out as 0. */
  function MaxOf(xs: seq<int>): int
  {
    if xs == [] then 0
    else
      var m, x := MaxOf(xs[..|xs| - 1]), xs[|xs| - 1];
      if x > m then x else m
  }

  function LossPct(lost: nat, n: nat): real
  {
    if n == 0 then 0.0 else lost as real / n as real * 100.0
  }

  function Mean(sum: int, ok: nat): int
  {
    if ok == 0 then 0 else TruncDiv(sum, ok)
  }

  function StatsOf(w: seq<Sample>): Stats
  {
    var ok := Successes(w);
    Stats(|w|, |w| - |ok|,
          LossPct(|w| - |ok|, |w|),
          MinOf(ok), MaxOf(ok),
          Mean(Wrap64(Sum(ok)), |ok|),
          if ok == [] then 0 else ok[|ok| - 1])
  }

  lemma WrapAdd(a: int, b: int)
    ensures Wrap64(Wrap64(a) + b) == Wrap64(a + b)
  {
  }

  /** The loop's local variables. */
  datatype Tally = Tally(lost: nat, ok: nat, min: int, max: int, sum: int, last: int)

  function Count(t: Tally, s: Sample): Tally
  {
    if s.lost then t.(lost := t.lost + 1)
    else Tally(t.lost, t.ok + 1,
               if t.ok == 0 || s.rtt < t.min then s.rtt else t.min,
               if s.rtt > t.max then s.rtt else t.max,
               Wrap64(t.sum + s.rtt), s.rtt)
  }

  function TallyOf(w: seq<Sample>): Tally
  {
    if w == [] then Tally(0, 0, 0, 0, 0, 0) else Count(TallyOf(w[..|w| - 1]), w[|w| - 1])
  }

  /** The running tally is the summary of the successes seen so far. */
  lemma {:induction false} TallyIsSummary(w: seq<Sample>)
    ensures var ok := Successes(w);
            TallyOf(w) == Tally(|w| - |ok|, |ok|, MinOf(ok), MaxOf(ok), Wrap64(Sum(ok)),
                                if ok == [] then 0 else ok[|ok| - 1])
  {
    if w != [] {
      var front, s := w[..|w| - 1], w[|w| - 1];
      TallyIsSummary(front);
      var ok := Successes(front);
      assert (ok + [s.rtt])[..|ok|] == ok;
      WrapAdd(Sum(ok), s.rtt);
    }
  }

  lemma StatsFromTally(w: seq<Sample>)
    ensures var t := TallyOf(w);
            StatsOf(w) == Stats(|w|, t.lost, LossPct(t.lost, |w|), t.min, t.max, Mean(t.sum, t.ok), t.last)
  {
    TallyIsSummary(w);
  }

  method ComputeStats(r: RingBuffer<Sample>) returns (st: Stats)
    requires r.Valid()
    ensures st == StatsOf(r.Window())
  {
    ghost var w := r.Window();
    if r.n == 0 {
      return Stats(0, 0, 0.0, 0, 0, 0, 0);
    }
    var lost, min, max, last, sum, ok := 0, 0, 0, 0, 0, 0;
    for i := 0 to r.n
      invariant Tally(lost, ok, min, max, sum, last) == TallyOf(w[..i])
    {
      var s := r.At(i);
      assert w[..i + 1][..i] == w[..i];
      if s.lost {
        lost := lost + 1;
      } else {
        if ok == 0 || s.rtt < min {
          min := s.rtt;
        }
        if s.rtt > max {
          max := s.rtt;
        }
        sum := Wrap64(sum + s.rtt);
        last := s.rtt;
        ok := ok + 1;
      }
    }
    assert w[..r.n] == w;
    StatsFromTally(w);
    return Stats(r.n, lost, LossPct(lost, r.n), min, max, Mean(sum, ok), last);
  }

  /** The positions of the probes that were lost. */
  function LostAt(w: seq<Sample>): set<nat>
  {
    set i: nat | i < |w| && w[i].lost
  }

  lemma {:induction false} LostAreCounted(w: seq<Sample>)
    ensures |Successes(w)| + |LostAt(w)| == |w|
  {
    if w != [] {
      var k := |w| - 1;
      LostAreCounted(w[..k]);
      assert LostAt(w) == if w[k].lost then LostAt(w[..k]) + {k} else LostAt(w[..k]);
    } else {
      assert LostAt(w) == {};
    }
  }

  /** The counts are those of the window, the loss is their ratio in percent, and an empty window shows zeros. */
  lemma LossIsCounted(w: seq<Sample>)
    ensures var st := StatsOf(w);
            && st.n == |w| && st.lost == |LostAt(w)|
            && 0.0 <= st.lossPct <= 100.0 && st.lossPct * st.n as real == 100.0 * st.lost as real
            && (w == [] ==> st == Stats(0, 0, 0.0, 0, 0, 0, 0))
            && (st.lost == st.n ==> st.min == st.max == st.avg == st.last == 0)
  {
    LostAreCounted(w);
    if w != [] {
      RatioBounds(|w| - |Successes(w)|, |w|);
    }
  }

  lemma RatioBounds(k: nat, n: nat)
    requires k <= n && n > 0
    ensures 0.0 <= LossPct(k, n) <= 100.0 && LossPct(k, n) * n as real == 100.0 * k as real
  {
    var q, m := k as real / n as real, n as real;
    assert q * m == k as real;
    assert q > 1.0 ==> q * m > m;
    assert q < 0.0 ==> q * m < 0.0;
    assert q * 100.0 * m == 100.0 * (q * m);
  }

  lemma {:induction false} Extremes(xs: seq<int>)
    requires xs != []
    requires forall i :: 0 <= i < |xs| ==> xs[i] >= 0
    ensures MinOf(xs) in xs && MaxOf(xs) in xs
    ensures forall i :: 0 <= i < |xs| ==> MinOf(xs) <= xs[i] <= MaxOf(xs)
  {
    var front, x := xs[..|xs| - 1], xs[|xs| - 1];
    if front != [] {
      Extremes(front);
      assert forall y :: y in front ==> y in xs;
    }
  }

  lemma {:induction false} SumBetween(xs: seq<int>, lo: int, hi: int)
    requires forall i :: 0 <= i < |xs| ==> lo <= xs[i] <= hi
    ensures lo * |xs| <= Sum(xs) <= hi * |xs|
  {
    if xs != [] {
      var k := |xs| - 1;
      SumBetween(xs[..k], lo, hi);
      assert lo * (k + 1) == lo * k + lo && hi * (k + 1) == hi * k + hi;
    }
  }

  lemma {:induction false} SumNonNegative(xs: seq<int>)
    requires forall i :: 0 <= i < |xs| ==> xs[i] >= 0
    ensures Sum(xs) >= 0
  {
    if xs != [] {
      SumNonNegative(xs[..|xs| - 1]);
    }
  }

  lemma WrapSmall(x: int)
    requires 0 <= x < 0x8000_0000_0000_0000
    ensures Wrap64(x) == x
  {
  }

  lemma MeanBetween(s: int, k: nat, lo: int, hi: int)
    requires k > 0 && lo * k <= s <= hi * k
    ensures lo <= s / k <= hi
  {
    var q := s / k;
    assert q < lo ==> (q + 1) * k <= lo * k;
    assert q > hi ==> q * k >= (hi + 1) * k;
  }

  /**
    For non-negative times whose sum fits 64 bits the summary is the mathematical
    one: the least, greatest and mean success, in that order, and the newest.
  */
  lemma StatsAreMeaningful(w: seq<Sample>)
    requires forall i :: 0 <= i < |w| ==> w[i].rtt >= 0
    requires Sum(Successes(w)) < 0x8000_0000_0000_0000
    requires Successes(w) != []
    ensures var st, ok := StatsOf(w), Successes(w);
            && st.min in ok && st.max in ok && (forall i :: 0 <= i < |ok| ==> st.min <= ok[i] <= st.max)
            && st.avg == Sum(ok) / |ok|
            && st.min <= st.avg <= st.max
  {
    var ok := Successes(w);
    SuccessesNonNegative(w);
    Extremes(ok);
    SumBetween(ok, MinOf(ok), MaxOf(ok));
    SumNonNegative(ok);
    WrapSmall(Sum(ok));
    MeanBetween(Sum(ok), |ok|, MinOf(ok), MaxOf(ok));
  }

  lemma {:induction false} SuccessesNonNegative(w: seq<Sample>)
    requires forall i :: 0 <= i < |w| ==> w[i].rtt >= 0
    ensures forall i :: 0 <= i < |Successes(w)| ==> Successes(w)[i] >= 0
  {
    if w != [] {
      SuccessesNonNegative(w[..|w| - 1]);
    }
  }

  lemma StatsLast(w: seq<Sample>)
    ensures var ok := Successes(w); StatsOf(w).last == if ok == [] then 0 else ok[|ok| - 1]
  {
    hide MinOf, MaxOf, Sum, Successes, LossPct, Mean, Wrap64;
  }

  /** The newest success is the last sample of the window that was not lost. */
  lemma {:induction false} LastIsNewest(w: seq<Sample>) returns (k: nat)
    requires Successes(w) != []
    ensures k < |w| && !w[k].lost && StatsOf(w).last == w[k].rtt
    ensures forall i :: k < i < |w| ==> w[i].lost
  {
    hide StatsOf;
    StatsLast(w);
    k := |w| - 1;
    if w[k].lost {
      StatsLast(w[..k]);
      k := LastIsNewest(w[..k]);
    }
  }

  // ---- the log tail ----

  function NonEmpty(s: seq<string>): seq<string>
  {
    if s == [] then []
    else NonEmpty(s[..|s| - 1]) + (if s[|s| - 1] == "" then [] else [s[|s| - 1]])
  }

  lemma {:induction false} NonEmptyAll(s: seq<string>)
    requires forall i :: 0 <= i < |s| ==> s[i] != ""
    ensures NonEmpty(s) == s
  {
    if s != [] {
      NonEmptyAll(s[..|s| - 1]);
      assert s == s[..|s| - 1] + [s[|s| - 1]];
    }
  }

  class LogTail {
    const lines: array<string>
    var idx: nat
    ghost var written: seq<string>

    ghost predicate Valid()
      reads this, lines
    {
      && lines.Length > 0
      && idx == |written| % lines.Length
      && forall i :: |written| - lines.Length <= i < |written| ==>
           lines[i % lines.Length] == if i < 0 then "" else written[i]
    }

    constructor (size: nat)
      requires size > 0
      ensures Valid() && fresh(lines) && written == [] && lines.Length == size
    {
      lines := new string[size](_ => "");
      idx := 0;
      written := [];
    }

    /** logf, its line already formatted. */
    method Logf(line: string)
      requires Valid()
      modifies this, lines
      ensures Valid() && written == old(written) + [line]
    {
      ghost var k, c := |written|, lines.Length;
      lines[idx] := line;
      ModShift(k, 1, c);
      idx := (idx + 1) % lines.Length;
      written := written + [line];
      forall i | k + 1 - c <= i < k + 1
        ensures lines[i % c] == if i < 0 then "" else written[i]
      {
        if i < k {
          ModDistinct(i, k, c);
        }
      }
    }

    /** What the slots hold, read from the write position on. */
    ghost function Slots(): (r: seq<string>)
      reads this, lines
      ensures |r| == lines.Length
    {
      seq(lines.Length - |LastN(written, lines.Length)|, _ => "") + LastN(written, lines.Length)
    }

    method Entry(i: nat) returns (entry: string)
      requires Valid() && i < lines.Length
      ensures entry == Slots()[i]
    {
      ghost var k, c := |written|, lines.Length;
      ModShift(k, i, c);
      ModUnique(k + i, (k - c + i) / c + 1, (k - c + i) % c, c);
      entry := lines[(idx + i) % lines.Length];
    }

    /** GetDiagnostics' tail: the non-empty ones of the last Length lines, oldest first. */
    method Tail() returns (tail: seq<string>)
      requires Valid()
      ensures tail == NonEmpty(LastN(written, lines.Length))
    {
      tail := [];
      for i := 0 to lines.Length
        invariant tail == NonEmpty(Slots()[..i])
      {
        var entry := Entry(i);
        assert Slots()[..i + 1][..i] == Slots()[..i];
        if entry != "" {
          tail := tail + [entry];
        }
      }
      assert Slots()[..lines.Length] == Slots();
      NonEmptyPadded(seq(lines.Length - |LastN(written, lines.Length)|, _ => ""), LastN(written, lines.Length));
    }
  }

  lemma {:induction false} NonEmptyPadded(pad: seq<string>, s: seq<string>)
    requires forall i :: 0 <= i < |pad| ==> pad[i] == ""
    ensures NonEmpty(pad + s) == NonEmpty(s)
  {
    if s == [] {
      assert pad + s == pad;
      if pad != [] {
        NonEmptyPadded(pad[..|pad| - 1], []);
        assert pad[..|pad| - 1] + [] == pad[..|pad| - 1];
      }
    } else {
      assert (pad + s)[..|pad + s| - 1] == pad + s[..|s| - 1];
      NonEmptyPadded(pad, s[..|s| - 1]);
    }
  }

  /** Every line logf writes starts with '[', so the tail is the last lines themselves. */
  lemma TailOfRealLines(written: seq<string>, size: nat)
    requires forall i :: 0 <= i < |written| ==> written[i] != "" && written[i][0] == '['
    ensures NonEmpty(LastN(written, size)) == LastN(written, size)
  {
    NonEmptyAll(LastN(written, size));
  }
}
