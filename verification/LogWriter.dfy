/**
  The bounded byte buffer netbird's logger writes through: ringWriter of
  internal/innermesh, its newline alignment, and the lines read back from it.
*/
module LogWriter {

  type byte = x: int | 0 <= x < 256

  const NEWLINE: byte := 10

  const DEFAULT_CAP: nat := 65536

  /** Position of the first newline, |s| when there is none. */
  function IndexNewline(s: seq<byte>): (i: nat)
    ensures i <= |s|
    ensures i < |s| ==> s[i] == NEWLINE
    ensures forall k :: 0 <= k < i ==> s[k] != NEWLINE
  {
    if s == [] || s[0] == NEWLINE then 0 else 1 + IndexNewline(s[1..])
  }

  /** A newline stands among the `width` bytes from position k on. */
  predicate NewlineIn(stream: seq<byte>, k: nat, width: nat)
    requires k + width <= |stream|
  {
    exists i :: k <= i < k + width && stream[i] == NEWLINE
  }

  /** Position k of the stream is the start of a line. */
  predicate LineStart(stream: seq<byte>, k: nat)
    requires k <= |stream|
  {
    k == 0 || stream[k - 1] == NEWLINE
  }

  /** Every window of `width` consecutive bytes holds a newline. */
  predicate Dense(stream: seq<byte>, width: nat)
  {
    forall k: nat :: k + width <= |stream| ==> NewlineIn(stream, k, width)
  }

  /** A text up to and including its first newline contributes one line or none. */
  function FirstLine(s: seq<byte>): seq<seq<byte>>
  {
    if IndexNewline(s) > 0 then [s[..IndexNewline(s)]] else []
  }

  /** The non-empty lines of a text; an unterminated last line counts. */
  function LinesOf(s: seq<byte>): seq<seq<byte>>
    decreases |s|
  {
    if s == [] then []
    else
      var i := IndexNewline(s);
      if i == |s| then [s]
      else FirstLine(s) + LinesOf(s[i + 1..])
  }

  lemma {:induction false} IndexInFront(a: seq<byte>, b: seq<byte>)
    requires IndexNewline(a) < |a|
    ensures IndexNewline(a + b) == IndexNewline(a)
  {
    var i := IndexNewline(a);
    assert (a + b)[i] == NEWLINE;
    assert forall k :: 0 <= k < i ==> (a + b)[k] == a[k];
  }

  lemma LinesUnfold(s: seq<byte>)
    requires IndexNewline(s) < |s|
    ensures LinesOf(s) == FirstLine(s) + LinesOf(s[IndexNewline(s) + 1..])
  {
  }

  /** Cutting a text at a line start cuts its list of lines. */
  lemma {:induction false} LinesSplit(a: seq<byte>, b: seq<byte>)
    requires a == [] || a[|a| - 1] == NEWLINE
    ensures LinesOf(a + b) == LinesOf(a) + LinesOf(b)
    decreases |a|
  {
    hide LinesOf;
    if a == [] {
      assert a + b == b;
      NoLines(b);
    } else {
      var i := IndexNewline(a);
      var rest := a[i + 1..];
      assert i < |a|;
      LinesSplit(rest, b);
      LinesSplitStep(a, b);
    }
  }

  lemma NoLines(b: seq<byte>)
    ensures LinesOf(b) == LinesOf([]) + LinesOf(b)
  {
    hide IndexNewline;
    assert LinesOf([]) == [];
  }

  /** The same past the first line, given it for what follows. */
  lemma LinesSplitStep(a: seq<byte>, b: seq<byte>)
    requires IndexNewline(a) < |a|
    requires var rest := a[IndexNewline(a) + 1..]; LinesOf(rest + b) == LinesOf(rest) + LinesOf(b)
    ensures LinesOf(a + b) == LinesOf(a) + LinesOf(b)
  {
    hide LinesOf, IndexNewline;
    var i := IndexNewline(a);
    var rest := a[i + 1..];
    IndexInFront(a, b);
    LinesUnfold(a);
    LinesUnfold(a + b);
    assert (a + b)[i + 1..] == rest + b && (a + b)[..i] == a[..i];
    Regroup(FirstLine(a), LinesOf(rest), LinesOf(b));
  }

  /** Lines, each ended by a newline, and an unterminated rest. */
  function Unlines(lines: seq<seq<byte>>, rest: seq<byte>): seq<byte>
  {
    if lines == [] then rest else lines[0] + [10] + Unlines(lines[1..], rest)
  }

  predicate OneLine(s: seq<byte>)
  {
    forall i :: 0 <= i < |s| ==> s[i] != 10
  }

  function NonEmpty(lines: seq<seq<byte>>): seq<seq<byte>>
  {
    if lines == [] then [] else (if lines[0] == [] then [] else [lines[0]]) + NonEmpty(lines[1..])
  }

  /** A line and its newline, in front of a text, contribute the line unless it is empty. */
  lemma LineInFront(line: seq<byte>, more: seq<byte>)
    requires OneLine(line)
    ensures LinesOf(line + [10] + more) == (if line == [] then [] else [line]) + LinesOf(more)
  {
    hide LinesOf;
    var text := line + [10] + more;
    assert IndexNewline(text) == |line| by {
      assert text[|line|] == 10;
      assert forall i :: 0 <= i < |line| ==> text[i] == line[i];
    }
    assert text[..|line|] == line && text[|line| + 1..] == more;
    LinesUnfold(text);
  }

  lemma RestOfText(rest: seq<byte>)
    requires OneLine(rest)
    ensures LinesOf(rest) == NonEmpty([] + [rest])
  {
    assert [] + [rest] == [rest] && [rest][1..] == [];
    assert IndexNewline(rest) == |rest|;
  }

  /** The lines of a text are its newline-free pieces in order, without the empty ones. */
  lemma {:induction false} LinesArePieces(lines: seq<seq<byte>>, rest: seq<byte>)
    requires OneLine(rest) && forall i :: 0 <= i < |lines| ==> OneLine(lines[i])
    ensures LinesOf(Unlines(lines, rest)) == NonEmpty(lines + [rest])
  {
    hide LinesOf, OneLine;
    if lines == [] {
      RestOfText(rest);
    } else {
      LineInFront(lines[0], Unlines(lines[1..], rest));
      LinesArePieces(lines[1..], rest);
      assert (lines + [rest])[1..] == lines[1..] + [rest];
    }
  }

  /** Every text has such pieces. */
  lemma {:induction false} PiecesOf(s: seq<byte>) returns (lines: seq<seq<byte>>, rest: seq<byte>)
    ensures OneLine(rest) && forall i :: 0 <= i < |lines| ==> OneLine(lines[i])
    ensures s == Unlines(lines, rest)
    decreases |s|
  {
    var i := IndexNewline(s);
    if i == |s| {
      lines, rest := [], s;
    } else {
      var more;
      more, rest := PiecesOf(s[i + 1..]);
      lines := [s[..i]] + more;
      assert lines[1..] == more && s == s[..i] + [10] + s[i + 1..];
    }
  }

  lemma Regroup<T>(a: seq<T>, b: seq<T>, c: seq<T>)
    ensures a + (b + c) == (a + b) + c
  {
  }

  function LastLines(all: seq<seq<byte>>, tail: int): seq<seq<byte>>
  {
    if tail <= 0 || tail >= |all| then all else all[|all| - tail..]
  }

  lemma SplitStep(out: seq<seq<byte>>, rest: seq<byte>)
    requires IndexNewline(rest) < |rest|
    ensures var i := IndexNewline(rest);
            out + LinesOf(rest) == (if i > 0 then out + [rest[..i]] else out) + LinesOf(rest[i + 1..])
  {
    hide LinesOf, IndexNewline;
    var i := IndexNewline(rest);
    LinesUnfold(rest);
    Regroup(out, FirstLine(rest), LinesOf(rest[i + 1..]));
    assert out + [] == out;
  }

  lemma LastPiece(out: seq<seq<byte>>, rest: seq<byte>)
    requires IndexNewline(rest) == |rest|
    ensures out + LinesOf(rest) == if rest == [] then out else out + [rest]
  {
  }

  method SplitLines(s: seq<byte>) returns (out: seq<seq<byte>>)
    ensures out == LinesOf(s)
  {
    out := [];
    var rest := s;
    assert [] + LinesOf(s) == LinesOf(s);
    while |rest| > 0
      invariant out + LinesOf(rest) == LinesOf(s)
      decreases |rest|
    {
      var i := FindNewline(rest);
      if i < 0 {
        LastPiece(out, rest);
        out := out + [rest];
        return;
      }
      SplitStep(out, rest);
      if i > 0 {
        out := out + [rest[..i]];
      }
      rest := rest[i + 1..];
    }
    LastPiece(out, rest);
  }

  method FindNewline(s: seq<byte>) returns (i: int)
    ensures i == if IndexNewline(s) < |s| then IndexNewline(s) else -1
  {
    for k := 0 to |s|
      invariant forall j :: 0 <= j < k ==> s[j] != NEWLINE
    {
      if s[k] == NEWLINE {
        return k;
      }
    }
    return -1;
  }

  class RingWriter {
    var buf: seq<byte>
    const limit: nat
    /** Every byte ever written, in order. */
    ghost var stream: seq<byte>

    ghost predicate Valid()
      reads this
    {
      limit > 0 && |buf| <= limit && |buf| <= |stream| && buf == stream[|stream| - |buf|..]
    }

    /** Where in the stream the buffer begins. */
    ghost function Start(): nat
      reads this
      requires Valid()
    {
      |stream| - |buf|
    }

    constructor (capBytes: int)
      ensures Valid() && buf == [] && stream == []
      ensures limit == if capBytes <= 0 then DEFAULT_CAP else capBytes
    {
      limit := if capBytes <= 0 then DEFAULT_CAP else capBytes;
      buf := [];
      stream := [];
    }

    /**
      Append, then drop from the head when over capacity: through the first
      newline of the last `limit` bytes if there is one, else the bare excess.
    */
    method Write(p: seq<byte>) returns (n: nat)
      requires Valid()
      modifies this
      ensures Valid() && n == |p|
      ensures stream == old(stream) + p
      ensures Start() == StartAfter(old(stream), old(Start()), p, limit)
    {
      hide IndexNewline;
      buf := buf + p;
      stream := stream + p;
      assert buf == stream[|stream| - |buf|..];
      if |buf| > limit {
        var excess := |buf| - limit;
        assert stream[|stream| - limit..] == buf[excess..];
        var nl := FindNewline(buf[excess..]);
        if nl >= 0 {
          var drop := excess + nl + 1;
          buf := buf[drop..];
        } else {
          buf := buf[excess..];
        }
      }
      n := |p|;
    }

    /** A run of writes. */
    method WriteAll(ps: seq<seq<byte>>)
      requires Valid() && stream == []
      modifies this
      ensures Valid() && stream == Concat(ps) && Start() == StartOf(ps, limit)
      ensures Dense(stream, limit) ==> LineStart(stream, Start())
    {
      for k := 0 to |ps|
        invariant Valid() && stream == Concat(ps[..k]) && Start() == StartOf(ps[..k], limit)
      {
        assert ps[..k + 1][..k] == ps[..k];
        var _ := Write(ps[k]);
      }
      assert ps[..|ps|] == ps;
      if Dense(stream, limit) {
        DenseRunsStayAligned(ps, limit);
      }
    }

    method Lines(tail: int) returns (out: seq<seq<byte>>)
      requires Valid()
      ensures out == LastLines(LinesOf(buf), tail)
      ensures |out| == if 0 < tail < |LinesOf(buf)| then tail else |LinesOf(buf)|
      ensures out == LinesOf(buf)[|LinesOf(buf)| - |out|..]
    {
      if |buf| == 0 {
        return [];
      }
      var all := SplitLines(buf);
      if tail <= 0 || tail >= |all| {
        return all;
      }
      return all[|all| - tail..];
    }
  }

  /**
    An aligned buffer shows whole lines only: what Lines returns are the last
    lines of everything ever written.
  */
  lemma AlignedLines(stream: seq<byte>, start: nat, tail: int)
    requires start <= |stream| && LineStart(stream, start)
    ensures var kept, all := LinesOf(stream[start..]), LinesOf(stream);
            |kept| <= |all| && kept == all[|all| - |kept|..]
            && |LastLines(kept, tail)| == (if 0 < tail < |kept| then tail else |kept|)
            && LastLines(kept, tail) == all[|all| - |LastLines(kept, tail)|..]
  {
    assert stream == stream[..start] + stream[start..];
    LinesSplit(stream[..start], stream[start..]);
  }

  // ---- whole runs ----

  /** One Write on the pair (stream, start of the buffer in it). */
  function StartAfter(stream: seq<byte>, start: nat, p: seq<byte>, limit: nat): (s: nat)
    requires start <= |stream|
    ensures s <= |stream| + |p|
  {
    var all := stream + p;
    if |all| - start <= limit then start
    else
      var cut := |all| - limit;
      var nl := IndexNewline(all[cut..]);
      if nl < limit then cut + nl + 1 else cut
  }

  function Concat(ps: seq<seq<byte>>): seq<byte>
  {
    if ps == [] then [] else Concat(ps[..|ps| - 1]) + ps[|ps| - 1]
  }

  function StartOf(ps: seq<seq<byte>>, limit: nat): (s: nat)
    ensures s <= |Concat(ps)|
  {
    if ps == [] then 0
    else
      var front := ps[..|ps| - 1];
      StartAfter(Concat(front), StartOf(front, limit), ps[|ps| - 1], limit)
  }

  /** A write that fits drops nothing; one that trims drops the bare excess and, if it can, on through a newline. */
  lemma TrimIsLeast(stream: seq<byte>, start: nat, p: seq<byte>, limit: nat)
    requires start <= |stream|
    ensures var all, s := stream + p, StartAfter(stream, start, p, limit);
            var cut := |all| - limit;
            if cut <= start then s == start
            else
              && cut <= s <= |all|
              && (if s == cut then forall i :: cut <= i < |all| ==> all[i] != 10
                  else all[s - 1] == 10 && forall i :: cut <= i < s - 1 ==> all[i] != 10)
  {
    var all := stream + p;
    if |all| - start > limit {
      var cut := |all| - limit;
      assert forall i :: cut <= i < |all| ==> all[i] == all[cut..][i - cut];
    }
  }

  /**
    A write that trims leaves the buffer at a line start exactly when a newline
    is among the last `limit` bytes or just before them; one that does not trim
    leaves the start where it was.
  */
  lemma WriteAlignment(stream: seq<byte>, start: nat, p: seq<byte>, limit: nat)
    requires start <= |stream| && limit > 0
    ensures var all := stream + p;
            LineStart(all, StartAfter(stream, start, p, limit)) <==>
            if |all| - start <= limit then LineStart(all, start)
            else NewlineIn(all, |all| - limit, limit) || LineStart(all, |all| - limit)
  {
    hide IndexNewline;
    var all, s := stream + p, StartAfter(stream, start, p, limit);
    TrimIsLeast(stream, start, p, limit);
    if |all| - start > limit && s > |all| - limit {
      assert all[s - 1] == NEWLINE;
    }
  }

  /**
    Over any run of writes whose bytes hold a newline in every window of `limit`
    bytes, the buffer starts at a line start after each of them.
  */
  lemma {:induction false} DenseRunsStayAligned(ps: seq<seq<byte>>, limit: nat)
    requires limit > 0 && Dense(Concat(ps), limit)
    ensures LineStart(Concat(ps), StartOf(ps, limit))
  {
    if ps != [] {
      var front, p := ps[..|ps| - 1], ps[|ps| - 1];
      var before, all := Concat(front), Concat(ps);
      forall k: nat | k + limit <= |before| ensures NewlineIn(before, k, limit) {
        assert NewlineIn(all, k, limit);
        var i :| k <= i < k + limit && all[i] == NEWLINE;
        assert before[i] == NEWLINE;
      }
      DenseRunsStayAligned(front, limit);
      WriteAlignment(before, StartOf(front, limit), p, limit);
    }
  }

  /** So after any such run Lines is exactly a tail of the lines of the stream. */
  lemma DenseRunsShowWholeLines(ps: seq<seq<byte>>, limit: nat, tail: int)
    requires limit > 0 && Dense(Concat(ps), limit)
    ensures var shown := LastLines(LinesOf(Concat(ps)[StartOf(ps, limit)..]), tail);
            var all := LinesOf(Concat(ps));
            && |shown| <= |all| && shown == all[|all| - |shown|..]
            && (0 < tail <= |LinesOf(Concat(ps)[StartOf(ps, limit)..])| ==> |shown| == tail)
  {
    hide LinesOf, LastLines, StartOf, Concat, Dense;
    DenseRunsStayAligned(ps, limit);
    AlignedLines(Concat(ps), StartOf(ps, limit), tail);
  }
}
