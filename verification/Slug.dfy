/**
  Profile slugs: the lower/collapse/trim pipeline of internal/profile and the
  one-pass loop of internal/ipc's stub client, and exactly when they agree.
*/
module Slug {
  import opened Results
  import opened Text

  /** The characters a slug keeps. */
  predicate Alnum(c: char)
  {
    'a' <= c <= 'z' || '0' <= c <= '9'
  }

  predicate Dash(c: char)
  {
    c == '-'
  }

  function DropRun(s: string): (r: string)
    ensures |r| <= |s|
    ensures s != [] && !Alnum(s[0]) ==> |r| < |s|
  {
    if s != [] && !Alnum(s[0]) then DropRun(s[1..]) else s
  }

  /** Replacing every maximal run outside [a-z0-9] by one dash. */
  function Collapse(s: string): string
    decreases |s|
  {
    if s == [] then []
    else if Alnum(s[0]) then [s[0]] + Collapse(s[1..])
    else ['-'] + Collapse(DropRun(s))
  }

  /** The production pipeline. */
  function Slugify(lower: char -> char, name: string): string
  {
    Trim(Collapse(Map(lower, TrimSpace(name))), Dash)
  }

  /** The shape of a slug: [a-z0-9] words joined by single inner dashes. */
  predicate IsSlug(s: string)
  {
    && (forall i :: 0 <= i < |s| ==> Alnum(s[i]) || s[i] == '-')
    && (forall i :: 0 <= i < |s| - 1 ==> s[i] == '-' ==> s[i + 1] != '-')
    && (s != [] ==> s[0] != '-' && s[|s| - 1] != '-')
  }

  // ---- the one-pass reading ----

  /** One scan over lowered text; `skip` says a dash would be a repeat. */
  function OnePass(t: string, skip: bool): string
  {
    if t == [] then []
    else if Alnum(t[0]) then [t[0]] + OnePass(t[1..], false)
    else if skip then OnePass(t[1..], true)
    else ['-'] + OnePass(t[1..], true)
  }

  lemma {:induction false} OnePassIsCollapse(t: string)
    ensures OnePass(t, true) == Collapse(DropRun(t))
    ensures OnePass(t, false) == Collapse(t)
  {
    if t != [] {
      OnePassIsCollapse(t[1..]);
    }
  }

  lemma {:induction false} DropRunStart(t: string)
    ensures DropRun(t) != [] ==> Alnum(DropRun(t)[0])
  {
    if t != [] {
      DropRunStart(t[1..]);
    }
  }

  lemma SlugifyIsOnePass(lower: char -> char, name: string)
    ensures Slugify(lower, name) == TrimRight(OnePass(Map(lower, TrimSpace(name)), true), Dash)
  {
    var t := Map(lower, TrimSpace(name));
    OnePassIsCollapse(t);
    DropRunStart(t);
    var c := Collapse(t);
    if t != [] && !Alnum(t[0]) {
      var rest := Collapse(DropRun(t));
      assert c[1..] == rest;
      TrimLeftUnique(c, Dash, 1);
    } else {
      assert DropRun(t) == t;
      TrimLeftUnique(c, Dash, 0);
    }
  }

  /** The dash state the scan is in after emitting `out`. */
  predicate AtDash(out: string, skip: bool)
  {
    if out == [] then skip else out[|out| - 1] == '-'
  }

  /** Scanning one more character appends at most one. */
  lemma {:induction false} OnePassSnoc(t: string, c: char, skip: bool)
    ensures OnePass(t + [c], skip) ==
            OnePass(t, skip) +
            (if Alnum(c) then [c] else if AtDash(OnePass(t, skip), skip) then [] else ['-'])
  {
    var u := t + [c];
    if t == [] {
      assert u[1..] == [];
      assert OnePass(u[1..], true) == [] && OnePass(u[1..], false) == [];
    } else {
      assert u[1..] == t[1..] + [c] && u[0] == t[0];
      OnePassSnoc(t[1..], c, !Alnum(t[0]));
    }
  }

  lemma TrimRightDash(s: string)
    ensures TrimRight(s + ['-'], Dash) == TrimRight(s, Dash)
  {
    var e := LastKept(s, Dash, |s|);
    TrimRightUnique(s + ['-'], Dash, e);
    assert (s + ['-'])[..e] == s[..e];
  }

  /** Characters outside [a-z0-9] at either end of the input leave no trace. */
  lemma {:induction false} OnePassTail(t: string, tail: string, skip: bool)
    requires forall i :: 0 <= i < |tail| ==> !Alnum(tail[i])
    ensures TrimRight(OnePass(t + tail, skip), Dash) == TrimRight(OnePass(t, skip), Dash)
  {
    if tail == [] {
      assert t + tail == t;
    } else {
      var c := tail[|tail| - 1];
      var front := tail[..|tail| - 1];
      assert t + tail == (t + front) + [c];
      OnePassSnoc(t + front, c, skip);
      TrimRightDash(OnePass(t + front, skip));
      assert OnePass(t + front, skip) + [] == OnePass(t + front, skip);
      OnePassTail(t, front, skip);
    }
  }

  lemma {:induction false} OnePassHead(head: string, t: string)
    requires forall i :: 0 <= i < |head| ==> !Alnum(head[i])
    ensures OnePass(head + t, true) == OnePass(t, true)
  {
    if head == [] {
      assert head + t == t;
    } else {
      assert (head + t)[1..] == head[1..] + t;
      OnePassHead(head[1..], t);
    }
  }

  lemma OnePassPadding(head: string, core: string, tail: string)
    requires forall i :: 0 <= i < |head| ==> !Alnum(head[i])
    requires forall i :: 0 <= i < |tail| ==> !Alnum(tail[i])
    ensures TrimRight(OnePass(head + core + tail, true), Dash) == TrimRight(OnePass(core, true), Dash)
  {
    assert head + core + tail == head + (core + tail);
    OnePassHead(head, core + tail);
    OnePassTail(core, tail, true);
  }

  lemma MapSpaces(lower: char -> char, s: string)
    requires IsLowerMap(lower)
    requires forall i :: 0 <= i < |s| ==> IsSpace(s[i])
    ensures forall i :: 0 <= i < |s| ==> !Alnum(Map(lower, s)[i])
  {
  }

  /** TrimSpace is absorbed: a slug depends on the whole lowered name alone. */
  lemma SlugifyUntrimmed(lower: char -> char, name: string)
    requires IsLowerMap(lower)
    ensures Slugify(lower, name) == TrimRight(OnePass(Map(lower, name), true), Dash)
  {
    SlugifyIsOnePass(lower, name);
    var core := TrimSpace(name);
    var head, tail := TrimParts(name, IsSpace);
    MapSpaces(lower, head);
    MapSpaces(lower, tail);
    OnePassPadding(Map(lower, head), Map(lower, core), Map(lower, tail));
    MapAppend(lower, head + core, tail);
    MapAppend(lower, head, core);
  }

  // ---- what a slug looks like ----

  lemma {:induction false} OnePassShape(t: string, skip: bool)
    ensures var r := OnePass(t, skip);
            && (forall i :: 0 <= i < |r| ==> Alnum(r[i]) || r[i] == '-')
            && (forall i :: 0 <= i < |r| - 1 ==> r[i] == '-' ==> r[i + 1] != '-')
            && (skip && r != [] ==> r[0] != '-')
  {
    if t != [] {
      OnePassShape(t[1..], false);
      OnePassShape(t[1..], true);
    }
  }

  lemma SlugifyShape(lower: char -> char, name: string)
    ensures IsSlug(Slugify(lower, name))
  {
    SlugifyIsOnePass(lower, name);
    OnePassShape(Map(lower, TrimSpace(name)), true);
  }

  lemma {:induction false} OnePassFixed(s: string, skip: bool)
    requires forall i :: 0 <= i < |s| ==> Alnum(s[i]) || s[i] == '-'
    requires forall i :: 0 <= i < |s| - 1 ==> s[i] == '-' ==> s[i + 1] != '-'
    requires skip && s != [] ==> s[0] != '-'
    ensures OnePass(s, skip) == s
  {
    if s != [] {
      assert s == [s[0]] + s[1..];
      OnePassFixed(s[1..], s[0] == '-');
    }
  }

  lemma {:induction false} MapFixed(lower: char -> char, s: string)
    requires IsLowerMap(lower)
    requires forall i :: 0 <= i < |s| ==> Alnum(s[i]) || s[i] == '-'
    ensures Map(lower, s) == s
  {
  }

  /** Slugify is the identity on slugs. */
  lemma SlugifyFixed(lower: char -> char, s: string)
    requires IsLowerMap(lower) && IsSlug(s)
    ensures Slugify(lower, s) == s
  {
    SlugifyUntrimmed(lower, s);
    MapFixed(lower, s);
    OnePassFixed(s, true);
  }

  lemma SlugifyIdempotent(lower: char -> char, name: string)
    requires IsLowerMap(lower)
    ensures Slugify(lower, Slugify(lower, name)) == Slugify(lower, name)
  {
    SlugifyShape(lower, name);
    SlugifyFixed(lower, Slugify(lower, name));
  }

  /** The name a profile stores (trimmed) has the slug of the name given. */
  lemma SlugifyTrimmed(lower: char -> char, name: string)
    ensures Slugify(lower, TrimSpace(name)) == Slugify(lower, name)
  {
    TrimIdempotent(name, IsSpace);
  }

  // ---- name validation ----

  datatype NameError = SlugifiesToEmpty | Reserved

  const RESERVED: set<string> := {"active", "", ".", ".."}

  function ValidateName(lower: char -> char, name: string): Result<string, NameError>
  {
    var slug := Slugify(lower, name);
    if slug == "" then Err(SlugifiesToEmpty)
    else if slug in RESERVED then Err(Reserved)
    else Ok(slug)
  }

  /** Of the four reserved strings only "active" can be hit by a real slug. */
  lemma ValidNames(lower: char -> char, name: string)
    ensures ValidateName(lower, name).Ok? <==>
            Slugify(lower, name) != "" && Slugify(lower, name) != "active"
  {
    SlugifyShape(lower, name);
    var s := Slugify(lower, name);
    assert s != "" ==> s[0] != '.';
  }

  // ---- the stub's loop ----

  lemma ScanStep(s: string, i: nat)
    requires i < |s|
    ensures var t := Map(AsciiLower, s[..i]);
            OnePass(Map(AsciiLower, s[..i + 1]), true) ==
            OnePass(t, true) +
            (if Alnum(AsciiLower(s[i])) then [AsciiLower(s[i])]
             else if AtDash(OnePass(t, true), true) then [] else ['-'])
  {
    assert s[..i + 1] == s[..i] + [s[i]];
    MapAppend(AsciiLower, s[..i], [s[i]]);
    assert Map(AsciiLower, [s[i]]) == [AsciiLower(s[i])];
    OnePassSnoc(Map(AsciiLower, s[..i]), AsciiLower(s[i]), true);
  }

  /** stubSlugify: one scan building `out`, then dropping trailing dashes. */
  method StubSlugify(s: string) returns (out: string)
    ensures out == Slugify(AsciiLower, s)
  {
    out := [];
    var prevDash := true;
    for i := 0 to |s|
      invariant out == OnePass(Map(AsciiLower, s[..i]), true)
      invariant prevDash == AtDash(out, true)
    {
      ScanStep(s, i);
      var r := s[i];
      if 'A' <= r <= 'Z' {
        out := out + [(r as int + ('a' as int - 'A' as int)) as char];
        prevDash := false;
      } else if 'a' <= r <= 'z' || '0' <= r <= '9' {
        out := out + [r];
        prevDash := false;
      } else if !prevDash {
        out := out + ['-'];
        prevDash := true;
      }
    }
    assert s[..|s|] == s;
    ghost var full := out;
    while |out| > 0 && out[|out| - 1] == '-'
      invariant TrimRight(out, Dash) == TrimRight(full, Dash)
    {
      assert out == out[..|out| - 1] + ['-'];
      TrimRightDash(out[..|out| - 1]);
      out := out[..|out| - 1];
    }
    TrimRightUnique(out, Dash, |out|);
    AsciiLowerIsLowerMap();
    SlugifyUntrimmed(AsciiLower, s);
  }

  lemma AsciiLowerIsLowerMap()
    ensures IsLowerMap(AsciiLower)
  {
  }

  /** A character outside ASCII that lowers into a letter or digit: the Kelvin sign is one. */
  predicate FoldsIntoAscii(lower: char -> char, c: char)
  {
    c as int >= 128 && Alnum(lower(c))
  }

  function AlnumCount(s: string): nat
  {
    if s == [] then 0 else (if Alnum(s[0]) then 1 else 0) + AlnumCount(s[1..])
  }

  lemma {:induction false} OnePassKeepsCount(t: string, skip: bool)
    ensures AlnumCount(OnePass(t, skip)) == AlnumCount(t)
  {
    if t != [] {
      OnePassKeepsCount(t[1..], !Alnum(t[0]));
      var r := OnePass(t[1..], !Alnum(t[0]));
      assert ([t[0]] + r)[1..] == r && (['-'] + r)[1..] == r;
    }
  }

  lemma {:induction false} CountAppend(a: string, b: string)
    ensures AlnumCount(a + b) == AlnumCount(a) + AlnumCount(b)
  {
    if a == [] {
      assert a + b == b;
    } else {
      assert (a + b)[1..] == a[1..] + b;
      CountAppend(a[1..], b);
    }
  }

  lemma {:induction false} TrimKeepsCount(s: string)
    ensures AlnumCount(TrimRight(s, Dash)) == AlnumCount(s)
  {
    if s != [] && Dash(s[|s| - 1]) {
      var front := s[..|s| - 1];
      assert s == front + ['-'];
      CountAppend(front, ['-']);
      TrimKeepsCount(front);
      TrimRightDash(front);
    } else {
      TrimRightUnique(s, Dash, |s|);
      assert s[..|s|] == s;
    }
  }

  lemma {:induction false} MoreLetters(lower: char -> char, s: string)
    requires IsLowerMap(lower)
    ensures AlnumCount(Map(lower, s)) >= AlnumCount(Map(AsciiLower, s))
    ensures (exists c :: c in s && FoldsIntoAscii(lower, c)) ==>
              AlnumCount(Map(lower, s)) > AlnumCount(Map(AsciiLower, s))
  {
    if s != [] {
      MoreLetters(lower, s[1..]);
      assert Map(lower, s)[1..] == Map(lower, s[1..]);
      assert Map(AsciiLower, s)[1..] == Map(AsciiLower, s[1..]);
      assert forall c :: c in s <==> c == s[0] || c in s[1..];
    }
  }

  lemma {:induction false} OnePassAgrees(t: string, u: string, skip: bool)
    requires |t| == |u|
    requires forall i :: 0 <= i < |t| ==> t[i] == u[i] || (!Alnum(t[i]) && !Alnum(u[i]))
    ensures OnePass(t, skip) == OnePass(u, skip)
  {
    if t != [] {
      OnePassAgrees(t[1..], u[1..], !Alnum(t[0]));
    }
  }

  /**
    The stub's slug is the production slug exactly when no character outside
    ASCII lowers into a letter or digit; in particular on every ASCII string.
  */
  lemma StubAgreement(lower: char -> char, s: string)
    requires IsLowerMap(lower)
    ensures Slugify(AsciiLower, s) == Slugify(lower, s)
            <==> !(exists c :: c in s && FoldsIntoAscii(lower, c))
  {
    AsciiLowerIsLowerMap();
    SlugifyUntrimmed(lower, s);
    SlugifyUntrimmed(AsciiLower, s);
    var t, u := Map(lower, s), Map(AsciiLower, s);
    if exists c :: c in s && FoldsIntoAscii(lower, c) {
      MoreLetters(lower, s);
      OnePassKeepsCount(t, true);
      OnePassKeepsCount(u, true);
      TrimKeepsCount(OnePass(t, true));
      TrimKeepsCount(OnePass(u, true));
    } else {
      forall i | 0 <= i < |t|
        ensures t[i] == u[i] || (!Alnum(t[i]) && !Alnum(u[i]))
      {
        assert s[i] in s;
        assert !FoldsIntoAscii(lower, s[i]);
      }
      OnePassAgrees(t, u, true);
    }
  }
}
