/**
  The daemon's config file: the printer in Save, the line parser, and exactly
  which configs survive being written and read again.
*/
module ConfigFile {
  import opened Results
  import opened Text
  import opened Modes

  /** `mode` is Other("") when the file sets none. */
  datatype PersistedConfig = PersistedConfig(
    mode: Mode, servers: seq<string>, searchDomains: seq<string>, matchDomains: seq<string>)

  const UNSET: Mode := Other("")

  const EMPTY: PersistedConfig := PersistedConfig(UNSET, [], [], [])

  // ---- characters and lists ----

  function Join(parts: seq<string>, sep: char): string
  {
    if parts == [] then ""
    else if |parts| == 1 then parts[0]
    else parts[0] + [sep] + Join(parts[1..], sep)
  }

  /** strings.Split on a single character: always at least one part. */
  function Split(s: string, sep: char): (parts: seq<string>)
    ensures parts != []
  {
    if s == "" then [""]
    else
      var rest := Split(s[1..], sep);
      if s[0] == sep then [""] + rest else [[s[0]] + rest[0]] + rest[1..]
  }

  lemma {:induction false} SplitSingle(s: string, sep: char)
    requires sep !in s
    ensures Split(s, sep) == [s]
  {
    if s != "" {
      SplitSingle(s[1..], sep);
      assert [s[0]] + s[1..] == s;
    }
  }

  lemma {:induction false} SplitFirst(a: string, s: string, sep: char)
    requires sep !in a
    ensures Split(a + [sep] + s, sep) == [a] + Split(s, sep)
  {
    if a == "" {
      assert a + [sep] + s == [sep] + s;
      assert ([sep] + s)[1..] == s;
    } else {
      SplitFirst(a[1..], s, sep);
      assert (a + [sep] + s)[1..] == a[1..] + [sep] + s;
      var rest := [a[1..]] + Split(s, sep);
      assert [a[0]] + rest[0] == a && rest[1..] == Split(s, sep);
    }
  }

  lemma {:induction false} SplitJoin(parts: seq<string>, sep: char)
    requires parts != [] && forall i :: 0 <= i < |parts| ==> sep !in parts[i]
    ensures Split(Join(parts, sep), sep) == parts
  {
    if |parts| == 1 {
      SplitSingle(parts[0], sep);
    } else {
      SplitJoin(parts[1..], sep);
      SplitFirst(parts[0], Join(parts[1..], sep), sep);
    }
  }

  function Count(c: char, s: string): nat
  {
    if s == "" then 0 else (if s[0] == c then 1 else 0) + Count(c, s[1..])
  }

  lemma {:induction false} CountAppend(c: char, a: string, b: string)
    ensures Count(c, a + b) == Count(c, a) + Count(c, b)
  {
    if a == "" {
      assert a + b == b;
    } else {
      assert (a + b)[1..] == a[1..] + b;
      CountAppend(c, a[1..], b);
    }
  }

  lemma {:induction false} CountNone(c: char, s: string)
    requires c !in s
    ensures Count(c, s) == 0
  {
    if s != "" {
      CountNone(c, s[1..]);
    }
  }

  function Total(c: char, parts: seq<string>): nat
  {
    if parts == [] then 0 else Count(c, parts[0]) + Total(c, parts[1..])
  }

  lemma {:induction false} TotalJoin(c: char, parts: seq<string>, sep: char)
    requires c != sep
    ensures Count(c, Join(parts, sep)) == Total(c, parts)
  {
    if |parts| == 1 {
      assert parts[1..] == [];
    } else if |parts| > 1 {
      TotalJoin(c, parts[1..], sep);
      CountAppend(c, parts[0] + [sep], Join(parts[1..], sep));
      CountAppend(c, parts[0], [sep]);
    }
  }

  // ---- splitCSV ----

  predicate IsClean(part: string)
  {
    part != "" && ',' !in part && TrimSpace(part) == part
  }

  /** The trimmed non-empty parts, in order. */
  function Kept(parts: seq<string>): seq<string>
  {
    if parts == [] then []
    else
      var p := TrimSpace(parts[|parts| - 1]);
      Kept(parts[..|parts| - 1]) + if p != "" then [p] else []
  }

  function Csv(s: string): seq<string>
  {
    Kept(Split(s, ','))
  }

  method SplitCSV(s: string) returns (out: seq<string>)
    ensures out == Csv(s)
    ensures forall i :: 0 <= i < |out| ==> IsClean(out[i])
  {
    out := [];
    var parts := Split(s, ',');
    for k := 0 to |parts|
      invariant out == Kept(parts[..k])
    {
      assert parts[..k + 1][..k] == parts[..k];
      var p := TrimSpace(parts[k]);
      if p != "" {
        out := out + [p];
      }
    }
    assert parts[..|parts|] == parts;
    CsvIsClean(s);
  }

  lemma {:induction false} SplitIsFree(s: string, sep: char)
    ensures forall i :: 0 <= i < |Split(s, sep)| ==> sep !in Split(s, sep)[i]
  {
    if s != "" {
      SplitIsFree(s[1..], sep);
    }
  }

  lemma {:induction false} KeptIsClean(parts: seq<string>)
    requires forall i :: 0 <= i < |parts| ==> ',' !in parts[i]
    ensures forall i :: 0 <= i < |Kept(parts)| ==> IsClean(Kept(parts)[i])
  {
    if parts != [] {
      var front, last := parts[..|parts| - 1], parts[|parts| - 1];
      KeptIsClean(front);
      TrimIdempotent(last, IsSpace);
      var head, tail := TrimParts(last, IsSpace);
      assert ',' !in TrimSpace(last);
    }
  }

  /** Every entry a list is read into is non-empty, comma-free and trimmed. */
  lemma CsvIsClean(s: string)
    ensures forall i :: 0 <= i < |Csv(s)| ==> IsClean(Csv(s)[i])
  {
    SplitIsFree(s, ',');
    KeptIsClean(Split(s, ','));
  }

  lemma {:induction false} KeptFixed(parts: seq<string>)
    requires forall i :: 0 <= i < |parts| ==> IsClean(parts[i])
    ensures Kept(parts) == parts
  {
    hide TrimSpace;
    if parts != [] {
      KeptFixed(parts[..|parts| - 1]);
      assert parts[..|parts| - 1] + [parts[|parts| - 1]] == parts;
    }
  }

  /** Reading a comma-joined list gives it back exactly when its entries are clean. */
  lemma CsvJoin(entries: seq<string>)
    ensures Csv(Join(entries, ',')) == entries <==> forall i :: 0 <= i < |entries| ==> IsClean(entries[i])
  {
    CsvIsClean(Join(entries, ','));
    if entries == [] {
      assert Split("", ',') == [""];
      assert TrimSpace("") == "";
      assert [""][..0] == [];
    } else if forall i :: 0 <= i < |entries| ==> IsClean(entries[i]) {
      SplitJoin(entries, ',');
      KeptFixed(entries);
    }
  }

  /** Splitting and trimming lose no character other than commas and white space. */
  lemma {:induction false} KeptTotal(c: char, parts: seq<string>)
    requires !IsSpace(c)
    ensures Total(c, Kept(parts)) == Total(c, parts)
  {
    hide TrimSpace;
    if parts != [] {
      var front, last := parts[..|parts| - 1], parts[|parts| - 1];
      KeptTotal(c, front);
      TrimSpaceCount(c, last);
      TotalSnoc(c, front, last);
      assert parts == front + [last];
      if TrimSpace(last) != "" {
        TotalSnoc(c, Kept(front), TrimSpace(last));
      } else {
        assert Kept(front) + [] == Kept(front);
        NoCount(c);
      }
    }
  }

  lemma TrimSpaceCount(c: char, s: string)
    requires !IsSpace(c)
    ensures Count(c, TrimSpace(s)) == Count(c, s)
  {
    TrimCount(c, s, IsSpace);
  }

  lemma NoCount(c: char)
    ensures Count(c, "") == 0
  {
  }

  lemma {:induction false} TotalSnoc(c: char, parts: seq<string>, last: string)
    ensures Total(c, parts + [last]) == Total(c, parts) + Count(c, last)
  {
    if parts == [] {
      assert parts + [last] == [last];
      assert [last][1..] == [];
    } else {
      assert (parts + [last])[1..] == parts[1..] + [last];
      TotalSnoc(c, parts[1..], last);
    }
  }

  lemma TrimCount(c: char, s: string, p: char -> bool)
    requires !p(c)
    ensures Count(c, Trim(s, p)) == Count(c, s)
  {
    var head, tail := TrimParts(s, p);
    CountAppend(c, head + Trim(s, p), tail);
    CountAppend(c, head, Trim(s, p));
    CountNone(c, head);
    CountNone(c, tail);
  }

  lemma CsvCount(c: char, s: string)
    requires !IsSpace(c) && c != ','
    ensures Total(c, Csv(s)) == Count(c, s)
  {
    KeptTotal(c, Split(s, ','));
    SplitTotal(c, s);
  }

  lemma {:induction false} SplitTotal(c: char, s: string)
    requires c != ','
    ensures Total(c, Split(s, ',')) == Count(c, s)
  {
    if s != "" {
      SplitTotal(c, s[1..]);
      var rest := Split(s[1..], ',');
      if s[0] == ',' {
        assert ([""] + rest)[1..] == rest;
      } else {
        CountAppend(c, [s[0]], rest[0]);
        assert ([[s[0]] + rest[0]] + rest[1..])[1..] == rest[1..];
      }
    }
  }

  // ---- quoting ----

  /** The %q verb: plain characters stand for themselves, the others are escaped. */
  datatype Quoting = Quoting(plain: char -> bool, escape: char -> string)

  /**
    What is used of strconv.Quote: visible ASCII other than quote and backslash
    is plain, the only plain white space is the blank, and an escape is on one
    line and holds one more backslash than the character it stands for.
  */
  ghost predicate IsQuoting(q: Quoting)
  {
    && (forall c: char :: 32 <= c as int < 127 && c != '"' && c != '\\' ==> q.plain(c))
    && !q.plain('"') && !q.plain('\\')
    && (forall c: char :: q.plain(c) && IsSpace(c) ==> c == ' ')
    && (forall c: char :: !q.plain(c) ==> '\n' !in q.escape(c) && Count('\\', q.escape(c)) > Count('\\', [c]))
  }

  function Escaped(q: Quoting, s: string): string
  {
    if s == "" then "" else (if q.plain(s[0]) then [s[0]] else q.escape(s[0])) + Escaped(q, s[1..])
  }

  function Quote(q: Quoting, s: string): string
  {
    "\"" + Escaped(q, s) + "\""
  }

  predicate IsPlain(q: Quoting, s: string)
  {
    forall i :: 0 <= i < |s| ==> q.plain(s[i])
  }

  lemma {:induction false} EscapedPlain(q: Quoting, s: string)
    requires IsPlain(q, s)
    ensures Escaped(q, s) == s
  {
    if s != "" {
      EscapedPlain(q, s[1..]);
    }
  }

  lemma {:induction false} EscapedOneLine(q: Quoting, s: string)
    requires IsQuoting(q)
    ensures '\n' !in Escaped(q, s)
  {
    if s != "" {
      EscapedOneLine(q, s[1..]);
    }
  }

  /** Each escape leaves a backslash more than there was. */
  lemma {:induction false} EscapedBackslashes(q: Quoting, s: string)
    requires IsQuoting(q)
    ensures Count('\\', Escaped(q, s)) >= Count('\\', s)
    ensures Count('\\', Escaped(q, s)) == Count('\\', s) ==> IsPlain(q, s)
  {
    if s != "" {
      EscapedBackslashes(q, s[1..]);
      assert s == [s[0]] + s[1..];
      CountAppend('\\', [s[0]], s[1..]);
      CountAppend('\\', if q.plain(s[0]) then [s[0]] else q.escape(s[0]), Escaped(q, s[1..]));
    }
  }

  // ---- a quoted value, read again ----

  predicate IsQuote(c: char)
  {
    c == '"' || c == '\''
  }

  /** What the parser makes of the quoted form of a joined list. */
  function Reread(q: Quoting, entries: seq<string>): seq<string>
  {
    Csv(Trim(Quote(q, Join(entries, ',')), IsQuote))
  }

  /** The lists a write and a read give back: a caller can check this before saving. */
  predicate Survives(q: Quoting, entries: seq<string>)
  {
    && (forall i :: 0 <= i < |entries| ==> IsClean(entries[i]) && IsPlain(q, entries[i]))
    && (entries != [] && entries[0] != "" ==> entries[0][0] != '\'')
    && (entries != [] && entries[|entries| - 1] != "" ==> entries[|entries| - 1][|entries[|entries| - 1]| - 1] != '\'')
  }

  lemma {:induction false} JoinEnds(entries: seq<string>, sep: char)
    requires entries != [] && forall i :: 0 <= i < |entries| ==> entries[i] != ""
    ensures var j := Join(entries, sep);
            && j != "" && j[0] == entries[0][0]
            && j[|j| - 1] == entries[|entries| - 1][|entries[|entries| - 1]| - 1]
  {
    if |entries| > 1 {
      var rest := entries[1..];
      JoinEnds(rest, sep);
      assert rest[|rest| - 1] == entries[|entries| - 1];
      var j, front, r := Join(entries, sep), entries[0] + [sep], Join(rest, sep);
      assert j == front + r;
      assert j[|j| - 1] == r[|r| - 1];
    }
  }

  lemma {:induction false} JoinPlain(q: Quoting, entries: seq<string>)
    requires IsQuoting(q)
    ensures IsPlain(q, Join(entries, ',')) <==> forall i :: 0 <= i < |entries| ==> IsPlain(q, entries[i])
  {
    if |entries| > 1 {
      var j, a, rest := Join(entries, ','), entries[0], Join(entries[1..], ',');
      JoinPlain(q, entries[1..]);
      assert j == a + [','] + rest;
      assert forall i :: 0 <= i < |a| ==> j[i] == a[i];
      assert forall i :: 0 <= i < |rest| ==> rest[i] == j[|a| + 1 + i];
      assert forall i :: 1 <= i < |entries| ==> entries[i] == entries[1..][i - 1];
      assert forall i :: 0 <= i < |entries[1..]| ==> entries[1..][i] == entries[i + 1];
    }
  }

  /** Trimming quotes from a quoted plain string strips exactly the apostrophes at its ends as well. */
  lemma TrimQuoted(q: Quoting, s: string)
    requires IsQuoting(q) && IsPlain(q, s)
    ensures Trim("\"" + s + "\"", IsQuote) == Trim(s, IsQuote)
  {
    TrimWrapped("\"", s, "\"", IsQuote);
  }

  lemma TrimWrapped(a: string, s: string, b: string, p: char -> bool)
    requires (forall i :: 0 <= i < |a| ==> p(a[i])) && (forall i :: 0 <= i < |b| ==> p(b[i]))
    ensures Trim(a + s + b, p) == Trim(s, p)
  {
    hide Trim;
    var head, tail := TrimParts(s, p);
    var t := Trim(s, p);
    TrimEnds(s, p);
    TrimBetween(a + head, t, tail + b, p);
    assert a + s + b == (a + head) + t + (tail + b);
  }

  /** Whatever trimmable ends surround a string whose own ends survive, trimming gives it back. */
  lemma TrimBetween(head: string, t: string, tail: string, p: char -> bool)
    requires (forall i :: 0 <= i < |head| ==> p(head[i])) && (forall i :: 0 <= i < |tail| ==> p(tail[i]))
    requires t != "" ==> !p(t[0]) && !p(t[|t| - 1])
    ensures Trim(head + t + tail, p) == t
  {
    var s := head + t + tail;
    if t == "" {
      assert forall k :: 0 <= k < |s| ==> p(s[k]);
      TrimLeftUnique(s, p, |s|);
    } else {
      TrimLeftUnique(s, p, |head|);
      assert s[|head|..] == t + tail;
      TrimRightUnique(t + tail, p, |t|);
    }
  }

  lemma TrimEnds(s: string, p: char -> bool)
    ensures var t := Trim(s, p); t != "" ==> !p(t[0]) && !p(t[|t| - 1])
  {
  }

  /** An apostrophe at an end is lost. */
  lemma ApostropheLost(s: string)
    requires s != "" && '"' !in s && (s[0] == '\'' || s[|s| - 1] == '\'')
    ensures Count('\'', Trim(s, IsQuote)) < Count('\'', s)
  {
    hide Trim, Count;
    var head, tail := TrimParts(s, IsQuote);
    var t := Trim(s, IsQuote);
    TrimEnds(s, IsQuote);
    CountAppend('\'', head + t, tail);
    CountAppend('\'', head, t);
    SomethingTrimmed(s, head, t, tail);
    if head != "" {
      CountFirst(head);
    } else {
      CountFirst(tail);
    }
  }

  lemma SomethingTrimmed(s: string, head: string, t: string, tail: string)
    requires s == head + t + tail && s != "" && (IsQuote(s[0]) || IsQuote(s[|s| - 1]))
    requires t != "" ==> !IsQuote(t[0]) && !IsQuote(t[|t| - 1])
    ensures head != "" || tail != ""
  {
  }

  lemma CountFirst(s: string)
    requires s != "" && '"' !in s && forall i :: 0 <= i < |s| ==> IsQuote(s[i])
    ensures Count('\'', s) > 0
  {
    assert s[0] in s;
  }

  lemma SurvivorsReread(q: Quoting, entries: seq<string>)
    requires IsQuoting(q) && Survives(q, entries)
    ensures Reread(q, entries) == entries
  {
    var j := Join(entries, ',');
    JoinPlain(q, entries);
    EscapedPlain(q, j);
    TrimQuoted(q, j);
    if entries != [] {
      JoinEnds(entries, ',');
      assert q.plain(j[0]) && q.plain(j[|j| - 1]);
    }
    TrimFixed(j, IsQuote);
    CsvJoin(entries);
  }

  lemma CleanNotEmpty(entries: seq<string>)
    requires forall i :: 0 <= i < |entries| ==> IsClean(entries[i])
    ensures forall i :: 0 <= i < |entries| ==> entries[i] != ""
  {
  }

  /** Reading back what is written never loses a backslash, and gains one for each escape. */
  lemma RereadBackslashes(q: Quoting, entries: seq<string>)
    requires IsQuoting(q)
    ensures Total('\\', Reread(q, entries)) >= Total('\\', entries)
    ensures Total('\\', Reread(q, entries)) == Total('\\', entries) ==> IsPlain(q, Join(entries, ','))
  {
    var j := Join(entries, ',');
    var e := Escaped(q, j);
    TrimCount('\\', Quote(q, j), IsQuote);
    CountAppend('\\', "\"" + e, "\"");
    CountAppend('\\', "\"", e);
    CsvCount('\\', Trim(Quote(q, j), IsQuote));
    TotalJoin('\\', entries, ',');
    EscapedBackslashes(q, j);
  }

  // ---- lines ----

  const HEADER: string := TITLE + ORIGIN + TOOL + SETUP
  const TITLE: string := "# goat-client config"
  const ORIGIN: string := " (v0.2). Managed by"
  const TOOL: string := " `goat-client setmode`"
  const SETUP: string := " or the installer."
  const MODE_KEY: string := "mode"
  const SERVERS_KEY: string := "mesh_dns_servers"
  const SEARCH_KEY: string := "mesh_dns_search_domains"
  const MATCH_KEY: string := "mesh_dns_match_domains"

  function Line(q: Quoting, key: string, val: string): string
  {
    key + " = " + Quote(q, val)
  }

  function ListLine(q: Quoting, key: string, entries: seq<string>): seq<string>
  {
    if entries == [] then [] else [Line(q, key, Join(entries, ','))]
  }

  function Lines(q: Quoting, cfg: PersistedConfig): seq<string>
  {
    [HEADER, Line(q, MODE_KEY, Modes.String(cfg.mode))] + ListLine(q, SERVERS_KEY, cfg.servers)
    + ListLine(q, SEARCH_KEY, cfg.searchDomains) + ListLine(q, MATCH_KEY, cfg.matchDomains)
  }

  /** Every line is ended by a newline. */
  function Terminated(lines: seq<string>): string
  {
    if lines == [] then "" else Terminated(lines[..|lines| - 1]) + lines[|lines| - 1] + "\n"
  }

  predicate Savable(cfg: PersistedConfig)
  {
    cfg.mode == UNSET || Modes.Valid(cfg.mode)
  }

  /** The body Save writes, unless it refuses the mode. */
  function Rendered(q: Quoting, cfg: PersistedConfig): Option<string>
  {
    if Savable(cfg) then Some(Terminated(Lines(q, cfg))) else None
  }

  method Save(q: Quoting, cfg: PersistedConfig) returns (body: Option<string>)
    ensures body == Rendered(q, cfg)
  {
    hide Quote, Join, Terminated, HEADER, MODE_KEY;
    if Modes.String(cfg.mode) != "" && !Modes.Valid(cfg.mode) {
      return None;
    }
    ghost var lines := [HEADER, Line(q, MODE_KEY, Modes.String(cfg.mode))];
    TerminatedSnoc([], HEADER);
    TerminatedSnoc([HEADER], lines[1]);
    assert [] + [HEADER] == [HEADER] && [HEADER] + [lines[1]] == lines;
    assert Terminated([]) == "" by { NoLines(); }
    var b := HEADER + "\n" + MODE_KEY + " = " + Quote(q, Modes.String(cfg.mode)) + "\n";
    assert b == Terminated(lines);
    b := SaveList(q, b, lines, SERVERS_KEY, cfg.servers);
    b := SaveList(q, b, lines + ListLine(q, SERVERS_KEY, cfg.servers), SEARCH_KEY, cfg.searchDomains);
    b := SaveList(q, b, lines + ListLine(q, SERVERS_KEY, cfg.servers) + ListLine(q, SEARCH_KEY, cfg.searchDomains),
                  MATCH_KEY, cfg.matchDomains);
    return Some(b);
  }

  /** One optional key of the printer, after the lines already in b. */
  method SaveList(q: Quoting, b: string, ghost lines: seq<string>, key: string,
                  entries: seq<string>) returns (b': string)
    requires b == Terminated(lines)
    ensures b' == Terminated(lines + ListLine(q, key, entries))
  {
    b' := b;
    if |entries| > 0 {
      TerminatedSnoc(lines, Line(q, key, Join(entries, ',')));
      b' := b' + key + " = " + Quote(q, Join(entries, ',')) + "\n";
    } else {
      assert lines + [] == lines;
    }
  }

  lemma NoLines()
    ensures Terminated([]) == ""
  {
  }

  lemma TerminatedSnoc(lines: seq<string>, last: string)
    ensures Terminated(lines + [last]) == Terminated(lines) + last + "\n"
  {
    assert (lines + [last])[..|lines|] == lines;
  }

  /** Where the first c stands, or the length. */
  function IndexOf(s: string, c: char): (i: nat)
    ensures i <= |s| && (i < |s| ==> s[i] == c)
    ensures forall k :: 0 <= k < i ==> s[k] != c
  {
    if s == "" || s[0] == c then 0 else 1 + IndexOf(s[1..], c)
  }

  function SetKey(lower: char -> char, cfg: PersistedConfig, key: string, val: string): Result<PersistedConfig, string>
  {
    if key == MODE_KEY then
      if val == "" then Ok(cfg)
      else
        match Modes.Parse(lower, val)
        case None => Err(val)
        case Some(m) => Ok(cfg.(mode := m))
    else if key == SERVERS_KEY then Ok(cfg.(servers := Csv(val)))
    else if key == SEARCH_KEY then Ok(cfg.(searchDomains := Csv(val)))
    else if key == MATCH_KEY then Ok(cfg.(matchDomains := Csv(val)))
    else Ok(cfg)
  }

  /** What one line of the file does; a comment, a blank line and a line without '=' do nothing. */
  function ReadLine(lower: char -> char, cfg: PersistedConfig, raw: string): Result<PersistedConfig, string>
  {
    var line := TrimSpace(raw);
    if line == "" || line[0] == '#' then Ok(cfg)
    else
      var i := IndexOf(line, '=');
      if i == |line| then Ok(cfg)
      else SetKey(lower, cfg, TrimSpace(line[..i]), Trim(TrimSpace(line[i + 1..]), IsQuote))
  }

  function ReadLines(lower: char -> char, lines: seq<string>): Result<PersistedConfig, string>
  {
    if lines == [] then Ok(EMPTY)
    else
      match ReadLines(lower, lines[..|lines| - 1])
      case Err(e) => Err(e)
      case Ok(cfg) => ReadLine(lower, cfg, lines[|lines| - 1])
  }

  /** The config a file's text means, or the mode it fails on. */
  function Read(lower: char -> char, body: string): Result<PersistedConfig, string>
  {
    ReadLines(lower, Split(body, '\n'))
  }

  /** The first failing line decides, whatever follows. */
  lemma {:induction false} FirstErrorWins(lower: char -> char, lines: seq<string>, k: nat)
    requires k <= |lines| && ReadLines(lower, lines[..k]).Err?
    ensures ReadLines(lower, lines) == ReadLines(lower, lines[..k])
    decreases |lines|
  {
    if k < |lines| {
      assert lines[..|lines| - 1][..k] == lines[..k];
      FirstErrorWins(lower, lines[..|lines| - 1], k);
    } else {
      assert lines[..k] == lines;
    }
  }

  method Parse(lower: char -> char, body: string) returns (r: Result<PersistedConfig, string>)
    ensures r == Read(lower, body)
  {
    hide ReadLine;
    var cfg := EMPTY;
    var lines := Split(body, '\n');
    for k := 0 to |lines|
      invariant ReadLines(lower, lines[..k]) == Ok(cfg)
    {
      assert lines[..k + 1][..k] == lines[..k];
      var next := ReadRaw(lower, cfg, lines[k]);
      if next.Err? {
        FirstErrorWins(lower, lines, k + 1);
        return next;
      }
      cfg := next.value;
    }
    assert lines[..|lines|] == lines;
    return Ok(cfg);
  }

  /** One turn of the parse loop. */
  method ReadRaw(lower: char -> char, cfg: PersistedConfig, raw: string) returns (r: Result<PersistedConfig, string>)
    ensures r == ReadLine(lower, cfg, raw)
  {
    var line := TrimSpace(raw);
    if |line| == 0 || line[0] == '#' {
      return Ok(cfg);
    }
    var i := IndexOf(line, '=');
    if i == |line| {
      return Ok(cfg);
    }
    var key := TrimSpace(line[..i]);
    var val := Trim(TrimSpace(line[i + 1..]), IsQuote);
    if key == MODE_KEY {
      if val == "" {
        return Ok(cfg);
      }
      var m := Modes.Parse(lower, val);
      if m.None? {
        return Err(val);
      }
      return Ok(cfg.(mode := m.value));
    } else if key == SERVERS_KEY {
      var out := SplitCSV(val);
      return Ok(cfg.(servers := out));
    } else if key == SEARCH_KEY {
      var out := SplitCSV(val);
      return Ok(cfg.(searchDomains := out));
    } else if key == MATCH_KEY {
      var out := SplitCSV(val);
      return Ok(cfg.(matchDomains := out));
    }
    return Ok(cfg);
  }

  predicate AllClean(entries: seq<string>)
  {
    forall i :: 0 <= i < |entries| ==> IsClean(entries[i])
  }

  lemma ReadLineIsClean(lower: char -> char, cfg: PersistedConfig, raw: string)
    requires AllClean(cfg.servers) && AllClean(cfg.searchDomains) && AllClean(cfg.matchDomains)
    ensures var r := ReadLine(lower, cfg, raw);
            r.Ok? ==> AllClean(r.value.servers) && AllClean(r.value.searchDomains) && AllClean(r.value.matchDomains)
  {
    hide Csv, IsClean, TrimSpace, Modes.Parse;
    var line := TrimSpace(raw);
    var i := IndexOf(line, '=');
    if i < |line| {
      CsvIsClean(Trim(TrimSpace(line[i + 1..]), IsQuote));
    }
  }

  /** The lists of any file that is read at all have clean entries only. */
  lemma {:induction false} ReadLinesAreClean(lower: char -> char, lines: seq<string>)
    ensures var r := ReadLines(lower, lines);
            r.Ok? ==> AllClean(r.value.servers) && AllClean(r.value.searchDomains) && AllClean(r.value.matchDomains)
  {
    hide ReadLine, IsClean;
    if lines != [] {
      ReadLinesAreClean(lower, lines[..|lines| - 1]);
      var r := ReadLines(lower, lines[..|lines| - 1]);
      if r.Ok? {
        ReadLineIsClean(lower, r.value, lines[|lines| - 1]);
      }
    }
  }

  /** What the keys mean: each list key its own list, the mode key a mode or an error, any other key nothing. */
  lemma KeysMean(lower: char -> char, cfg: PersistedConfig, key: string, entries: seq<string>, m: Mode, text: string)
    requires AllClean(entries)
    ensures SetKey(lower, cfg, "mesh_dns_servers", Join(entries, ',')) == Ok(cfg.(servers := entries))
    ensures SetKey(lower, cfg, "mesh_dns_search_domains", Join(entries, ',')) == Ok(cfg.(searchDomains := entries))
    ensures SetKey(lower, cfg, "mesh_dns_match_domains", Join(entries, ',')) == Ok(cfg.(matchDomains := entries))
    ensures SetKey(lower, cfg, "mode", "") == Ok(cfg)
    ensures IsLowerMap(lower) && Modes.Valid(m) ==>
              SetKey(lower, cfg, "mode", Modes.String(m)) == Ok(cfg.(mode := m))
    ensures text != "" && Modes.Parse(lower, text).None? ==> SetKey(lower, cfg, "mode", text) == Err(text)
    ensures key !in {"mode", "mesh_dns_servers", "mesh_dns_search_domains", "mesh_dns_match_domains"} ==>
              SetKey(lower, cfg, key, text) == Ok(cfg)
  {
    hide Csv, Join, IsClean, IsLowerMap, Modes.Parse;
    CsvJoin(entries);
    assert |"mode"| < |"mesh_dns_servers"| < |"mesh_dns_match_domains"| < |"mesh_dns_search_domains"|;
    if IsLowerMap(lower) && Modes.Valid(m) {
      ParseString(lower, m);
    }
  }

  /** A file that is read at all names a known mode, or none. */
  lemma {:induction false} ReadModeIsKnown(lower: char -> char, lines: seq<string>)
    ensures var r := ReadLines(lower, lines); r.Ok? ==> r.value.mode == UNSET || Modes.Valid(r.value.mode)
  {
    hide Csv, IsClean, TrimSpace, Trim, Modes.Parse, IndexOf;
    if lines != [] {
      var raw := TrimSpace(lines[|lines| - 1]);
      ReadModeIsKnown(lower, lines[..|lines| - 1]);
      if IndexOf(raw, '=') < |raw| {
        ParseIsValid(lower, Trim(TrimSpace(raw[IndexOf(raw, '=') + 1..]), IsQuote));
      }
    }
  }

  // ---- written, then read ----

  /** A key as the printer writes it: lower-case letters and underscores. */
  predicate IsKey(key: string)
  {
    key != "" && forall i :: 0 <= i < |key| ==> 'a' <= key[i] <= 'z' || key[i] == '_'
  }

  lemma Keys()
    ensures IsKey(MODE_KEY) && IsKey(SERVERS_KEY) && IsKey(SEARCH_KEY) && IsKey(MATCH_KEY)
  {
  }

  predicate OneLine(s: string)
  {
    forall i :: 0 <= i < |s| ==> s[i] != '\n'
  }

  lemma HeaderIsOneLine()
    ensures OneLine(HEADER)
  {
  }

  lemma CommentReads(lower: char -> char, cfg: PersistedConfig, s: string)
    requires s != "" && s[0] == '#' && !IsSpace(s[|s| - 1])
    ensures ReadLine(lower, cfg, s) == Ok(cfg)
  {
    TrimFixed(s, IsSpace);
  }

  lemma HeaderIsComment(lower: char -> char, cfg: PersistedConfig)
    ensures ReadLine(lower, cfg, HEADER) == Ok(cfg)
  {
    hide ReadLine;
    HeaderEnds();
    CommentReads(lower, cfg, HEADER);
  }

  lemma HeaderEnds()
    ensures HEADER != "" && HEADER[0] == '#' && HEADER[|HEADER| - 1] == '.'
  {
    var front := TITLE + ORIGIN + TOOL;
    assert HEADER == front + SETUP && SETUP[|SETUP| - 1] == '.' && TITLE[0] == '#';
  }

  lemma LineIsOneLine(q: Quoting, key: string, val: string)
    requires IsQuoting(q) && IsKey(key)
    ensures '\n' !in Line(q, key, val)
  {
    EscapedOneLine(q, val);
  }

  /** A printed line is read as its key with the quotes trimmed off its quoted value. */
  lemma LineReads(lower: char -> char, q: Quoting, cfg: PersistedConfig, key: string, val: string)
    requires IsKey(key)
    ensures ReadLine(lower, cfg, Line(q, key, val)) == SetKey(lower, cfg, key, Trim(Quote(q, val), IsQuote))
  {
    hide ReadLine, SetKey, Trim, Escaped;
    KeyValueReads(lower, cfg, key, Quote(q, val));
  }

  /** The same for any value that starts and ends with a quotation mark. */
  lemma KeyValueReads(lower: char -> char, cfg: PersistedConfig, key: string, quoted: string)
    requires IsKey(key) && quoted != "" && quoted[0] == '"' && quoted[|quoted| - 1] == '"'
    ensures ReadLine(lower, cfg, key + " = " + quoted) == SetKey(lower, cfg, key, Trim(quoted, IsQuote))
  {
    hide Trim, SetKey, IndexOf;
    var line := key + " = " + quoted;
    TrimFixed(line, IsSpace);
    assert line == key + " " + "=" + " " + quoted;
    IndexUnique(line, '=', |key| + 1);
    assert line[..|key| + 1] == "" + key + " ";
    assert line[|key| + 2..] == " " + quoted + "";
    TrimBetween("", key, " ", IsSpace);
    TrimBetween(" ", quoted, "", IsSpace);
  }

  lemma IndexUnique(s: string, c: char, i: nat)
    requires i < |s| && s[i] == c && forall k :: 0 <= k < i ==> s[k] != c
    ensures IndexOf(s, c) == i
  {
    var n := IndexOf(s, c);
    assert n <= i && i <= n;
  }

  lemma {:induction false} SplitTerminated(lines: seq<string>, tail: string)
    requires forall i :: 0 <= i < |lines| ==> '\n' !in lines[i]
    ensures Split(Terminated(lines) + tail, '\n') == lines + Split(tail, '\n')
  {
    hide Split;
    if lines == [] {
      assert Terminated(lines) + tail == tail;
    } else {
      var front, last := lines[..|lines| - 1], lines[|lines| - 1];
      SplitTerminated(front, last + ['\n'] + tail);
      SplitFirst(last, tail, '\n');
      Regroup(Terminated(front), last, ['\n'], tail);
      assert front + [last] == lines;
      assert front + ([last] + Split(tail, '\n')) == (front + [last]) + Split(tail, '\n');
    }
  }

  lemma Regroup(a: string, b: string, c: string, d: string)
    ensures a + b + c + d == a + (b + c + d)
  {
  }

  lemma LinesAreLines(q: Quoting, cfg: PersistedConfig)
    requires IsQuoting(q)
    ensures forall i :: 0 <= i < |Lines(q, cfg)| ==> '\n' !in Lines(q, cfg)[i]
  {
    hide Line, IsQuoting, Join, IsKey;
    Keys();
    HeaderIsOneLine();
    LineIsOneLine(q, MODE_KEY, Modes.String(cfg.mode));
    LineIsOneLine(q, SERVERS_KEY, Join(cfg.servers, ','));
    LineIsOneLine(q, SEARCH_KEY, Join(cfg.searchDomains, ','));
    LineIsOneLine(q, MATCH_KEY, Join(cfg.matchDomains, ','));
  }

  /** Saved and loaded: the config read back from what is written. */
  function Reloaded(lower: char -> char, q: Quoting, cfg: PersistedConfig): Result<PersistedConfig, string>
  {
    Read(lower, Terminated(Lines(q, cfg)))
  }

  lemma ReadSnoc(lower: char -> char, lines: seq<string>, last: string)
    requires ReadLines(lower, lines).Ok?
    ensures ReadLines(lower, lines + [last]) == ReadLine(lower, ReadLines(lower, lines).value, last)
  {
    assert (lines + [last])[..|lines|] == lines;
  }

  /** A printed list line replaces the list by what its quoted form is read as; no line leaves it empty. */
  lemma ListLineReads(lower: char -> char, q: Quoting, lines: seq<string>, key: string, entries: seq<string>)
    requires IsKey(key) && ReadLines(lower, lines).Ok?
    ensures ReadLines(lower, lines + ListLine(q, key, entries)) ==
            if entries == [] then ReadLines(lower, lines)
            else SetKey(lower, ReadLines(lower, lines).value, key, Trim(Quote(q, Join(entries, ',')), IsQuote))
  {
    hide ReadLine, ReadLines, Line, SetKey;
    if entries == [] {
      assert lines + [] == lines;
    } else {
      ReadSnoc(lower, lines, Line(q, key, Join(entries, ',')));
      LineReads(lower, q, ReadLines(lower, lines).value, key, Join(entries, ','));
    }
  }

  lemma ModeLineReads(lower: char -> char, q: Quoting, m: Mode)
    requires IsLowerMap(lower) && IsQuoting(q) && (m == UNSET || Modes.Valid(m))
    ensures ReadLines(lower, [HEADER, Line(q, MODE_KEY, Modes.String(m))]) == Ok(EMPTY.(mode := m))
  {
    assert ReadLines(lower, []) == Ok(EMPTY);
    hide ReadLine, ReadLines, Line, SetKey, Modes.String, Modes.Parse, HEADER, MODE_KEY, IsKey, Trim, Quote;
    var s := Modes.String(m);
    Keys();
    HeaderIsComment(lower, EMPTY);
    ReadSnoc(lower, [], HEADER);
    assert [] + [HEADER] == [HEADER];
    ReadSnoc(lower, [HEADER], Line(q, MODE_KEY, s));
    assert [HEADER] + [Line(q, MODE_KEY, s)] == [HEADER, Line(q, MODE_KEY, s)];
    LineReads(lower, q, EMPTY, MODE_KEY, s);
    ModeStringReads(lower, q, m);
  }

  /** Visible ASCII without quotes. */
  predicate IsVisible(s: string)
  {
    forall i :: 0 <= i < |s| ==> 32 <= s[i] as int < 127 && s[i] != '"' && s[i] != '\\' && s[i] != '\''
  }

  lemma ModeStringVisible(m: Mode)
    requires m == UNSET || Modes.Valid(m)
    ensures IsVisible(Modes.String(m)) && (Modes.Valid(m) ==> Modes.String(m) != "")
  {
  }

  lemma VisiblePlain(q: Quoting, s: string)
    requires IsQuoting(q) && IsVisible(s)
    ensures IsPlain(q, s) && Trim(s, IsQuote) == s
  {
    TrimFixed(s, IsQuote);
  }

  lemma UnsetString()
    ensures Modes.String(UNSET) == ""
  {
  }

  lemma ModeStringReads(lower: char -> char, q: Quoting, m: Mode)
    requires IsLowerMap(lower) && IsQuoting(q) && (m == UNSET || Modes.Valid(m))
    ensures SetKey(lower, EMPTY, MODE_KEY, Trim(Quote(q, Modes.String(m)), IsQuote)) == Ok(EMPTY.(mode := m))
  {
    hide IsVisible, Trim, Escaped, Modes.String, Modes.Parse;
    assert Modes.String(UNSET) == "" by { UnsetString(); }
    var s := Modes.String(m);
    ModeStringVisible(m);
    VisiblePlain(q, s);
    EscapedPlain(q, s);
    TrimQuoted(q, s);
    if Modes.Valid(m) {
      ParseString(lower, m);
    }
  }

  lemma EmptyReread(q: Quoting)
    ensures Reread(q, []) == []
  {
    TrimWrapped("\"", "", "\"", IsQuote);
    assert "\"" + "" + "\"" == Quote(q, "");
    CsvJoin([]);
  }

  /** The three list keys set the three lists. */
  lemma KeysSet(lower: char -> char, q: Quoting, base: PersistedConfig, lists: PersistedConfig)
    ensures var c1 := base.(servers := Reread(q, lists.servers));
            var c2 := c1.(searchDomains := Reread(q, lists.searchDomains));
            && SetKey(lower, base, SERVERS_KEY, Trim(Quote(q, Join(lists.servers, ',')), IsQuote)) == Ok(c1)
            && SetKey(lower, c1, SEARCH_KEY, Trim(Quote(q, Join(lists.searchDomains, ',')), IsQuote)) == Ok(c2)
            && SetKey(lower, c2, MATCH_KEY, Trim(Quote(q, Join(lists.matchDomains, ',')), IsQuote))
               == Ok(c2.(matchDomains := Reread(q, lists.matchDomains)))
  {
    hide Csv, Trim, Quote, Join;
    assert |MODE_KEY| < |SERVERS_KEY| < |MATCH_KEY| < |SEARCH_KEY|;
  }

  /** What a saved config is read back as: the same mode, and each list as its quoted form is read. */
  lemma ReloadedLists(lower: char -> char, q: Quoting, cfg: PersistedConfig)
    requires IsLowerMap(lower) && IsQuoting(q) && Savable(cfg)
    ensures Reloaded(lower, q, cfg) ==
            Ok(PersistedConfig(cfg.mode, Reread(q, cfg.servers), Reread(q, cfg.searchDomains),
                               Reread(q, cfg.matchDomains)))
  {
    hide ReadLines, ReadLine, Line, IsQuoting, IsLowerMap, IsKey, Reread, SetKey;
    var l1 := [HEADER, Line(q, MODE_KEY, Modes.String(cfg.mode))];
    var l2 := l1 + ListLine(q, SERVERS_KEY, cfg.servers);
    var l3 := l2 + ListLine(q, SEARCH_KEY, cfg.searchDomains);
    var l4 := l3 + ListLine(q, MATCH_KEY, cfg.matchDomains);
    Keys();
    ModeLineReads(lower, q, cfg.mode);
    ListLineReads(lower, q, l1, SERVERS_KEY, cfg.servers);
    EmptyReread(q);
    KeysSet(lower, q, EMPTY.(mode := cfg.mode), cfg);
    ListLineReads(lower, q, l2, SEARCH_KEY, cfg.searchDomains);
    ListLineReads(lower, q, l3, MATCH_KEY, cfg.matchDomains);
    assert l4 == Lines(q, cfg);
    LinesAreLines(q, cfg);
    SplitTerminated(l4, "");
    assert Terminated(l4) + "" == Terminated(l4);
    assert Split("", '\n') == [""];
    ReadSnoc(lower, l4, "");
    BlankLine(lower, ReadLines(lower, l4).value);
  }

  lemma BlankLine(lower: char -> char, cfg: PersistedConfig)
    ensures ReadLine(lower, cfg, "") == Ok(cfg)
  {
  }

  // ---- any number of writes and reads ----

  /** What one list becomes over n writes and reads. */
  function Rereads(q: Quoting, entries: seq<string>, n: nat): seq<string>
  {
    if n == 0 then entries else Reread(q, Rereads(q, entries, n - 1))
  }

  /** Backslashes only grow; while they do not, apostrophes only shrink, and neither moves only for survivors. */
  lemma RereadDrifts(q: Quoting, entries: seq<string>)
    requires IsQuoting(q)
    ensures var r := Reread(q, entries);
            && Total('\\', r) >= Total('\\', entries)
            && (Total('\\', r) == Total('\\', entries) ==>
                  && IsPlain(q, Join(entries, ','))
                  && Total('\'', r) <= Total('\'', entries)
                  && (Total('\'', r) == Total('\'', entries) ==> NoApostropheEnds(Join(entries, ','))))
  {
    hide Csv, Trim, Join, NoApostropheEnds, Quote;
    var j := Join(entries, ',');
    RereadBackslashes(q, entries);
    if Total('\\', Reread(q, entries)) == Total('\\', entries) {
      EscapedPlain(q, j);
      TrimQuoted(q, j);
      assert Trim(Quote(q, j), IsQuote) == Trim(j, IsQuote) by { QuotePlain(q, j); }
      CsvCount('\'', Trim(j, IsQuote));
      TotalJoin('\'', entries, ',');
      TrimShrinks('\'', j, IsQuote);
      PlainHasNoQuote(q, j);
      EndsLost(j);
    }
  }

  predicate NoApostropheEnds(s: string)
  {
    s != "" ==> s[0] != '\'' && s[|s| - 1] != '\''
  }

  lemma QuotePlain(q: Quoting, s: string)
    requires IsQuoting(q) && IsPlain(q, s)
    ensures Quote(q, s) == "\"" + s + "\""
  {
    EscapedPlain(q, s);
  }

  lemma PlainHasNoQuote(q: Quoting, s: string)
    requires IsQuoting(q) && IsPlain(q, s)
    ensures '"' !in s
  {
  }

  lemma EndsLost(s: string)
    requires '"' !in s
    ensures Count('\'', Trim(s, IsQuote)) == Count('\'', s) ==> NoApostropheEnds(s)
  {
    if !NoApostropheEnds(s) {
      ApostropheLost(s);
    }
  }

  lemma TrimShrinks(c: char, s: string, p: char -> bool)
    ensures Count(c, Trim(s, p)) <= Count(c, s)
  {
    hide Trim;
    var head, tail := TrimParts(s, p);
    CountAppend(c, head + Trim(s, p), tail);
    CountAppend(c, head, Trim(s, p));
  }

  lemma {:induction false} RereadsDrift(q: Quoting, entries: seq<string>, n: nat)
    requires IsQuoting(q)
    ensures var r := Rereads(q, entries, n);
            && Total('\\', r) >= Total('\\', entries)
            && (Total('\\', r) == Total('\\', entries) ==>
                  && Total('\'', r) <= Total('\'', entries)
                  && (n > 0 ==> IsPlain(q, Join(entries, ',')))
                  && (n > 0 && Total('\'', r) == Total('\'', entries) ==> NoApostropheEnds(Join(entries, ','))))
  {
    hide Reread, Join, NoApostropheEnds, IsQuoting;
    if n > 0 {
      RereadsDrift(q, entries, n - 1);
      RereadDrifts(q, Rereads(q, entries, n - 1));
    }
  }

  /** However often it is written and read, a list comes back exactly when it survives once. */
  lemma RereadsIffSurvives(q: Quoting, entries: seq<string>, n: nat)
    requires IsQuoting(q) && n > 0
    ensures Rereads(q, entries, n) == entries <==> Survives(q, entries)
  {
    hide Reread, Survives, IsQuoting;
    if Survives(q, entries) {
      SurvivorsRereads(q, entries, n);
    } else if Rereads(q, entries, n) == entries {
      RereadsDrift(q, entries, n);
      RereadIsClean(q, Rereads(q, entries, n - 1));
      CleanPlainSurvives(q, entries);
    }
  }

  lemma RereadIsClean(q: Quoting, entries: seq<string>)
    ensures forall i :: 0 <= i < |Reread(q, entries)| ==> IsClean(Reread(q, entries)[i])
  {
    CsvIsClean(Trim(Quote(q, Join(entries, ',')), IsQuote));
  }

  lemma CleanPlainSurvives(q: Quoting, entries: seq<string>)
    requires IsQuoting(q) && IsPlain(q, Join(entries, ',')) && NoApostropheEnds(Join(entries, ','))
    requires forall i :: 0 <= i < |entries| ==> IsClean(entries[i])
    ensures Survives(q, entries)
  {
    hide IsClean, IsPlain, Join, IsQuoting;
    JoinPlain(q, entries);
    if entries != [] {
      CleanNotEmpty(entries);
      JoinEnds(entries, ',');
    }
  }

  lemma {:induction false} SurvivorsRereads(q: Quoting, entries: seq<string>, n: nat)
    requires IsQuoting(q) && Survives(q, entries)
    ensures Rereads(q, entries, n) == entries
  {
    hide Reread, Survives, IsQuoting;
    if n > 0 {
      SurvivorsRereads(q, entries, n - 1);
      SurvivorsReread(q, entries);
    }
  }

  lemma OneReread(q: Quoting, entries: seq<string>)
    ensures Rereads(q, entries, 1) == Reread(q, entries)
  {
    assert Rereads(q, entries, 0) == entries;
  }

  /**
    The round trip: a saved config is read back unchanged if and only if each of
    its lists survives.
  */
  lemma RoundTrip(lower: char -> char, q: Quoting, cfg: PersistedConfig)
    requires IsLowerMap(lower) && IsQuoting(q) && Savable(cfg)
    ensures Reloaded(lower, q, cfg) == Ok(cfg) <==>
              Survives(q, cfg.servers) && Survives(q, cfg.searchDomains) && Survives(q, cfg.matchDomains)
  {
    hide Reloaded, Survives, Reread, Rereads;
    ReloadedLists(lower, q, cfg);
    OneReread(q, cfg.servers);
    OneReread(q, cfg.searchDomains);
    OneReread(q, cfg.matchDomains);
    RereadsIffSurvives(q, cfg.servers, 1);
    RereadsIffSurvives(q, cfg.searchDomains, 1);
    RereadsIffSurvives(q, cfg.matchDomains, 1);
  }

  /** Each round the daemon writes the config it loaded with a new mode, and a restart loads it again. */
  function AfterSetModes(lower: char -> char, q: Quoting, cfg: PersistedConfig, modes: seq<Mode>)
    : Result<PersistedConfig, string>
  {
    if modes == [] then Ok(cfg)
    else
      match AfterSetModes(lower, q, cfg, modes[..|modes| - 1])
      case Err(e) => Err(e)
      case Ok(loaded) => Reloaded(lower, q, loaded.(mode := modes[|modes| - 1]))
  }

  lemma {:induction false} AfterSetModesIs(lower: char -> char, q: Quoting, cfg: PersistedConfig, modes: seq<Mode>)
    requires IsLowerMap(lower) && IsQuoting(q)
    requires forall i :: 0 <= i < |modes| ==> Modes.Valid(modes[i])
    ensures var n := |modes|;
            AfterSetModes(lower, q, cfg, modes) ==
            Ok(PersistedConfig(if n == 0 then cfg.mode else modes[n - 1], Rereads(q, cfg.servers, n),
                               Rereads(q, cfg.searchDomains, n), Rereads(q, cfg.matchDomains, n)))
  {
    hide Reread, Reloaded, IsLowerMap, IsQuoting;
    if modes != [] {
      var front, last := modes[..|modes| - 1], modes[|modes| - 1];
      AfterSetModesIs(lower, q, cfg, front);
      ReloadedLists(lower, q, AfterSetModes(lower, q, cfg, front).value.(mode := last));
    }
  }

  /**
    After any positive number of mode switches with restarts between them, the
    config is the one first loaded with the last mode, if and only if each list
    survives: what is lost once never comes back.
  */
  lemma SetModesKeepLists(lower: char -> char, q: Quoting, cfg: PersistedConfig, modes: seq<Mode>)
    requires IsLowerMap(lower) && IsQuoting(q) && modes != []
    requires forall i :: 0 <= i < |modes| ==> Modes.Valid(modes[i])
    ensures AfterSetModes(lower, q, cfg, modes) == Ok(cfg.(mode := modes[|modes| - 1])) <==>
              Survives(q, cfg.servers) && Survives(q, cfg.searchDomains) && Survives(q, cfg.matchDomains)
  {
    hide AfterSetModes, Rereads, Survives, IsLowerMap, IsQuoting;
    AfterSetModesIs(lower, q, cfg, modes);
    RereadsIffSurvives(q, cfg.servers, |modes|);
    RereadsIffSurvives(q, cfg.searchDomains, |modes|);
    RereadsIffSurvives(q, cfg.matchDomains, |modes|);
  }
}
