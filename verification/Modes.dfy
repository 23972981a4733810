/** The three-mode selector of internal/mode. */
module Modes {
  import opened Results
  import opened Text

  /** A mode string; anything unknown, the empty string included, is Other. */
  datatype Mode = WGCP0Only | NetbirdOnly | Combined | Other(raw: string)

  const DEFAULT: Mode := Combined

  predicate Valid(m: Mode)
  {
    !m.Other?
  }

  function String(m: Mode): string
  {
    match m
    case WGCP0Only => "wg-cp0-only"
    case NetbirdOnly => "netbird-only"
    case Combined => "combined"
    case Other(raw) => raw
  }

  predicate IncludesWGCP0(m: Mode)
  {
    m == WGCP0Only || m == Combined
  }

  predicate IncludesNetbird(m: Mode)
  {
    m == NetbirdOnly || m == Combined
  }

  /** User input to a mode: case-insensitive, trimmed, with a few aliases. */
  function Parse(lower: char -> char, s: string): Option<Mode>
  {
    var t := Map(lower, TrimSpace(s));
    if t == "wg-cp0-only" || t == "wg-cp0" || t == "wgcp0" || t == "outer" || t == "outer-only" then Some(WGCP0Only)
    else if t == "netbird-only" || t == "netbird" || t == "inner" || t == "inner-only" then Some(NetbirdOnly)
    else if t == "combined" || t == "both" || t == "all" then Some(Combined)
    else None
  }

  lemma ParseIsValid(lower: char -> char, s: string)
    ensures Parse(lower, s).Some? ==> Valid(Parse(lower, s).value)
  {
  }

  lemma {:induction false} LowerFixed(lower: char -> char, s: string)
    requires IsLowerMap(lower)
    requires forall i :: 0 <= i < |s| ==> s[i] as int < 128 && !('A' <= s[i] <= 'Z')
    ensures Map(lower, s) == s
  {
  }

  /** The canonical names are trimmed lower-case ASCII. */
  predicate IsCanonical(s: string)
  {
    && s != "" && !IsSpace(s[0]) && !IsSpace(s[|s| - 1])
    && forall i :: 0 <= i < |s| ==> s[i] as int < 128 && !('A' <= s[i] <= 'Z')
  }

  lemma OuterIsCanonical()
    ensures IsCanonical(String(WGCP0Only))
  {
  }

  lemma MeshIsCanonical()
    ensures IsCanonical(String(NetbirdOnly))
  {
  }

  lemma CombinedIsCanonical()
    ensures IsCanonical(String(Combined))
  {
  }

  lemma CanonicalFixed(lower: char -> char, s: string)
    requires IsLowerMap(lower) && IsCanonical(s)
    ensures Map(lower, TrimSpace(s)) == s
  {
    TrimFixed(s, IsSpace);
    LowerFixed(lower, s);
  }

  lemma ParseOuter(lower: char -> char)
    requires Map(lower, TrimSpace(String(WGCP0Only))) == String(WGCP0Only)
    ensures Parse(lower, String(WGCP0Only)) == Some(WGCP0Only)
  {
    hide Map, TrimSpace;
  }

  lemma ParseMesh(lower: char -> char)
    requires Map(lower, TrimSpace(String(NetbirdOnly))) == String(NetbirdOnly)
    ensures Parse(lower, String(NetbirdOnly)) == Some(NetbirdOnly)
  {
    hide Map, TrimSpace;
  }

  lemma ParseCombined(lower: char -> char)
    requires Map(lower, TrimSpace(String(Combined))) == String(Combined)
    ensures Parse(lower, String(Combined)) == Some(Combined)
  {
    hide Map, TrimSpace;
  }

  /** Parsing undoes String on every valid mode. */
  lemma ParseString(lower: char -> char, m: Mode)
    requires IsLowerMap(lower) && Valid(m)
    ensures Parse(lower, String(m)) == Some(m)
  {
    hide Parse, String, IsCanonical, IsLowerMap, Map, TrimSpace;
    match m
    case WGCP0Only =>
      OuterIsCanonical();
      CanonicalFixed(lower, String(WGCP0Only));
      ParseOuter(lower);
    case NetbirdOnly =>
      MeshIsCanonical();
      CanonicalFixed(lower, String(NetbirdOnly));
      ParseMesh(lower);
    case Combined =>
      CombinedIsCanonical();
      CanonicalFixed(lower, String(Combined));
      ParseCombined(lower);
    case Other(_) =>
  }

  /** The names other than its canonical one that mean a mode. */
  predicate Alias(s: string, m: Mode)
  {
    match m
    case WGCP0Only => s in {"wg-cp0", "wgcp0", "outer", "outer-only"}
    case NetbirdOnly => s in {"netbird", "inner", "inner-only"}
    case Combined => s in {"both", "all"}
    case Other(_) => false
  }

  lemma AliasIsCanonical(s: string, m: Mode)
    requires Alias(s, m)
    ensures IsCanonical(s) && s != String(WGCP0Only) && s != String(NetbirdOnly) && s != String(Combined)
  {
  }

  /** White space around the input does not count, and every alias means its mode. */
  lemma AliasesParse(lower: char -> char, s: string, m: Mode)
    requires IsLowerMap(lower)
    ensures Parse(lower, TrimSpace(s)) == Parse(lower, s)
    ensures Alias(TrimSpace(s), m) ==> Parse(lower, s) == Some(m)
  {
    hide IsLowerMap, IsCanonical, TrimSpace, Map;
    Trimmed(s);
    if Alias(TrimSpace(s), m) {
      AliasIsCanonical(TrimSpace(s), m);
      CanonicalFixed(lower, TrimSpace(s));
    }
  }

  lemma Trimmed(s: string)
    ensures TrimSpace(TrimSpace(s)) == TrimSpace(s)
  {
    TrimIdempotent(s, IsSpace);
  }
}
