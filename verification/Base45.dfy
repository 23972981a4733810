/**
  The base45 codec of section 4 of RFC 9285 as internal/qrbundle implements it,
  and the single-QR envelope around it.  Strings are byte sequences, as in Go.
*/
module Base45 {
  import opened Results

  type byte = x: int | 0 <= x < 256

  const ALPHABET: string := "0123456789" + "ABCDEFGHIJKLMNOPQRSTUVWXYZ" + " $%*+-./:"

  type Digit = x: int | 0 <= x < 45

  /** The character of a digit. */
  function Symbol(d: Digit): byte
  {
    if d < 10 then 48 + d
    else if d < 36 then 55 + d
    else [32, 36, 37, 42, 43, 45, 46, 47, 58][d - 36]
  }

  /** The digit of a character, -1 outside the alphabet: what the decode table holds. */
  function Value(c: byte): (v: int)
    ensures -1 <= v < 45
  {
    if 48 <= c <= 57 then c - 48
    else if 65 <= c <= 90 then c - 55
    else if c == 32 then 36
    else if c == 36 then 37
    else if c == 37 then 38
    else if c == 42 then 39
    else if c == 43 then 40
    else if c == 45 then 41
    else if c == 46 then 42
    else if c == 47 then 43
    else if c == 58 then 44
    else -1
  }

  lemma SymbolTable(d: Digit)
    ensures |ALPHABET| == 45 && ALPHABET[d] as int == Symbol(d)
  {
  }

  lemma ValueInvertsSymbol(d: Digit)
    ensures Value(Symbol(d)) == d
  {
  }

  lemma SymbolInvertsValue(c: byte)
    requires Value(c) >= 0
    ensures Symbol(Value(c)) == c
  {
  }

  // ---- encoding ----

  /** A word in two bytes, big-endian. */
  function Bytes(n: nat): (b: seq<byte>)
    requires n < 0x1_0000
    ensures |b| == 2 && Word(b[0], b[1]) == n
  {
    [n / 256, n % 256]
  }

  lemma BytesOfWord(hi: byte, lo: byte)
    ensures Bytes(Word(hi, lo)) == [hi, lo]
  {
  }

  /** Two bytes as three characters, least significant digit first. */
  function Triple(n: nat): seq<byte>
    requires n < 0x1_0000
  {
    [Symbol(n % 45), Symbol(n / 45 % 45), Symbol(n / 2025)]
  }

  /** A last lone byte as two characters. */
  function Pair(n: byte): seq<byte>
  {
    [Symbol(n % 45), Symbol(n / 45)]
  }

  /** Two bytes read big-endian. */
  function Word(hi: byte, lo: byte): (n: nat)
    ensures n < 0x1_0000 && n / 256 == hi && n % 256 == lo
  {
    hi as int * 256 + lo as int
  }

  function Encode(src: seq<byte>): seq<byte>
  {
    if |src| == 0 then []
    else if |src| == 1 then Pair(src[0])
    else Triple(Word(src[0], src[1])) + Encode(src[2..])
  }

  function EncodedLen(n: nat): nat
  {
    if n % 2 == 0 then n / 2 * 3 else (n - 1) / 2 * 3 + 2
  }

  /** The word three digits stand for, least significant first. */
  function OfDigits(a: int, b: int, c: int): int
  {
    a + b * 45 + c * 45 * 45
  }

  /** Peeling 2025s, then 45s, off a word finds its three digits. */
  lemma DigitsOfWord(n: nat)
    requires n < 0x1_0000
    ensures var m := n - n / 2025 * 2025;
            m / 45 == n / 45 % 45 && m - m / 45 * 45 == n % 45 && n / 2025 < 45
    ensures OfDigits(n % 45, n / 45 % 45, n / 2025) == n
  {
    var q := n / 45;
    assert q / 45 == n / 2025;
    assert n == q * 45 + n % 45 && q == q / 45 * 45 + q % 45;
  }

  lemma WordOfDigits(a: Digit, b: Digit, c: Digit)
    ensures var n := OfDigits(a, b, c); n % 45 == a && n / 45 % 45 == b && n / 2025 == c
  {
    var n := OfDigits(a, b, c);
    var q := b as int + c as int * 45;
    assert n == q * 45 + a as int;
    assert n / 45 == q;
    assert n / 2025 == q / 45;
  }

  lemma {:induction false} EncodeStep(src: seq<byte>, i: nat)
    requires i + 1 < |src|
    ensures Encode(src[i..]) == Triple(Word(src[i], src[i + 1])) + Encode(src[i + 2..])
  {
    hide Triple, Pair;
    assert src[i..][2..] == src[i + 2..];
  }

  method EncodeString(src: seq<byte>) returns (out: seq<byte>)
    ensures out == Encode(src)
  {
    hide Triple, Word, Pair;
    out := [];
    var i := 0;
    while i + 1 < |src|
      invariant 0 <= i <= |src|
      invariant out + Encode(src[i..]) == Encode(src)
    {
      EncodeStep(src, i);
      var t := EncodeWord(src[i], src[i + 1]);
      assert out + (t + Encode(src[i + 2..])) == (out + t) + Encode(src[i + 2..]);
      out := out + t;
      i := i + 2;
    }
    if i < |src| {
      assert src[i..] == [src[i]];
      var t := EncodeLast(src[i]);
      out := out + t;
    } else {
      assert src[i..] == [];
      assert out + [] == out;
    }
  }

  /** The loop's arithmetic: three characters by repeated division. */
  method EncodeWord(hi: byte, lo: byte) returns (t: seq<byte>)
    ensures t == Triple(Word(hi, lo))
  {
    hide Symbol, ALPHABET;
    var n: nat := Word(hi, lo);
    DigitsOfWord(n);
    var c := n / (45 * 45);
    n := n - c * 45 * 45;
    var b := n / 45;
    var a := n - b * 45;
    SymbolTable(a); SymbolTable(b); SymbolTable(c);
    return [ALPHABET[a] as int, ALPHABET[b] as int, ALPHABET[c] as int];
  }

  method EncodeLast(x: byte) returns (t: seq<byte>)
    ensures t == Pair(x)
  {
    hide Symbol, ALPHABET;
    var n: nat := x;
    var b := n / 45;
    var a := n - b * 45;
    SymbolTable(a); SymbolTable(b);
    return [ALPHABET[a] as int, ALPHABET[b] as int];
  }

  lemma EncodedLenStep(n: nat)
    requires n >= 2
    ensures EncodedLen(n) == 3 + EncodedLen(n - 2)
  {
  }

  /** base45EncodedLen is the length, for every input. */
  lemma {:induction false} EncodeLength(src: seq<byte>)
    ensures |Encode(src)| == EncodedLen(|src|)
  {
    if |src| > 1 {
      EncodeLength(src[2..]);
      EncodedLenStep(|src|);
      EncodeStep(src, 0);
      assert src[0..] == src;
    }
  }

  lemma EncodedLenMod(n: nat)
    ensures EncodedLen(n) % 3 != 1
  {
    var k := n / 2;
    assert EncodedLen(n) == k * 3 || EncodedLen(n) == k * 3 + 2;
  }

  lemma EncodeMod(src: seq<byte>)
    ensures |Encode(src)| % 3 != 1
  {
    EncodeLength(src);
    EncodedLenMod(|src|);
  }

  // ---- decoding ----

  datatype DecodeError =
    | BadLength(length: nat)
    | BadChar(offset: nat)
    | TripletTooLarge(offset: nat)
    | PairTooLarge

  type Decoded = Result<seq<byte>, DecodeError>

  function Prepend(out: seq<byte>, r: Decoded): Decoded
  {
    match r
    case Ok(rest) => Ok(out + rest)
    case Err(e) => Err(e)
  }

  /** Three digits, -1 for a character outside the alphabet, to two bytes. */
  function Group(a: int, b: int, c: int, off: nat): Decoded
  {
    if a < 0 || b < 0 || c < 0 then Err(BadChar(off))
    else if OfDigits(a, b, c) > 0xFFFF then Err(TripletTooLarge(off))
    else Ok(Bytes(OfDigits(a, b, c)))
  }

  /** Two digits to one byte. */
  function LastGroup(a: int, b: int, off: nat): Decoded
  {
    if a < 0 || b < 0 then Err(BadChar(off))
    else if a + b * 45 > 0xFF then Err(PairTooLarge)
    else Ok([a + b * 45])
  }

  /** Decoding the groups of s, the first of them standing at offset `off` of the input. */
  function DecodeGroups(s: seq<byte>, off: nat): Decoded
    requires |s| % 3 != 1
  {
    if |s| == 0 then Ok([])
    else if |s| == 2 then LastGroup(Value(s[0]), Value(s[1]), off)
    else
      match Group(Value(s[0]), Value(s[1]), Value(s[2]), off)
      case Err(e) => Err(e)
      case Ok(bytes) =>
        ThreeLess(|s|);
        Prepend(bytes, DecodeGroups(s[3..], off + 3))
  }

  lemma ThreeLess(n: nat)
    requires n % 3 != 1 && n != 0 && n != 2
    ensures n >= 3 && (n - 3) % 3 != 1
  {
    assert (n - 3) % 3 == n % 3;
  }

  function Decode(s: seq<byte>): Decoded
  {
    if |s| % 3 == 1 then Err(BadLength(|s|)) else DecodeGroups(s, 0)
  }

  /** The package's init loop: -1 everywhere, then each alphabet character its position. */
  method DecodeTable() returns (table: array<int>)
    ensures fresh(table) && table.Length == 256
    ensures forall c: byte :: table[c] == Value(c)
  {
    table := new int[256];
    for i := 0 to 256
      invariant forall k :: 0 <= k < i ==> table[k] == -1
    {
      table[i] := -1;
    }
    for i := 0 to |ALPHABET|
      invariant forall c: byte :: table[c] == if Value(c) < i then Value(c) else -1
    {
      SymbolTable(i);
      ValueInvertsSymbol(i);
      forall c: byte | Value(c) == i ensures c == Symbol(i) { SymbolInvertsValue(c); }
      table[ALPHABET[i] as int] := i;
    }
  }

  method DecodeString(table: array<int>, s: seq<byte>) returns (r: Decoded)
    requires table.Length == 256 && forall c: byte :: table[c] == Value(c)
    ensures r == Decode(s)
  {
    hide Value, Group, LastGroup, DecodeGroups, Prepend, Decode;
    LengthIsChecked(s);
    if |s| % 3 == 1 {
      return Err(BadLength(|s|));
    }
    var out: seq<byte> := [];
    var i := 0;
    assert s[0..] == s;
    PrependNothing(Decode(s));
    while i + 3 <= |s|
      invariant 0 <= i <= |s| && (|s| - i) % 3 != 1
      invariant Prepend(out, DecodeGroups(s[i..], i)) == Decode(s)
    {
      DecodeStep(s, i, out);
      ThreeLess(|s| - i);
      var group := DecodeTriplet(table[s[i]], table[s[i + 1]], table[s[i + 2]], i);
      if group.Err? {
        return group;
      }
      out := out + group.value;
      i := i + 3;
    }
    DecodeEnd(s, i, out);
    if i < |s| {
      var group := DecodeRest(table[s[i]], table[s[i + 1]], i);
      if group.Err? {
        return group;
      }
      out := out + group.value;
    }
    return Ok(out);
  }

  lemma LengthIsChecked(s: seq<byte>)
    ensures Decode(s) == if |s| % 3 == 1 then Err(BadLength(|s|)) else DecodeGroups(s, 0)
  {
  }

  /** What is left of the answer once fewer than three characters are. */
  lemma DecodeEnd(s: seq<byte>, i: nat, out: seq<byte>)
    requires i <= |s| < i + 3 && (|s| - i) % 3 != 1
    ensures |s| == i || |s| == i + 2
    ensures Prepend(out, DecodeGroups(s[i..], i)) ==
            if i == |s| then Ok(out)
            else
              match LastGroup(Value(s[i]), Value(s[i + 1]), i)
              case Err(e) => Err(e)
              case Ok(bytes) => Ok(out + bytes)
  {
    hide Value, LastGroup, Group;
    assert out + [] == out;
    var t := s[i..];
    if i < |s| {
      assert |t| == 2 && t[0] == s[i] && t[1] == s[i + 1];
    }
  }

  /** The loop's arithmetic on one triplet. */
  method DecodeTriplet(a: int, b: int, c: int, offset: nat) returns (r: Decoded)
    ensures r == Group(a, b, c, offset)
  {
    if a < 0 || b < 0 || c < 0 {
      return Err(BadChar(offset));
    }
    var n := a + b * 45 + c * 45 * 45;
    if n > 0xFFFF {
      return Err(TripletTooLarge(offset));
    }
    return Ok([n / 256, n % 256]);
  }

  method DecodeRest(a: int, b: int, offset: nat) returns (r: Decoded)
    ensures r == LastGroup(a, b, offset)
  {
    if a < 0 || b < 0 {
      return Err(BadChar(offset));
    }
    var n := a + b * 45;
    if n > 0xFF {
      return Err(PairTooLarge);
    }
    return Ok([n]);
  }

  lemma PrependNothing(r: Decoded)
    ensures Prepend([], r) == r
  {
    assert r.Ok? ==> [] + r.value == r.value;
  }

  /** What one turn of the decoding loop does to the part of the answer still to come. */
  lemma DecodeStep(s: seq<byte>, i: nat, out: seq<byte>)
    requires i + 3 <= |s| && (|s| - i) % 3 != 1
    ensures Prepend(out, DecodeGroups(s[i..], i)) ==
            match Group(Value(s[i]), Value(s[i + 1]), Value(s[i + 2]), i)
            case Err(e) => Err(e)
            case Ok(bytes) => Prepend(out + bytes, DecodeGroups(s[i + 3..], i + 3))
  {
    hide Value, Group;
    var t := s[i..];
    assert t[3..] == s[i + 3..];
    var rest := DecodeGroups(s[i + 3..], i + 3);
    if rest.Ok? {
      assert forall x: seq<byte> :: out + (x + rest.value) == (out + x) + rest.value;
    }
  }

  // ---- the two are inverse ----

  lemma DecodeTriple(n: nat, rest: seq<byte>, off: nat)
    requires n < 0x1_0000 && |rest| % 3 != 1
    ensures DecodeGroups(Triple(n) + rest, off) == Prepend(Bytes(n), DecodeGroups(rest, off + 3))
  {
    hide Value, Symbol;
    var s := Triple(n) + rest;
    assert s[3..] == rest;
    ValueInvertsSymbol(n % 45); ValueInvertsSymbol(n / 45 % 45); ValueInvertsSymbol(n / 2025);
    DigitsOfWord(n);
  }

  lemma DecodePair(n: byte, off: nat)
    ensures DecodeGroups(Pair(n), off) == Ok([n])
  {
    ValueInvertsSymbol(n % 45); ValueInvertsSymbol(n / 45);
  }

  /** Decoding undoes encoding, for all bytes. */
  lemma {:induction false} DecodeEncodeGroups(x: seq<byte>, off: nat)
    ensures |Encode(x)| % 3 != 1
    ensures DecodeGroups(Encode(x), off) == Ok(x)
  {
    hide Value, Symbol, OfDigits, Triple, Bytes;
    EncodeMod(x);
    if |x| == 0 {
    } else if |x| == 1 {
      DecodePair(x[0], off);
      assert x == [x[0]];
    } else {
      var n, rest := Word(x[0], x[1]), Encode(x[2..]);
      DecodeEncodeGroups(x[2..], off + 3);
      calc {
        DecodeGroups(Encode(x), off);
        { assert Encode(x) == Triple(n) + rest; }
        DecodeGroups(Triple(n) + rest, off);
        { DecodeTriple(n, rest, off); }
        Prepend(Bytes(n), DecodeGroups(rest, off + 3));
        { BytesOfWord(x[0], x[1]); }
        Ok([x[0], x[1]] + x[2..]);
        { assert x == [x[0], x[1]] + x[2..]; }
        Ok(x);
      }
    }
  }

  /** Three alphabet characters are the triple of the word they stand for. */
  lemma TripleInverts(x: byte, y: byte, z: byte)
    requires Value(x) >= 0 && Value(y) >= 0 && Value(z) >= 0
    requires OfDigits(Value(x), Value(y), Value(z)) <= 0xFFFF
    ensures Triple(OfDigits(Value(x), Value(y), Value(z))) == [x, y, z]
  {
    hide Value, Symbol, OfDigits;
    SymbolInvertsValue(x); SymbolInvertsValue(y); SymbolInvertsValue(z);
    WordOfDigits(Value(x), Value(y), Value(z));
  }

  lemma EncodeOfWord(n: nat, rest: seq<byte>)
    requires n < 0x1_0000
    ensures Encode(Bytes(n) + rest) == Triple(n) + Encode(rest)
  {
    hide Triple, Bytes;
    var x := Bytes(n) + rest;
    assert x[0] == Bytes(n)[0] && x[1] == Bytes(n)[1] && x[2..] == rest;
  }

  lemma EncodeOfPair(x: byte, y: byte)
    requires Value(x) >= 0 && Value(y) >= 0 && Value(x) + Value(y) * 45 <= 0xFF
    ensures Encode([Value(x) + Value(y) * 45]) == [x, y]
  {
    hide Value, Symbol;
    SymbolInvertsValue(x); SymbolInvertsValue(y);
  }

  lemma {:induction false} EncodeDecodeGroups(s: seq<byte>, off: nat)
    requires |s| % 3 != 1 && DecodeGroups(s, off).Ok?
    ensures Encode(DecodeGroups(s, off).value) == s
  {
    hide Value, OfDigits, Triple, Bytes, Encode;
    if |s| == 0 {
      EncodeOfNothing();
    } else if |s| == 2 {
      EncodeOfPair(s[0], s[1]);
      assert s == [s[0], s[1]];
    } else {
      EncodeDecodeGroups(s[3..], off + 3);
      var n := OfDigits(Value(s[0]), Value(s[1]), Value(s[2]));
      TripleInverts(s[0], s[1], s[2]);
      EncodeOfWord(n, DecodeGroups(s[3..], off + 3).value);
      assert s == [s[0], s[1], s[2]] + s[3..];
    }
  }

  lemma EncodeOfNothing()
    ensures Encode([]) == []
  {
  }

  lemma DecodeEncode(x: seq<byte>)
    ensures Decode(Encode(x)) == Ok(x)
  {
    DecodeEncodeGroups(x, 0);
  }

  /** A string is accepted exactly when it is some encoding, and then of what it decodes to. */
  lemma DecodeAccepts(s: seq<byte>)
    ensures Decode(s).Ok? <==> exists x :: Encode(x) == s
    ensures Decode(s).Ok? ==> Encode(Decode(s).value) == s
  {
    if Decode(s).Ok? {
      EncodeDecodeGroups(s, 0);
    }
    forall x | Encode(x) == s ensures Decode(s).Ok? {
      DecodeEncode(x);
    }
  }

  /** The number a character counts for: its position in the alphabet of RFC 9285. */
  predicate Counts(c: byte, v: int)
  {
    0 <= v < 45 && ALPHABET[v] as int == c
  }

  /** Section 4 of RFC 9285, group by group: each two bytes are three characters, least significant first. */
  lemma {:induction false} EncodesGroups(x: seq<byte>, k: nat, a: Digit, b: Digit, c: Digit)
    requires 2 * k + 1 < |x| && 256 * x[2 * k] as int + x[2 * k + 1] as int == a + 45 * b + 2025 * c
    ensures |Encode(x)| >= 3 * k + 3
    ensures var e := Encode(x); Counts(e[3 * k], a) && Counts(e[3 * k + 1], b) && Counts(e[3 * k + 2], c)
  {
    hide Counts, Triple, Pair, Symbol;
    EncodeUnfolds(x);
    if k > 0 {
      EncodesGroups(x[2..], k - 1, a, b, c);
    } else {
      TripleCounts(a, b, c);
    }
  }

  lemma EncodeUnfolds(x: seq<byte>)
    requires |x| >= 2
    ensures |Triple(Word(x[0], x[1]))| == 3
    ensures Encode(x) == Triple(Word(x[0], x[1])) + Encode(x[2..])
  {
    hide Symbol;
  }

  lemma TripleCounts(a: Digit, b: Digit, c: Digit)
    requires a + 45 * b + 2025 * c < 0x1_0000
    ensures var t := Triple(a + 45 * b + 2025 * c); Counts(t[0], a) && Counts(t[1], b) && Counts(t[2], c)
  {
    hide Symbol;
    WordOfDigits(a, b, c);
    SymbolTable(a);
    SymbolTable(b);
    SymbolTable(c);
  }

  lemma PairCounts(a: Digit, b: Digit)
    requires a + 45 * b < 256
    ensures var t := Pair(a + 45 * b); |t| == 2 && Counts(t[0], a) && Counts(t[1], b)
  {
    hide Symbol;
    SymbolTable(a);
    SymbolTable(b);
  }

  /** A last lone byte is two characters. */
  lemma {:induction false} EncodesLast(x: seq<byte>, k: nat, a: Digit, b: Digit)
    requires 2 * k + 1 == |x| && x[2 * k] as int == a + 45 * b
    ensures |Encode(x)| == 3 * k + 2
    ensures var e := Encode(x); Counts(e[3 * k], a) && Counts(e[3 * k + 1], b)
  {
    hide Counts, Triple, Pair, Symbol;
    if k > 0 {
      EncodeUnfolds(x);
      EncodesLast(x[2..], k - 1, a, b);
    } else {
      PairCounts(a, b);
    }
  }

  /** The first n characters are in the alphabet. */
  predicate InAlphabet(s: seq<byte>, n: int)
  {
    forall i :: 0 <= i < n && i < |s| ==> Value(s[i]) >= 0
  }

  /**
    What a result says of the text: an error stands at the first group at fault,
    every character before it is in the alphabet, and the group has one that is
    not, or stands for a number out of range.
  */
  predicate Explains(s: seq<byte>, off: nat, r: Decoded)
  {
    match r
    case Ok(_) => InAlphabet(s, |s|)
    case Err(BadLength(_)) => false
    case Err(BadChar(o)) =>
      o >= off && (o - off) % 3 == 0 && InAlphabet(s, o - off) && !InAlphabet(s, o - off + 3)
    case Err(TripletTooLarge(o)) =>
      && o >= off && (o - off) % 3 == 0 && o - off + 3 <= |s| && InAlphabet(s, o - off + 3)
      && Value(s[o - off]) + 45 * Value(s[o - off + 1]) + 2025 * Value(s[o - off + 2]) > 65535
    case Err(PairTooLarge) =>
      |s| >= 2 && InAlphabet(s, |s|) && Value(s[|s| - 2]) + 45 * Value(s[|s| - 1]) > 255
  }

  lemma {:induction false} ErrorsAreFirst(s: seq<byte>, off: nat)
    requires |s| % 3 != 1
    ensures Explains(s, off, DecodeGroups(s, off))
  {
    hide Value, Explains, Prepend, Group;
    if |s| <= 2 {
      LastErrors(s, off);
    } else {
      ThreeLess(|s|);
      ErrorsAreFirst(s[3..], off + 3);
      GroupErrors(s, off, DecodeGroups(s[3..], off + 3));
    }
  }

  lemma LastErrors(s: seq<byte>, off: nat)
    requires |s| == 0 || |s| == 2
    ensures Explains(s, off, DecodeGroups(s, off))
  {
    hide Value;
  }

  lemma GroupErrors(s: seq<byte>, off: nat, rest: Decoded)
    requires |s| >= 3 && Explains(s[3..], off + 3, rest)
    ensures match Group(Value(s[0]), Value(s[1]), Value(s[2]), off)
            case Err(e) => Explains(s, off, Err(e))
            case Ok(bytes) => Explains(s, off, Prepend(bytes, rest))
  {
    hide Value, Bytes, Explains;
    var group := Group(Value(s[0]), Value(s[1]), Value(s[2]), off);
    if group.Err? {
      FirstGroupErrs(s, off);
    } else {
      LaterErrors(s, off, rest, group.value);
    }
  }

  lemma FirstGroupErrs(s: seq<byte>, off: nat)
    requires |s| >= 3 && Group(Value(s[0]), Value(s[1]), Value(s[2]), off).Err?
    ensures Explains(s, off, Err(Group(Value(s[0]), Value(s[1]), Value(s[2]), off).error))
  {
    hide Value, Bytes;
    assert (off - off) % 3 == 0;
  }

  lemma LaterErrors(s: seq<byte>, off: nat, rest: Decoded, bytes: seq<byte>)
    requires |s| >= 3 && Explains(s[3..], off + 3, rest) && InAlphabet(s, 3)
    ensures Explains(s, off, Prepend(bytes, rest))
  {
    hide Value, InAlphabet;
    InAlphabetStep(s);
    if rest.Err? && (rest.error.BadChar? || rest.error.TripletTooLarge?) {
      var o := rest.error.offset;
      assert o - off == o - (off + 3) + 3;
      assert (o - off) % 3 == 0;
    }
  }

  lemma InAlphabetStep(s: seq<byte>)
    requires |s| >= 3
    ensures forall n :: n >= 3 ==> (InAlphabet(s, n) <==> InAlphabet(s, 3) && InAlphabet(s[3..], n - 3))
  {
    hide Value;
    var rest := s[3..];
    assert forall i :: 3 <= i < |s| ==> s[i] == rest[i - 3];
    assert forall i :: 0 <= i < |rest| ==> rest[i] == s[i + 3];
  }

  /** A character has a value exactly when it is in the alphabet, and then its position there. */
  lemma ValueCounts(c: byte)
    ensures if Value(c) >= 0 then Counts(c, Value(c)) else forall v :: !Counts(c, v)
  {
    if Value(c) >= 0 {
      SymbolTable(Value(c));
      SymbolInvertsValue(c);
    } else {
      forall v ensures !Counts(c, v) {
        if Counts(c, v) {
          SymbolTable(v);
          ValueInvertsSymbol(v);
          assert false;
        }
      }
    }
  }

  // ---- the QR envelope ----

  const QR_CEILING: nat := 4296

  const MAX_BUNDLE_BYTES: nat := QR_CEILING / 3 * 2

  datatype QRError = Empty | BundleTooLarge | Malformed(cause: DecodeError)

  method EncodeBundle(bundle: seq<byte>) returns (r: Result<seq<byte>, QRError>)
    ensures r.Ok? <==> bundle != [] && |Encode(bundle)| <= QR_CEILING
    ensures r.Ok? ==> r.value == Encode(bundle) && Decode(r.value) == Ok(bundle) && 0 < |r.value| <= 4296
    ensures r == Err(Empty) <==> bundle == []
  {
    CeilingIsSharp(bundle);
    if |bundle| == 0 {
      return Err(Empty);
    }
    if |bundle| > MAX_BUNDLE_BYTES {
      return Err(BundleTooLarge);
    }
    DecodeEncode(bundle);
    var s := EncodeString(bundle);
    return Ok(s);
  }

  /** The byte limit is sharp: it admits exactly the inputs whose text fits one QR code. */
  lemma CeilingIsSharp(x: seq<byte>)
    ensures MAX_BUNDLE_BYTES == 2864
    ensures |Encode(x)| <= QR_CEILING <==> |x| <= MAX_BUNDLE_BYTES
  {
    EncodeLength(x);
  }

  method DecodeBundle(table: array<int>, payload: seq<byte>) returns (r: Result<seq<byte>, QRError>)
    requires table.Length == 256 && forall c: byte :: table[c] == Value(c)
    ensures payload == [] <==> r == Err(Empty)
    ensures r.Ok? <==> payload != [] && exists x :: Encode(x) == payload
    ensures r.Ok? ==> r.value != [] && Encode(r.value) == payload
    ensures payload != [] && r.Err? ==> r.error.Malformed? && Decode(payload) == Err(r.error.cause)
  {
    DecodeAccepts(payload);
    if |payload| == 0 {
      return Err(Empty);
    }
    var out := DecodeString(table, payload);
    match out
    case Err(e) => return Err(Malformed(e));
    case Ok(bytes) => return Ok(bytes);
  }
}
