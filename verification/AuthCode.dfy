/**
 * Auth codes (internal/auth/hash.go:143-174): ten random bytes in Crockford's base32 alphabet, the
 * bits laid out as in section 6 of RFC 4648, shown in groups of four, and read back however a
 * person retypes them.
 */
module AuthCode {
  import opened Basics
  import opened HttpText
  import opened TextLaws

  const ALPHABET: string := "0123456789ABCDEFGHJKMNPQRSTVWXYZ"

  type Digit = x: int | 0 <= x < 32

  /** The alphabet: digits and capitals, but for I, L, O and U. */
  predicate IsSymbol(c: char) {
    '0' <= c <= '9' || ('A' <= c <= 'Z' && c != 'I' && c != 'L' && c != 'O' && c != 'U')
  }

  function Symbol(d: Digit): (c: char)
    ensures IsSymbol(c)
  {
    ALPHABET[d]
  }

  function ValueOf(c: char): Digit
    requires IsSymbol(c)
  {
    var n := c as int;
    if c <= '9' then n - 48
    else if c < 'I' then n - 55
    else if c < 'L' then n - 56
    else if c < 'O' then n - 57
    else if c < 'U' then n - 58
    else n - 59
  }

  lemma SymbolsAreDistinct(d: Digit)
    ensures ValueOf(Symbol(d)) == d
  {
  }

  // ------------------------------------------------------------------------ base32

  type Group = b: Bytes | |b| == 5 witness [0, 0, 0, 0, 0]
  type Octet = d: seq<Digit> | |d| == 8 witness [0, 0, 0, 0, 0, 0, 0, 0]

  /** Forty bits, five bytes taken as eight digits. */
  function Spread(b: Group): Octet {
    var b0: int, b1: int, b2: int, b3: int, b4: int := b[0], b[1], b[2], b[3], b[4];
    [ b0 / 8,
      b0 % 8 * 4 + b1 / 64,
      b1 / 2 % 32,
      b1 % 2 * 16 + b2 / 16,
      b2 % 16 * 2 + b3 / 128,
      b3 / 4 % 32,
      b3 % 4 * 8 + b4 / 32,
      b4 % 32 ]
  }

  function Gather(d: Octet): Group {
    var d0: int, d1: int, d2: int, d3: int := d[0], d[1], d[2], d[3];
    var d4: int, d5: int, d6: int, d7: int := d[4], d[5], d[6], d[7];
    [ d0 * 8 + d1 / 4,
      d1 % 4 * 64 + d2 * 2 + d3 / 16,
      d3 % 16 * 16 + d4 / 2,
      d4 % 2 * 128 + d5 * 4 + d6 / 8,
      d6 % 8 * 32 + d7 ]
  }

  lemma GatherFirst(b: Group)
    ensures Gather(Spread(b))[0] == b[0] && Gather(Spread(b))[1] == b[1]
  {
    var d := Spread(b);
    assert d[1] % 4 == b[1] / 64 && d[3] / 16 == b[1] % 2;
  }

  lemma GatherThird(b: Group)
    ensures Gather(Spread(b))[2] == b[2]
  {
    var d := Spread(b);
    assert d[3] % 16 == b[2] / 16 && d[4] / 2 == b[2] % 16;
  }

  lemma GatherFourth(b: Group)
    ensures Gather(Spread(b))[3] == b[3]
  {
    var d := Spread(b);
    assert d[4] % 2 == b[3] / 128 && d[6] / 8 == b[3] % 4;
  }

  lemma GatherLast(b: Group)
    ensures Gather(Spread(b))[4] == b[4]
  {
    assert Spread(b)[6] % 8 == b[4] / 32;
  }

  lemma GatherSpread(b: Group)
    ensures Gather(Spread(b)) == b
  {
    GatherFirst(b);
    GatherThird(b);
    GatherFourth(b);
    GatherLast(b);
  }

  function Symbols(d: seq<Digit>): (s: string)
    ensures |s| == |d| && forall i :: 0 <= i < |d| ==> s[i] == Symbol(d[i])
  {
    seq(|d|, i requires 0 <= i < |d| => Symbol(d[i]))
  }

  function Values(s: string): (d: seq<Digit>)
    requires IsRaw(s)
    ensures |d| == |s| && forall i :: 0 <= i < |s| ==> d[i] == ValueOf(s[i])
  {
    seq(|s|, i requires 0 <= i < |s| => ValueOf(s[i]))
  }

  predicate IsRaw(s: string) {
    forall i :: 0 <= i < |s| ==> IsSymbol(s[i])
  }

  type RawGroup = s: string | |s| == 8 && IsRaw(s) witness "00000000"

  function EncodeGroup(b: Group): RawGroup {
    var s := Symbols(Spread(b));
    assert forall i :: 0 <= i < 8 ==> IsSymbol(s[i]);
    s
  }

  function DecodeGroup(s: RawGroup): Group {
    Gather(Values(s))
  }

  lemma GroupRoundTrips(b: Group)
    ensures DecodeGroup(EncodeGroup(b)) == b
  {
    var d := Spread(b);
    forall i | 0 <= i < 8 ensures ValueOf(EncodeGroup(b)[i]) == d[i] {
      SymbolsAreDistinct(d[i]);
    }
    assert Values(EncodeGroup(b)) == d;
    GatherSpread(b);
  }

  function EncodeBy(b: Bytes, encode: Group -> RawGroup): (s: string)
    requires |b| % 5 == 0
    ensures |s| == |b| / 5 * 8 && IsRaw(s)
  {
    if b == [] then "" else encode(b[..5]) + EncodeBy(b[5..], encode)
  }

  function DecodeBy(s: string, decode: RawGroup -> Group): (b: Bytes)
    requires |s| % 8 == 0 && IsRaw(s)
  {
    if s == "" then [] else decode(s[..8]) + DecodeBy(s[8..], decode)
  }

  lemma {:induction false} EncodeByRoundTrips(b: Bytes, encode: Group -> RawGroup, decode: RawGroup -> Group)
    requires |b| % 5 == 0 && forall g: Group :: decode(encode(g)) == g
    ensures DecodeBy(EncodeBy(b, encode), decode) == b
  {
    if b != [] {
      var head: string, tail: string := encode(b[..5]), EncodeBy(b[5..], encode);
      EncodeByRoundTrips(b[5..], encode, decode);
      assert (head + tail)[..8] == head && (head + tail)[8..] == tail;
      assert b == b[..5] + b[5..];
    }
  }

  function Encode(b: Bytes): (s: string)
    requires |b| % 5 == 0
    ensures |s| == |b| / 5 * 8 && IsRaw(s)
  {
    EncodeBy(b, EncodeGroup)
  }

  function Decode(s: string): Bytes
    requires |s| % 8 == 0 && IsRaw(s)
  {
    DecodeBy(s, DecodeGroup)
  }

  lemma EncodeRoundTrips(b: Bytes)
    requires |b| % 5 == 0
    ensures Decode(Encode(b)) == b
  {
    forall g: Group ensures DecodeGroup(EncodeGroup(g)) == g {
      GroupRoundTrips(g);
    }
    EncodeByRoundTrips(b, EncodeGroup, DecodeGroup);
  }

  lemma EncodeIsInjective(a: Bytes, b: Bytes)
    requires |a| % 5 == 0 && |b| % 5 == 0
    ensures Encode(a) == Encode(b) <==> a == b
  {
    EncodeRoundTrips(a);
    EncodeRoundTrips(b);
  }

  // ------------------------------------------------------------------------ the two operations

  /** unicode.ToUpper, where it gives an ASCII letter: of its own small one, the dotless i or the
      long s. What any other character gives is no symbol, and it is left as it is. */
  function Upper(c: char): char {
    if 'a' <= c <= 'z' then (c as int - 32) as char
    else if c == '\U{131}' then 'I'
    else if c == '\U{17F}' then 'S'
    else c
  }

  /** What the replacer makes of one character. */
  function Plain(c: char): string {
    if c == '-' || c == ' ' then ""
    else if c == 'O' then "0"
    else if c == 'I' || c == 'L' then "1"
    else if c == 'U' then "V"
    else [c]
  }

  /** strings.ToUpper, then the replacer, on one character. */
  function Clean(c: char): string {
    Plain(Upper(c))
  }

  function FlatMap(s: string, f: char -> string): string {
    if s == "" then "" else FlatMap(s[..|s| - 1], f) + f(s[|s| - 1])
  }

  function Strip(s: string): string {
    FlatMap(s, Clean)
  }

  function Normalise(typed: string): string {
    Strip(TrimSpace(typed))
  }

  /** How long the shown code is once i symbols are in it. */
  function Shown(i: nat): nat {
    if i == 0 then 0 else i + (i - 1) / 4
  }

  /** code shows the first i symbols of raw in groups of four. */
  predicate IsShown(code: string, raw: string, i: nat)
    requires i <= |raw|
  {
    && |code| == Shown(i)
    && (forall k :: 0 <= k < |code| && k % 5 != 4 ==> k - k / 5 < i && code[k] == raw[k - k / 5])
    && (forall k :: 0 <= k < |code| && k % 5 == 4 ==> code[k] == '-')
  }

  lemma ShownNext(code: string, raw: string, i: nat)
    requires i < |raw| && IsShown(code, raw, i)
    ensures IsShown((if i > 0 && i % 4 == 0 then code + "-" else code) + [raw[i]], raw, i + 1)
  {
  }

  lemma {:induction false} RetypesNext(code: string, raw: string, i: nat)
    requires i < |raw| && IsRaw(raw) && Retypes(raw[..i], code)
    ensures Retypes(raw[..i + 1], (if i > 0 && i % 4 == 0 then code + "-" else code) + [raw[i]])
  {
    assert raw[..i] + [raw[i]] == raw[..i + 1];
    RetypesSymbol(raw[..i], code, raw[i], raw[i]);
    RetypesSeparator(raw[..i], code, '-');
    RetypesSymbol(raw[..i], code + "-", raw[i], raw[i]);
  }

  /** The formatting loop of generateAuthCode. */
  method ShowInFours(raw: string) returns (code: string)
    requires IsRaw(raw)
    ensures IsShown(code, raw, |raw|) && Retypes(raw, code)
  {
    code := "";
    for i := 0 to |raw|
      invariant IsShown(code, raw, i) && Retypes(raw[..i], code)
    {
      ShownNext(code, raw, i);
      RetypesNext(code, raw, i);
      if i > 0 && i % 4 == 0 {
        code := code + "-";
      }
      code := code + [raw[i]];
    }
    assert raw[..|raw|] == raw;
  }

  /** generateAuthCode, for ten bytes of randomness: 16 symbols shown in groups, read back as themselves. */
  method GenerateAuthCode(secret: Bytes) returns (code: string)
    requires |secret| == 10
    ensures |Encode(secret)| == 16 && |code| == 19 && IsShown(code, Encode(secret), 16)
    ensures Retypes(Encode(secret), code)
    ensures Normalise(code) == Encode(secret)
  {
    var raw := Encode(secret);
    code := ShowInFours(raw);
    RetypingReads(raw, code);
  }

  // ------------------------------------------------------------------------ retyping

  /** c is how a person may type the symbol r. */
  predicate LooksLike(c: char, r: char) {
    || Upper(c) == r
    || (r == '0' && Upper(c) == 'O')
    || (r == '1' && Upper(c) in {'I', 'L'})
    || (r == 'V' && Upper(c) == 'U')
  }

  predicate IsSeparator(c: char) {
    c == '-' || c == ' '
  }

  /** typed is raw with each symbol as a person may type it, and separators anywhere. */
  predicate Retypes(raw: string, typed: string)
    decreases |typed|
  {
    if typed == "" then raw == ""
    else
      var rest, c := typed[..|typed| - 1], typed[|typed| - 1];
      || (IsSeparator(c) && Retypes(raw, rest))
      || (raw != "" && LooksLike(c, raw[|raw| - 1]) && Retypes(raw[..|raw| - 1], rest))
  }

  lemma {:induction false} RetypesSymbol(raw: string, typed: string, r: char, c: char)
    requires Retypes(raw, typed) && LooksLike(c, r)
    ensures Retypes(raw + [r], typed + [c])
  {
    assert (raw + [r])[..|raw|] == raw && (typed + [c])[..|typed|] == typed;
  }

  lemma {:induction false} RetypesSeparator(raw: string, typed: string, c: char)
    requires Retypes(raw, typed) && IsSeparator(c)
    ensures Retypes(raw, typed + [c])
  {
    assert (typed + [c])[..|typed|] == typed;
  }

  lemma SymbolIsClean(c: char, r: char)
    requires IsSymbol(r)
    ensures LooksLike(c, r) <==> Clean(c) == [r]
  {
  }

  lemma SeparatorIsNothing(c: char)
    ensures IsSeparator(c) <==> Clean(c) == ""
    ensures |Clean(c)| <= 1
  {
  }

  lemma LastOf(p: string, x: string, s: string)
    requires |x| <= 1
    ensures p + x == s <==>
      if x == "" then p == s else s != "" && p == s[..|s| - 1] && x == [s[|s| - 1]]
  {
    if x == "" {
      assert p + x == p;
    } else {
      assert x == [x[0]];
      if s != "" {
        assert s == s[..|s| - 1] + [s[|s| - 1]];
        assert (p + x)[..|p|] == p && (p + x)[|p|] == x[0];
      }
    }
  }

  lemma {:induction false} StripsExactly(raw: string, typed: string)
    requires IsRaw(raw)
    ensures Strip(typed) == raw <==> Retypes(raw, typed)
    decreases |typed|
  {
    if typed != "" {
      var rest, c := typed[..|typed| - 1], typed[|typed| - 1];
      LastOf(Strip(rest), Clean(c), raw);
      SeparatorIsNothing(c);
      StripsExactly(raw, rest);
      if raw != "" {
        SymbolIsClean(c, raw[|raw| - 1]);
        StripsExactly(raw[..|raw| - 1], rest);
      }
    }
  }

  /** Exactly the retypings of a code's symbols read as that code. */
  lemma {:induction false} NormalisesExactly(raw: string, typed: string)
    requires IsRaw(raw)
    ensures Normalise(typed) == raw <==> Retypes(raw, TrimSpace(typed))
  {
    StripsExactly(raw, TrimSpace(typed));
  }

  lemma {:induction false} FlatMapFront(c: char, s: string, f: char -> string)
    ensures FlatMap([c] + s, f) == f(c) + FlatMap(s, f)
  {
    if s == "" {
      assert [c] + s == [c] && [c][..0] == "";
    } else {
      var n := |s| - 1;
      FlatMapFront(c, s[..n], f);
      assert ([c] + s)[..n + 1] == [c] + s[..n];
    }
  }

  /** Every space in s is a plain one. */
  predicate PlainSpaces(s: string) {
    forall i :: 0 <= i < |s| && IsSpace(s[i]) ==> s[i] == ' '
  }

  /** Trimming takes nothing away that f keeps. */
  lemma {:induction false} TrimLeftKeeps(s: string, f: char -> string)
    requires PlainSpaces(s) && f(' ') == ""
    ensures FlatMap(TrimLeft(s), f) == FlatMap(s, f) && PlainSpaces(TrimLeft(s))
  {
    if s != "" && IsSpace(s[0]) {
      FlatMapFront(s[0], s[1..], f);
      assert s == [s[0]] + s[1..];
      TrimLeftKeeps(s[1..], f);
    }
  }

  lemma {:induction false} TrimRightKeeps(s: string, f: char -> string)
    requires PlainSpaces(s) && f(' ') == ""
    ensures FlatMap(TrimRight(s), f) == FlatMap(s, f)
  {
    if s != "" && IsSpace(s[|s| - 1]) {
      TrimRightKeeps(s[..|s| - 1], f);
    }
  }

  /**
   * However a person retypes a code (any case, look-alikes, dashes and spaces anywhere, any blank
   * around it), it reads as the code's own symbols.
   */
  lemma {:induction false} RetypingNormalises(raw: string, before: string, typed: string, after: string)
    requires IsRaw(raw) && Retypes(raw, typed) && IsBlank(before) && IsBlank(after)
    ensures Normalise(before + typed + after) == raw
  {
    StripsExactly(raw, typed);
    TrimBlank(before, typed, after);
    RetypedSpaces(raw, typed);
    TrimLeftKeeps(typed, Clean);
    TrimRightKeeps(TrimLeft(typed), Clean);
  }

  lemma SymbolIsNoSpace(c: char, r: char)
    requires IsSymbol(r) && LooksLike(c, r)
    ensures !IsSpace(c)
  {
  }

  lemma {:induction false} RetypedSpaces(raw: string, typed: string)
    requires IsRaw(raw) && Retypes(raw, typed)
    ensures PlainSpaces(typed)
    decreases |typed|
  {
    if typed != "" {
      var rest, c := typed[..|typed| - 1], typed[|typed| - 1];
      if IsSeparator(c) && Retypes(raw, rest) {
        RetypedSpaces(raw, rest);
      } else {
        SymbolIsNoSpace(c, raw[|raw| - 1]);
        RetypedSpaces(raw[..|raw| - 1], rest);
      }
      assert typed == rest + [c];
    }
  }

  lemma {:induction false} RetypingReads(raw: string, typed: string)
    requires IsRaw(raw) && Retypes(raw, typed)
    ensures Normalise(typed) == raw
  {
    RetypingNormalises(raw, "", typed, "");
    assert "" + typed + "" == typed;
  }

  /** Two different secrets never read alike, however each code is retyped. */
  lemma {:induction false} SecretsNeverReadAlike(a: Bytes, b: Bytes, typedA: string, typedB: string)
    requires |a| == 10 && |b| == 10
    requires Retypes(Encode(a), typedA) && Retypes(Encode(b), typedB)
    ensures Normalise(typedA) == Normalise(typedB) <==> a == b
  {
    EncodeRoundTrips(a);
    EncodeRoundTrips(b);
    RetypingReads(Encode(a), typedA);
    RetypingReads(Encode(b), typedB);
    EncodeIsInjective(a, b);
  }

  // ------------------------------------------------------------------------ the layout

  /** Five bytes as the number of their forty bits. */
  function Forty(b: Group): nat {
    var b0: int, b1: int, b2: int, b3: int, b4: int := b[0], b[1], b[2], b[3], b[4];
    b0 * 0x1_0000_0000 + b1 * 0x100_0000 + b2 * 0x1_0000 + b3 * 0x100 + b4
  }

  /** h with one digit more behind it. */
  function Behind(h: nat, d: Digit): nat {
    h * 32 + d
  }

  /** The first n digits as the number they are in base 32, most significant first. */
  function InBase32(d: Octet, n: nat): nat
    requires n <= 8
  {
    if n == 0 then 0 else Behind(InBase32(d, n - 1), d[n - 1])
  }

  lemma FirstFive(b: Group)
    ensures InBase32(Spread(b), 5) == b[0] as int * 0x2_0000 + b[1] as int * 0x200 + b[2] as int * 2 + b[3] as int / 128
  {
    var d := Spread(b);
    FirstThree(b[0], b[1], d[0], d[1], d[2]);
    NextTwo(InBase32(d, 3), b[1], b[2], b[3], d[3], d[4]);
    FiveBehind(d);
  }

  lemma {:induction false} FiveBehind(d: Octet)
    ensures InBase32(d, 3) == Behind(Behind(d[0], d[1]), d[2])
    ensures InBase32(d, 5) == Behind(Behind(InBase32(d, 3), d[3]), d[4])
  {
    assert InBase32(d, 1) == Behind(0, d[0]);
    assert InBase32(d, 2) == Behind(d[0], d[1]);
    assert InBase32(d, 4) == Behind(InBase32(d, 3), d[3]);
  }

  lemma FirstThree(b0: byte, b1: byte, d0: Digit, d1: Digit, d2: Digit)
    requires d0 == b0 / 8 && d1 == b0 % 8 * 4 + b1 / 64 && d2 == b1 / 2 % 32
    ensures Behind(Behind(d0, d1), d2) == b0 as int * 0x80 + b1 as int / 2
  {
    var c0: int, c1: int := b0, b1;
    assert Behind(d0, d1) == c0 * 4 + c1 / 64;
  }

  lemma NextTwo(h: nat, b1: byte, b2: byte, b3: byte, d3: Digit, d4: Digit)
    requires d3 == b1 % 2 * 16 + b2 / 16 && d4 == b2 % 16 * 2 + b3 / 128
    ensures Behind(Behind(h, d3), d4) ==
      (h - b1 as int / 2) * 0x400 + b1 as int * 0x200 + b2 as int * 2 + b3 as int / 128
  {
    var c1: int, c2: int := b1, b2;
    assert Behind(h, d3) == (h - c1 / 2) * 0x20 + c1 * 0x10 + c2 / 16;
  }

  lemma {:induction false} AllEight(d: Octet)
    ensures InBase32(d, 8) == Behind(Behind(Behind(InBase32(d, 5), d[5]), d[6]), d[7])
  {
    assert InBase32(d, 6) == Behind(InBase32(d, 5), d[5]);
    assert InBase32(d, 7) == Behind(InBase32(d, 6), d[6]);
  }

  /** The digits of five bytes are their forty bits' own. */
  lemma SpreadIsTheNumber(b: Group)
    ensures InBase32(Spread(b), 8) == Forty(b)
  {
    var d := Spread(b);
    FirstFive(b);
    AllEight(d);
    LastThree(InBase32(d, 5), b[3], b[4], d[5], d[6], d[7]);
  }

  lemma LastThree(h: nat, b3: byte, b4: byte, d5: Digit, d6: Digit, d7: Digit)
    requires d5 == b3 / 4 % 32 && d6 == b3 % 4 * 8 + b4 / 32 && d7 == b4 % 32
    ensures Behind(Behind(Behind(h, d5), d6), d7) == (h - b3 / 128) * 0x8000 + b3 * 0x100 + b4
  {
    var c3: int, c4: int := b3, b4;
    assert Behind(h, d5) == (h - c3 / 128) * 0x20 + c3 / 4;
    assert Behind(Behind(h, d5), d6) == (h - c3 / 128) * 0x400 + c3 * 8 + c4 / 32;
  }

  /** Bits 5k to 5k+4 of the forty: the last five once the groups behind them are shifted out. */
  function Bits(n: nat, k: nat): (d: Digit)
    requires k < 8
    decreases 8 - k
  {
    if k == 7 then n % 32 else Bits(n / 32, k + 1)
  }

  lemma {:induction false} BitsBehind(h: nat, d: Digit, k: nat)
    requires k < 8
    ensures Bits(Behind(h, d), k) == if k == 7 then d else Bits(h, k + 1)
  {
  }

  lemma {:induction false} BitsOf(d: Octet, n: nat, k: nat)
    requires n <= 8 && k < 8 && n + k >= 8
    ensures Bits(InBase32(d, n), k) == d[n + k - 8]
  {
    BitsBehind(InBase32(d, n - 1), d[n - 1], k);
    if k < 7 {
      BitsOf(d, n - 1, k + 1);
    }
  }

  /** Digit k is bits 5k to 5k+4 of the forty. */
  lemma {:induction false} DigitIsItsBits(b: Group, k: nat)
    requires k < 8
    ensures Spread(b)[k] == Bits(Forty(b), k)
  {
    SpreadIsTheNumber(b);
    BitsOf(Spread(b), 8, k);
  }

  /** A code's symbols are its bytes' digits, group after group. */
  lemma {:induction false} SymbolIsItsBits(b: Bytes, g: nat, k: nat)
    requires |b| % 5 == 0 && 5 * g + 5 <= |b| && k < 8
    ensures Encode(b)[8 * g + k] == ALPHABET[Bits(Forty(b[5 * g..5 * g + 5]), k)]
  {
    EncodeByAt(b, EncodeGroup, g, k);
    DigitIsItsBits(b[5 * g..5 * g + 5], k);
  }

  lemma {:induction false} EncodeByAt(b: Bytes, encode: Group -> RawGroup, g: nat, k: nat)
    requires |b| % 5 == 0 && 5 * g + 5 <= |b| && k < 8
    ensures EncodeBy(b, encode)[8 * g + k] == encode(b[5 * g..5 * g + 5])[k]
  {
    if g > 0 {
      EncodeByAt(b[5..], encode, g - 1, k);
      assert b[5..][5 * (g - 1)..5 * (g - 1) + 5] == b[5 * g..5 * g + 5];
    }
  }
}
