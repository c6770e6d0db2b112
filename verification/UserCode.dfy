/** User codes: eight symbols that stand for 40 random bits, to be typed by a human. */
module UserCode {
  import opened Text
  import F = Framing

  const ALPHABET := "0123456789ABCDEFGHJKMNPQRSTVWXYZ"

  /** The alphabet by position: digits and capitals without I, L, O and U */
  function SymbolAt(n: nat): char
    requires n < 32
  {
    if n < 10 then '0' + n as char
    else if n < 18 then 'A' + (n - 10) as char
    else if n < 20 then 'J' + (n - 18) as char
    else if n < 22 then 'M' + (n - 20) as char
    else if n < 27 then 'P' + (n - 22) as char
    else 'V' + (n - 27) as char
  }

  lemma {:induction false} AlphabetIsThat(n: nat)
    requires n < 32
    ensures |ALPHABET| == 32 && ALPHABET[n] == SymbolAt(n)
  {}

  predicate Symbol(c: char) {
    '0' <= c <= '9' || ('A' <= c <= 'Z' && c != 'I' && c != 'L' && c != 'O' && c != 'U')
  }

  function IndexOf(c: char): (n: nat)
    requires Symbol(c)
    ensures n < 32 && SymbolAt(n) == c
  {
    if c <= '9' then (c - '0') as nat
    else if c <= 'H' then (c - 'A') as nat + 10
    else if c <= 'K' then (c - 'J') as nat + 18
    else if c <= 'N' then (c - 'M') as nat + 20
    else if c <= 'T' then (c - 'P') as nat + 22
    else (c - 'V') as nat + 27
  }

  lemma {:induction false} SymbolsAreDistinct(n: nat)
    requires n < 32
    ensures Symbol(SymbolAt(n)) && IndexOf(SymbolAt(n)) == n
  {}

  predicate Spelled(s: string) {
    forall i | 0 <= i < |s| :: Symbol(s[i])
  }

  predicate Code(s: string) {
    |s| == 8 && Spelled(s)
  }

  /* ---- 40 bits and eight symbols ---- */

  /** The low five bits come last. */
  function Symbols(n: nat, width: nat): (s: string)
    ensures |s| == width
  {
    if width == 0 then [] else Symbols(n / 32, width - 1) + [SymbolAt(n % 32)]
  }

  function Value(s: string): nat
    requires Spelled(s)
  {
    if s == [] then 0 else Value(s[..|s| - 1]) * 32 + IndexOf(s[|s| - 1])
  }

  lemma {:induction false} FortyBits()
    ensures F.Power(32, 8) == F.Power(256, 5) == 0x100_0000_0000
  {
    assert F.Power(32, 4) == 1048576;
    assert F.Power(256, 2) == 65536;
    assert F.Power(256, 4) == 256 * (256 * F.Power(256, 2));
    assert F.Power(32, 8) == 32 * (32 * (32 * (32 * F.Power(32, 4))));
  }

  lemma {:induction false} Fives(n: nat, p: nat)
    requires n < 32 * p
    ensures n / 32 < p && n == n / 32 * 32 + n % 32
  {}

  /** Every number of 40 bits is printed in a way that gives it back. */
  lemma {:induction false} ValueOfSymbols(n: nat, width: nat)
    requires n < F.Power(32, width)
    ensures Spelled(Symbols(n, width)) && Value(Symbols(n, width)) == n
  {
    if width > 0 {
      Fives(n, F.Power(32, width - 1));
      ValueOfSymbols(n / 32, width - 1);
      SymbolsAreDistinct(n % 32);
      assert Symbols(n, width)[..width - 1] == Symbols(n / 32, width - 1);
    }
  }

  lemma {:induction false} LastFive(v: nat, i: nat)
    requires i < 32
    ensures (v * 32 + i) / 32 == v && (v * 32 + i) % 32 == i
  {}

  /** Every code is printed from exactly one number. */
  lemma {:induction false} SymbolsOfValue(s: string)
    requires Spelled(s)
    ensures Value(s) < F.Power(32, |s|) && Symbols(Value(s), |s|) == s
  {
    if s != [] {
      var front := s[..|s| - 1];
      SymbolsOfValue(front);
      LastFive(Value(front), IndexOf(s[|s| - 1]));
    }
  }

  /** Codes and 40-bit numbers correspond one to one. */
  lemma {:induction false} CodesAreFortyBits(n: nat, s: string)
    requires n < 0x100_0000_0000 && Code(s)
    ensures Code(Symbols(n, 8)) && Value(s) < 0x100_0000_0000
    ensures Symbols(n, 8) == s <==> Value(s) == n
  {
    FortyBits();
    ValueOfSymbols(n, 8);
    SymbolsOfValue(s);
  }

  function Bits(bytes: F.Bytes): nat {
    if bytes == [] then 0 else Bits(bytes[..|bytes| - 1]) * 256 + bytes[|bytes| - 1]
  }

  lemma {:induction false} BitsFit(bytes: F.Bytes)
    ensures Bits(bytes) < F.Power(256, |bytes|)
  {
    if bytes != [] {
      BitsFit(bytes[..|bytes| - 1]);
    }
  }

  lemma {:induction false} LastByte(v: nat, b: nat, v': nat, b': nat)
    requires b < 256 && b' < 256 && v * 256 + b == v' * 256 + b'
    ensures v == v' && b == b'
  {}

  lemma {:induction false} BitsInjective(a: F.Bytes, b: F.Bytes)
    requires |a| == |b| && Bits(a) == Bits(b)
    ensures a == b
  {
    if a != [] {
      var front, front' := a[..|a| - 1], b[..|b| - 1];
      LastByte(Bits(front), a[|a| - 1], Bits(front'), b[|b| - 1]);
      BitsInjective(front, front');
      assert a == front + [a[|a| - 1]] && b == front' + [b[|b| - 1]];
    }
  }

  /** `display_user_code` */
  function Display(code: string): (r: string)
    requires |code| == 8
    ensures |r| == 9 && r[..4] == code[..4] && r[4] == '-' && r[5..] == code[4..]
  {
    code[..4] + "-" + code[4..]
  }

  /** `generate_user_code`, given the five random bytes */
  method GenerateUserCode(bytes: F.Bytes) returns (code: string)
    requires |bytes| == 5
    ensures code == Display(Symbols(Bits(bytes), 8))
  {
    var bits: nat := 0;
    for i := 0 to |bytes|
      invariant bits == Bits(bytes[..i])
    {
      assert bytes[..i + 1][..i] == bytes[..i];
      bits := bits * 256 + bytes[i];
    }
    assert bytes[..|bytes|] == bytes;
    var symbols := new char[8](_ => '0');
    for index := 8 downto 0
      invariant Symbols(bits, index) + symbols[index..] == Symbols(Bits(bytes), 8)
    {
      symbols[index] := SymbolAt(bits % 32);
      bits := bits / 32;
      assert symbols[index..] == [symbols[index]] + symbols[index + 1..];
    }
    code := Display(symbols[..]);
  }

  /* ---- What a human types ---- */

  /** `is_ascii_whitespace`, or a hyphen */
  predicate Skipped(c: char) {
    c == ' ' || c == '\t' || c == '\n' || c == 12 as char || c == '\r' || c == '-'
  }

  function Upper(c: char): char {
    if 'a' <= c <= 'z' then c - 32 as char else c
  }

  function Folded(c: char): char {
    var u := Upper(c);
    if u == 'O' then '0' else if u == 'I' || u == 'L' then '1' else u
  }

  function Cleaned(s: string): string {
    if s == [] then [] else (if Skipped(s[0]) then [] else [Folded(s[0])]) + Cleaned(s[1..])
  }

  /** `normalize_user_code`.  The program counts bytes and looks at bytes; where all of them are
      symbols, bytes are characters. */
  function Normalize(s: string): Option<string> {
    if Code(Cleaned(s)) then Some(Cleaned(s)) else None
  }

  /** The ways to write a symbol */
  predicate Reads(c: char, symbol: char) {
    || c == symbol
    || ('A' <= symbol <= 'Z' && c == symbol + 32 as char)
    || (symbol == '0' && (c == 'O' || c == 'o'))
    || (symbol == '1' && (c == 'I' || c == 'i' || c == 'L' || c == 'l'))
  }

  /** A blank, a tab, an end of line, a page break, or a hyphen */
  predicate Separates(c: char) {
    var n := c as int;
    n == 32 || n == 9 || n == 10 || n == 13 || n == 12 || n == 45
  }

  /** `text` spells `code`: its symbols in order, each in one of these ways, with any hyphens and
      blanks in between. */
  predicate Spells(text: string, code: string) {
    if text == [] then code == []
    else if Separates(text[0]) then Spells(text[1..], code)
    else code != [] && Reads(text[0], code[0]) && Spells(text[1..], code[1..])
  }

  lemma {:induction false} ReadsIsFolded(c: char, symbol: char)
    requires Symbol(symbol)
    ensures Reads(c, symbol) && !Skipped(c) <==> Folded(c) == symbol
  {}

  lemma {:induction false} SpellsIsCleaned(text: string, code: string)
    requires Spelled(code)
    ensures Spells(text, code) <==> Cleaned(text) == code
  {
    if text != [] {
      if Skipped(text[0]) {
        SpellsIsCleaned(text[1..], code);
      } else if code != [] {
        ReadsIsFolded(text[0], code[0]);
        SpellsIsCleaned(text[1..], code[1..]);
        assert code == [code[0]] + code[1..];
      }
    }
  }

  /** A text is accepted as a code exactly when it spells that code. */
  lemma {:induction false} NormalizeReadsSpelling(text: string, code: string)
    ensures Normalize(text) == Some(code) <==> Code(code) && Spells(text, code)
  {
    if Code(code) {
      SpellsIsCleaned(text, code);
    }
  }

  lemma {:induction false} CleanedAppend(a: string, b: string)
    ensures Cleaned(a + b) == Cleaned(a) + Cleaned(b)
  {
    if a == [] {
      assert a + b == b;
    } else {
      assert (a + b)[1..] == a[1..] + b;
      CleanedAppend(a[1..], b);
    }
  }

  lemma {:induction false} SymbolsAreClean(s: string)
    requires Spelled(s)
    ensures Cleaned(s) == s
  {
    if s != [] {
      ReadsIsFolded(s[0], s[0]);
      SymbolsAreClean(s[1..]);
    }
  }

  lemma {:induction false} HyphenIsSkipped(a: string, b: string)
    requires Spelled(a) && Spelled(b)
    ensures Cleaned(a + "-" + b) == a + b
  {
    SymbolsAreClean(a);
    SymbolsAreClean(b);
    CleanedAppend(a, "-");
    CleanedAppend(a + "-", b);
    assert "-"[1..] == [];
    assert a + [] == a;
  }

  /** Normalizing undoes displaying, and normalizing again changes nothing. */
  lemma {:induction false} DisplayRoundTrip(code: string)
    requires Code(code)
    ensures Normalize(Display(code)) == Some(code) && Normalize(code) == Some(code)
  {
    HyphenIsSkipped(code[..4], code[4..]);
    assert code[..4] + code[4..] == code;
    SymbolsAreClean(code);
  }

  lemma {:induction false} NormalizeIdempotent(text: string)
    requires Normalize(text).Some?
    ensures Normalize(Normalize(text).value) == Normalize(text)
    ensures Normalize(Display(Normalize(text).value)) == Normalize(text)
  {
    DisplayRoundTrip(Normalize(text).value);
  }

  /** A generated code is always accepted and stands for the bytes it was made from. */
  lemma {:induction false} GeneratedIsAccepted(bytes: F.Bytes)
    requires |bytes| == 5
    ensures var code := Symbols(Bits(bytes), 8);
            Code(code) && Normalize(Display(code)) == Some(code) && Value(code) == Bits(bytes)
  {
    BitsFit(bytes);
    FortyBits();
    ValueOfSymbols(Bits(bytes), 8);
    DisplayRoundTrip(Symbols(Bits(bytes), 8));
  }

  /** Different bytes give different codes, however these are written. */
  lemma {:induction false} CodesDiffer(a: F.Bytes, b: F.Bytes, text: string)
    requires |a| == |b| == 5
    requires Normalize(text) == Some(Symbols(Bits(a), 8)) && Normalize(text) == Some(Symbols(Bits(b), 8))
    ensures a == b
  {
    GeneratedIsAccepted(a);
    GeneratedIsAccepted(b);
    BitsInjective(a, b);
  }

  lemma {:induction false} BitsSnoc(bytes: F.Bytes, b: nat)
    requires b < 256
    ensures Bits(bytes + [b]) == Bits(bytes) * 256 + b
  {
    assert (bytes + [b])[..|bytes|] == bytes;
  }

  /** The first byte is the highest one. */
  lemma {:induction false} BitsAreBigEndian(bytes: F.Bytes)
    requires |bytes| == 5
    ensures Bits(bytes)
         == bytes[0] as nat * 0x1_0000_0000 + bytes[1] as nat * 0x100_0000 + bytes[2] as nat * 0x1_0000
            + bytes[3] as nat * 0x100 + bytes[4]
  {
    BitsSnoc([], bytes[0]);
    BitsSnoc([] + [bytes[0]], bytes[1]);
    BitsSnoc([] + [bytes[0]] + [bytes[1]], bytes[2]);
    BitsSnoc([] + [bytes[0]] + [bytes[1]] + [bytes[2]], bytes[3]);
    BitsSnoc([] + [bytes[0]] + [bytes[1]] + [bytes[2]] + [bytes[3]], bytes[4]);
    assert bytes == [] + [bytes[0]] + [bytes[1]] + [bytes[2]] + [bytes[3]] + [bytes[4]];
  }
}
