/** The string normalizations that decide whether two model keys are the same. */
module Text {

  datatype Option<+T> = None | Some(value: T)

  /** `char::is_whitespace`: the Unicode White_Space property. */
  predicate IsWhitespace(c: char) {
    var n := c as int;
    || 9 <= n <= 13 || n == 32 || n == 0x85 || n == 0xA0 || n == 0x1680
    || 0x2000 <= n <= 0x200A || n == 0x2028 || n == 0x2029 || n == 0x202F || n == 0x205F || n == 0x3000
  }

  function TrimStart(s: string): (r: string)
    ensures r == [] || !IsWhitespace(r[0])
    ensures |r| <= |s|
    ensures s != [] && IsWhitespace(s[0]) ==> |r| < |s|
  {
    if s != [] && IsWhitespace(s[0]) then TrimStart(s[1..]) else s
  }

  function TrimEnd(s: string): (r: string)
    ensures r == [] || !IsWhitespace(r[|r| - 1])
    ensures r <= s
  {
    if s != [] && IsWhitespace(s[|s| - 1]) then TrimEnd(s[..|s| - 1]) else s
  }

  /** `str::trim` */
  function Trim(s: string): string {
    TrimEnd(TrimStart(s))
  }

  lemma {:induction false} TrimStartCuts(s: string) returns (i: nat)
    ensures i <= |s| && TrimStart(s) == s[i..] && forall k | 0 <= k < i :: IsWhitespace(s[k])
  {
    i := 0;
    if s != [] && IsWhitespace(s[0]) {
      var rest := s[1..];
      var j := TrimStartCuts(rest);
      i := j + 1;
      assert forall k | 0 < k < i :: s[k] == rest[k - 1];
    }
  }

  lemma {:induction false} TrimEndCuts(s: string)
    ensures TrimEnd(s) == s[..|TrimEnd(s)|] && forall k | |TrimEnd(s)| <= k < |s| :: IsWhitespace(s[k])
  {
    if s != [] && IsWhitespace(s[|s| - 1]) {
      TrimEndCuts(s[..|s| - 1]);
    }
  }

  /** Trimming takes away the blanks at both ends, and nothing else. */
  lemma {:induction false} TrimIsMiddle(s: string) returns (i: nat, j: nat)
    ensures i <= j <= |s| && Trim(s) == s[i..j]
    ensures forall k | 0 <= k < i || j <= k < |s| :: IsWhitespace(s[k])
    ensures i < j ==> !IsWhitespace(s[i]) && !IsWhitespace(s[j - 1])
  {
    i := TrimStartCuts(s);
    var rest := s[i..];
    TrimEndCuts(rest);
    j := i + |TrimEnd(rest)|;
    forall k | j <= k < |s|
      ensures IsWhitespace(s[k])
    {
      assert rest[k - i] == s[k];
    }
  }

  function AsciiLowerChar(c: char): char {
    if 'A' <= c <= 'Z' then (c as int + 32) as char else c
  }

  /** `str::to_ascii_lowercase` */
  function AsciiLower(s: string): (r: string)
    ensures |r| == |s|
    ensures forall i | 0 <= i < |s| :: r[i] == AsciiLowerChar(s[i])
  {
    if s == [] then [] else [AsciiLowerChar(s[0])] + AsciiLower(s[1..])
  }

  function DotToDash(s: string): (r: string)
    ensures |r| == |s|
    ensures forall i | 0 <= i < |s| :: r[i] == if s[i] == '.' then '-' else s[i]
  {
    if s == [] then [] else [if s[0] == '.' then '-' else s[0]] + DotToDash(s[1..])
  }

  const VENDOR_PREFIX := "anthropic/"

  /** The part of `canonical_model_id` that comes before the vendor prefix is looked at */
  function Folded(model: string): string {
    DotToDash(AsciiLower(Trim(model)))
  }

  /** `canonical_model_id` */
  function Canonical(model: string): string {
    var normalized := Folded(model);
    if VENDOR_PREFIX <= normalized then normalized[|VENDOR_PREFIX|..] else normalized
  }

  /** Character by character: capitals become small, dots become dashes, and nothing else changes.  The
      prefix "anthropic/" is then dropped. */
  lemma {:induction false} CanonicalSpelled(model: string)
    ensures |Folded(model)| == |Trim(model)|
    ensures forall i | 0 <= i < |Folded(model)| ::
              var c := Trim(model)[i];
              Folded(model)[i]
              == if 'A' <= c <= 'Z' then (c as int + 32) as char else if c == '.' then '-' else c
    ensures Canonical(model) == if "anthropic/" <= Folded(model) then Folded(model)[10..] else Folded(model)
  {}

  predicate Plain(c: char) {
    AsciiLowerChar(c) == c && c != '.'
  }

  lemma {:induction false} FoldedIsPlain(s: string)
    ensures forall c | c in DotToDash(AsciiLower(s)) :: Plain(c)
  {
    var folded := DotToDash(AsciiLower(s));
    assert forall i | 0 <= i < |folded| :: Plain(folded[i]);
  }

  lemma {:induction false} EndIsPlain(s: string, n: nat)
    requires n <= |s| && forall c | c in s :: Plain(c)
    requires s == [] || !IsWhitespace(s[|s| - 1])
    ensures forall c | c in s[n..] :: Plain(c)
    ensures var r := s[n..]; r == [] || !IsWhitespace(r[|r| - 1])
  {}

  lemma {:induction false} FoldedEnds(model: string)
    ensures var r := Folded(model); r != [] ==> !IsWhitespace(r[0]) && !IsWhitespace(r[|r| - 1])
  {
    TrimmedEnds(model);
    var trimmed := Trim(model);
    if trimmed != [] {
      FoldKeepsBlank(trimmed[0]);
      FoldKeepsBlank(trimmed[|trimmed| - 1]);
    }
  }

  lemma {:induction false} TrimmedEnds(s: string)
    ensures var r := Trim(s); r != [] ==> !IsWhitespace(r[0]) && !IsWhitespace(r[|r| - 1])
  {}

  lemma {:induction false} FoldKeepsBlank(c: char)
    ensures IsWhitespace(if AsciiLowerChar(c) == '.' then '-' else AsciiLowerChar(c)) == IsWhitespace(c)
  {}

  lemma {:induction false} CanonicalIsPlain(model: string)
    ensures forall c | c in Canonical(model) :: Plain(c)
    ensures var r := Canonical(model); r == [] || !IsWhitespace(r[|r| - 1])
  {
    FoldedIsPlain(Trim(model));
    FoldedEnds(model);
    EndIsPlain(Folded(model), if VENDOR_PREFIX <= Folded(model) then |VENDOR_PREFIX| else 0);
  }

  lemma {:induction false} TrimNothing(s: string)
    requires s == [] || (!IsWhitespace(s[0]) && !IsWhitespace(s[|s| - 1]))
    ensures Trim(s) == s
  {}

  lemma {:induction false} NormalizePlain(s: string)
    requires forall c | c in s :: Plain(c)
    ensures DotToDash(AsciiLower(s)) == s
  {
    assert forall i | 0 <= i < |s| :: s[i] in s;
  }

  lemma {:induction false} CanonicalOfCanonical(model: string)
    ensures var once := Canonical(model);
            Canonical(once) == once
            <==> !(VENDOR_PREFIX <= once) && (once == [] || !IsWhitespace(once[0]))
  {
    var once := Canonical(model);
    CanonicalIsPlain(model);
    if once != [] && IsWhitespace(once[0]) {
      CanonicalShrinks(once);
    } else {
      CanonicalOfTrimmed(once);
    }
  }

  lemma {:induction false} CanonicalShrinks(s: string)
    requires s != [] && IsWhitespace(s[0])
    ensures |Canonical(s)| < |s|
  {
    assert |Trim(s)| < |s|;
  }

  /** Without blanks around it and with nothing to fold, an id at most loses a prefix. */
  lemma {:induction false} CanonicalOfTrimmed(s: string)
    requires s == [] || (!IsWhitespace(s[0]) && !IsWhitespace(s[|s| - 1]))
    requires forall c | c in s :: Plain(c)
    ensures Canonical(s) == s <==> !(VENDOR_PREFIX <= s)
  {
    TrimNothing(s);
    NormalizePlain(s);
  }

  /** The vendor prefix is followed by a second one. */
  predicate PrefixedTwice(folded: string) {
    VENDOR_PREFIX + VENDOR_PREFIX <= folded
  }

  /** The vendor prefix is followed by a blank. */
  predicate BlankAfterPrefix(folded: string) {
    VENDOR_PREFIX <= folded && |folded| > |VENDOR_PREFIX| && IsWhitespace(folded[|VENDOR_PREFIX|])
  }

  lemma {:induction false} PrefixTwice(prefix: string, s: string)
    ensures prefix + prefix <= s <==> prefix <= s && prefix <= s[|prefix|..]
  {
    if prefix <= s && prefix <= s[|prefix|..] {
      var rest := s[|prefix|..];
      assert s == prefix + rest && rest == prefix + rest[|prefix|..];
      assert s == (prefix + prefix) + rest[|prefix|..];
    }
    if prefix + prefix <= s {
      assert s == (prefix + prefix) + s[2 * |prefix|..];
      assert s == prefix + (prefix + s[2 * |prefix|..]);
    }
  }

  lemma {:induction false} StrippedOnce(folded: string, once: string)
    requires once == if VENDOR_PREFIX <= folded then folded[|VENDOR_PREFIX|..] else folded
    requires folded != [] ==> !IsWhitespace(folded[0])
    ensures PrefixedTwice(folded) <==> VENDOR_PREFIX <= once
    ensures BlankAfterPrefix(folded) <==> once != [] && IsWhitespace(once[0])
  {
    PrefixTwice(VENDOR_PREFIX, folded);
  }

  /** Canonicalizing twice changes nothing exactly when the trimmed, folded model id does not carry
      the vendor prefix twice, nor a blank behind it.  The server canonicalizes model ids the client
      has already canonicalized, so this is when both sides agree on a model's name. */
  lemma {:induction false} CanonicalIdempotent(model: string)
    ensures Canonical(Canonical(model)) == Canonical(model)
       <==> !PrefixedTwice(Folded(model)) && !BlankAfterPrefix(Folded(model))
  {
    CanonicalOfCanonical(model);
    FoldedEnds(model);
    StrippedOnce(Folded(model), Canonical(model));
  }

  lemma {:induction false} TrimEndAppend(s: string, t: string)
    requires s != [] && !IsWhitespace(s[|s| - 1])
    ensures TrimEnd(s + t) == s + TrimEnd(t)
  {
    if t == [] {
      assert s + t == s;
    } else {
      assert (s + t)[..|s + t| - 1] == s + t[..|t| - 1];
      TrimEndAppend(s, t[..|t| - 1]);
    }
  }

  lemma {:induction false} LowerAppend(s: string, t: string)
    ensures AsciiLower(s + t) == AsciiLower(s) + AsciiLower(t)
  {}

  lemma {:induction false} DashAppend(s: string, t: string)
    ensures DotToDash(s + t) == DotToDash(s) + DotToDash(t)
  {}

  lemma {:induction false} FoldAppend(s: string, t: string)
    ensures DotToDash(AsciiLower(s + t)) == DotToDash(AsciiLower(s)) + DotToDash(AsciiLower(t))
  {
    LowerAppend(s, t);
    DashAppend(AsciiLower(s), AsciiLower(t));
  }

  /** A spelling of the vendor prefix, in whatever case */
  predicate Vendor(prefix: string) {
    DotToDash(AsciiLower(prefix)) == VENDOR_PREFIX
  }

  lemma {:induction false} VendorEnds(prefix: string)
    requires Vendor(prefix)
    ensures prefix != [] && !IsWhitespace(prefix[0]) && !IsWhitespace(prefix[|prefix| - 1])
  {
    FoldKeepsBlank(prefix[0]);
    FoldKeepsBlank(prefix[|prefix| - 1]);
  }

  lemma {:induction false} FoldedAfter(prefix: string, name: string)
    requires prefix != [] && !IsWhitespace(prefix[0]) && !IsWhitespace(prefix[|prefix| - 1])
    ensures Folded(prefix + name) == DotToDash(AsciiLower(prefix)) + FoldedEnd(name)
  {
    assert TrimStart(prefix + name) == prefix + name;
    TrimEndAppend(prefix, name);
    FoldAppend(prefix, TrimEnd(name));
  }

  /** A model id behind a prefix: folded, and trimmed at its end only */
  function FoldedEnd(name: string): string {
    DotToDash(AsciiLower(TrimEnd(name)))
  }

  lemma {:induction false} StripVendor(prefix: string, name: string)
    requires Vendor(prefix)
    ensures Canonical(prefix + name) == FoldedEnd(name)
  {
    VendorEnds(prefix);
    FoldedAfter(prefix, name);
  }

  /** A vendor prefix is stripped once, whatever follows it: what remains is the rest of the model
      id, folded and with its end trimmed.  Of two prefixes the second one stays. */
  lemma {:induction false} CanonicalStripsOnePrefix(prefix: string, second: string, name: string)
    requires Vendor(prefix) && Vendor(second)
    ensures Canonical(prefix + name) == FoldedEnd(name)
    ensures Canonical(prefix + (second + name)) == VENDOR_PREFIX + FoldedEnd(name)
  {
    StripVendor(prefix, name);
    StripVendor(prefix, second + name);
    VendorEnds(second);
    TrimEndAppend(second, name);
    FoldAppend(second, TrimEnd(name));
  }

  lemma {:induction false} VendorSpelled(prefix: string)
    requires prefix == VENDOR_PREFIX
    ensures Vendor(prefix)
  {
    forall c | c in prefix
      ensures Plain(c)
    {
      var i :| 0 <= i < |VENDOR_PREFIX| && VENDOR_PREFIX[i] == c;
    }
    NormalizePlain(prefix);
  }

  /** A vendor prefix written twice is lost in two passes: canonicalizing is not idempotent. */
  lemma {:induction false} CanonicalNotIdempotent(prefix: string, name: string)
    requires prefix == VENDOR_PREFIX
    ensures var model := prefix + (prefix + name);
            |Canonical(Canonical(model))| < |Canonical(model)|
  {
    VendorSpelled(prefix);
    CanonicalStripsOnePrefix(prefix, prefix, name);
    StripVendor(prefix, FoldedEnd(name));
    TrimEndShorter(FoldedEnd(name));
  }

  lemma {:induction false} TrimEndShorter(s: string)
    ensures |FoldedEnd(s)| <= |s|
  {}
}
