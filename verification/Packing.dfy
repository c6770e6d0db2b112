/** Packing the intents of pending turns into classification requests. */
module Packing {
  /* `classify_turns` cuts the list of pending intents greedily, at twelve items or 16 KiB per
     request.  The managed endpoint checks limits of its own.  The cut always meets them, and no
     other cut of the list into requests within the limits is shorter. */

  import opened Ledgers
  import opened Sequences
  import opened Text

  /* ---- Intents ---- */

  /** Bytes of a character in UTF-8 */
  function Width(c: char): nat {
    var n := c as int;
    if n < 0x80 then 1 else if n < 0x800 then 2 else if n < 0x1_0000 then 3 else 4
  }

  /** `str::len` */
  function Bytes(s: string): nat {
    if s == [] then 0 else Bytes(s[..|s| - 1]) + Width(s[|s| - 1])
  }

  predicate Solid(s: string) {
    s != [] && forall i | 0 <= i < |s| :: !IsWhitespace(s[i])
  }

  /** `split_whitespace`: the longest stretches without blanks */
  function Words(s: string): (ws: seq<string>)
    ensures forall i | 0 <= i < |ws| :: Solid(ws[i])
    ensures ws == [] <==> forall i | 0 <= i < |s| :: IsWhitespace(s[i])
    ensures s != [] && !IsWhitespace(s[|s| - 1]) ==> ws != []
  {
    if s == [] then []
    else
      var before, c := Words(s[..|s| - 1]), s[|s| - 1];
      if IsWhitespace(c) then before
      else if |s| > 1 && !IsWhitespace(s[|s| - 2]) then before[..|before| - 1] + [before[|before| - 1] + [c]]
      else before + [[c]]
  }

  /** `join(" ")` */
  function Join(ws: seq<string>): (r: string)
    requires forall i | 0 <= i < |ws| :: Solid(ws[i])
    ensures ws == [] ==> r == []
    ensures ws != [] ==> Solid(ws[0]) && r != [] && r[0] == ws[0][0]
  {
    if ws == [] then []
    else if |ws| == 1 then assert Solid(ws[0]); ws[0]
    else Join(ws[..|ws| - 1]) + " " + ws[|ws| - 1]
  }

  const MAX_INTENT_CHARS := 2048

  function Take(s: string, n: nat): string {
    if |s| <= n then s else s[..n]
  }

  /** `str::to_lowercase`, of which only this is used: a character's lower case takes no more than
      four bytes, and a blank is its own lower case. */
  ghost predicate Lowers(lower: string -> string) {
    && (forall s :: Bytes(lower(s)) <= 4 * |s|)
    && (forall s :: s != [] && !IsWhitespace(s[0]) ==> lower(s) != [] && !IsWhitespace(lower(s)[0]))
    && (forall s :: s == [] ==> lower(s) == [])
  }

  function NormalizeIntent(text: string, lower: string -> string): string {
    lower(Take(Join(Words(text)), MAX_INTENT_CHARS))
  }

  /** The words when one more character has been read; `inWord` if the one before was not blank */
  function AddChar(ws: seq<string>, inWord: bool, c: char): seq<string> {
    if IsWhitespace(c) then ws
    else if inWord && ws != [] then ws[..|ws| - 1] + [ws[|ws| - 1] + [c]]
    else ws + [[c]]
  }

  predicate EndsInWord(s: string) {
    s != [] && !IsWhitespace(s[|s| - 1])
  }

  lemma {:induction false} WordsSnoc(s: string, c: char)
    ensures Words(s + [c]) == AddChar(Words(s), EndsInWord(s), c)
  {
    assert (s + [c])[..|s|] == s;
  }

  lemma {:induction false} AddCharAppend(a: seq<string>, b: seq<string>, inWord: bool, c: char)
    requires inWord ==> b != []
    ensures AddChar(a + b, inWord, c) == a + AddChar(b, inWord, c)
  {
    if inWord {
      assert (a + b)[..|a + b| - 1] == a + b[..|b| - 1];
    }
  }

  lemma {:induction false} WordsAppendSnoc(a: string, blank: char, b: string, c: char)
    requires IsWhitespace(blank) && Words(a + [blank] + b) == Words(a) + Words(b)
    ensures Words((a + [blank] + b) + [c]) == Words(a) + Words(b + [c])
  {
    WordsSnoc(a + [blank] + b, c);
    WordsSnoc(b, c);
    AddCharAppend(Words(a), Words(b), EndsInWord(b), c);
  }

  /** A blank ends a word, and nothing else does. */
  lemma {:induction false} WordsAppend(a: string, blank: char, b: string)
    requires IsWhitespace(blank)
    ensures Words(a + [blank] + b) == Words(a) + Words(b)
  {
    if b == [] {
      assert a + [blank] + b == a + [blank];
      WordsSnoc(a, blank);
    } else {
      var front, c := b[..|b| - 1], b[|b| - 1];
      assert b == front + [c] && a + [blank] + b == (a + [blank] + front) + [c];
      WordsAppend(a, blank, front);
      WordsAppendSnoc(a, blank, front, c);
    }
  }

  lemma {:induction false} SolidIsWord(w: string)
    requires Solid(w)
    ensures Words(w) == [w]
  {
    var front, c := w[..|w| - 1], w[|w| - 1];
    assert w == front + [c];
    WordsSnoc(front, c);
    if front != [] {
      SolidIsWord(front);
    }
  }

  predicate Solids(ws: seq<string>) {
    forall i | 0 <= i < |ws| :: Solid(ws[i])
  }

  lemma {:induction false} JoinOne(ws: seq<string>)
    requires Solids(ws) && |ws| == 1
    ensures Words(Join(ws)) == ws
  {
    SolidIsWord(ws[0]);
    assert Join(ws) == ws[0];
  }

  lemma {:induction false} JoinNext(joined: string, front: seq<string>, last: string, whole: string, ws: seq<string>)
    requires Words(joined) == front && Solid(last)
    requires whole == joined + " " + last && ws == front + [last]
    ensures Words(whole) == ws
  {
    SolidIsWord(last);
    WordsAppend(joined, ' ', last);
  }

  lemma {:induction false} JoinLast(ws: seq<string>)
    requires Solids(ws) && |ws| > 1
    ensures Join(ws) == Join(ws[..|ws| - 1]) + " " + ws[|ws| - 1]
  {}

  /** Joining keeps the words. */
  lemma {:induction false} JoinKeepsWords(ws: seq<string>)
    requires Solids(ws)
    ensures Words(Join(ws)) == ws
  {
    if |ws| == 1 {
      JoinOne(ws);
    } else if ws != [] {
      var front, last := ws[..|ws| - 1], ws[|ws| - 1];
      JoinKeepsWords(front);
      JoinLast(ws);
      JoinNext(Join(front), front, last, Join(ws), ws);
    }
  }

  /** Only single blanks, and none at the ends */
  predicate SinglyBlank(s: string) {
    forall i | 0 <= i < |s| && IsWhitespace(s[i]) ::
      s[i] == ' ' && 0 < i < |s| - 1 && !IsWhitespace(s[i - 1]) && !IsWhitespace(s[i + 1])
  }

  lemma {:induction false} BlankBetween(a: string, b: string)
    requires a != [] && SinglyBlank(a) && Solid(b)
    ensures SinglyBlank(a + " " + b)
  {
    var whole := a + " " + b;
    forall i | 0 <= i < |whole| && IsWhitespace(whole[i])
      ensures whole[i] == ' ' && 0 < i < |whole| - 1 && !IsWhitespace(whole[i - 1]) && !IsWhitespace(whole[i + 1])
    {
      if i < |a| {
        assert IsWhitespace(a[i]);
      } else {
        assert i == |a| && whole[i - 1] == a[|a| - 1] && whole[i + 1] == b[0];
      }
    }
  }

  /** It puts one blank between them. */
  lemma {:induction false} JoinIsSinglyBlank(ws: seq<string>)
    requires Solids(ws)
    ensures SinglyBlank(Join(ws))
  {
    if |ws| == 1 {
      assert Solid(ws[0]);
    } else if ws != [] {
      JoinIsSinglyBlank(ws[..|ws| - 1]);
      BlankBetween(Join(ws[..|ws| - 1]), ws[|ws| - 1]);
    }
  }

  predicate Intent(s: string) {
    s != [] && !IsWhitespace(s[0]) && Bytes(s) <= 4 * MAX_INTENT_CHARS
  }

  /** An intent is empty only for blank text; otherwise it starts with a word and is short. */
  lemma {:induction false} NormalizedIntent(text: string, lower: string -> string)
    requires Lowers(lower)
    ensures var intent := NormalizeIntent(text, lower);
            && (intent == [] <==> forall i | 0 <= i < |text| :: IsWhitespace(text[i]))
            && (intent != [] ==> Intent(intent))
  {
    var taken := Take(Join(Words(text)), MAX_INTENT_CHARS);
    assert taken != [] ==> taken[0] == Words(text)[0][0];
    assert Bytes(lower(taken)) <= 4 * |taken|;
  }

  /** It is the first 2048 characters of the text's words, with single blanks in between, in lower case. */
  lemma {:induction false} IntentIsCut(text: string, lower: string -> string) returns (joined: string)
    ensures Words(joined) == Words(text) && SinglyBlank(joined)
    ensures NormalizeIntent(text, lower) == lower(if |joined| <= 2048 then joined else joined[..2048])
  {
    joined := Join(Words(text));
    JoinKeepsWords(Words(text));
    JoinIsSinglyBlank(Words(text));
  }

  /* ---- Cuts ---- */

  const MAX_ITEMS := 12
  const MAX_BYTES := 16384

  /** Items `i` to `j` may form one request.  A single item always may, whatever its size. */
  predicate Fits(sizes: seq<nat>, i: nat, j: nat) {
    i < j <= |sizes| && j - i <= MAX_ITEMS && (j == i + 1 || Sum(sizes[i..j]) <= MAX_BYTES)
  }

  /** Nor may any more items. */
  predicate Full(sizes: seq<nat>, i: nat, j: nat) {
    forall j' | j < j' <= |sizes| :: !Fits(sizes, i, j')
  }

  /** `ends` cuts the items from `start` to `stop` into consecutive requests. */
  predicate Cuts(sizes: seq<nat>, start: nat, ends: seq<nat>, stop: nat)
    decreases ends
  {
    if ends == [] then start == stop else Fits(sizes, start, ends[0]) && Cuts(sizes, ends[0], ends[1..], stop)
  }

  /** No request could have taken more items. */
  predicate Greedy(sizes: seq<nat>, start: nat, ends: seq<nat>)
    decreases ends
  {
    ends == [] || (Full(sizes, start, ends[0]) && Greedy(sizes, ends[0], ends[1..]))
  }

  /** Starting later, one may reach at least as far. */
  lemma {:induction false} FitsFromLater(sizes: seq<nat>, i: nat, i': nat, j: nat)
    requires Fits(sizes, i, j) && i <= i' < j
    ensures Fits(sizes, i', j)
  {
    assert sizes[i..j] == sizes[i..i'] + sizes[i'..j];
    SumAppend(sizes[i..i'], sizes[i'..j]);
  }

  /** What does not fit does not fit with more items either. */
  lemma {:induction false} FitsFewer(sizes: seq<nat>, i: nat, j: nat, j': nat)
    requires Fits(sizes, i, j') && i < j <= j'
    ensures Fits(sizes, i, j)
  {
    assert sizes[i..j'] == sizes[i..j] + sizes[j..j'];
    SumAppend(sizes[i..j], sizes[j..j']);
  }

  /** The inner loop: as many items as one request takes */
  method FindEnd(sizes: seq<nat>, cursor: nat) returns (end: nat)
    requires cursor < |sizes|
    ensures Fits(sizes, cursor, end)
    ensures Full(sizes, cursor, end)
  {
    end := cursor;
    var bytes: u64 := 0;
    while end < |sizes| && end - cursor < MAX_ITEMS
      invariant cursor <= end <= |sizes| && end - cursor <= MAX_ITEMS
      invariant bytes == Min(Sum(sizes[cursor..end]), U64_MAX)
      invariant cursor < end ==> Fits(sizes, cursor, end)
    {
      var next := sizes[end];
      assert sizes[cursor..end + 1] == sizes[cursor..end] + [next];
      SumSnoc(sizes[cursor..end], next);
      if end > cursor && Min(bytes + next, U64_MAX) > MAX_BYTES {
        forall j | end < j <= |sizes|
          ensures !Fits(sizes, cursor, j)
        {
          if Fits(sizes, cursor, j) {
            FitsFewer(sizes, cursor, end + 1, j);
          }
        }
        return;
      }
      bytes := Min(bytes + next, U64_MAX);
      end := end + 1;
    }
  }

  lemma {:induction false} CutsSnoc(sizes: seq<nat>, start: nat, ends: seq<nat>, stop: nat, end: nat)
    requires Cuts(sizes, start, ends, stop) && Fits(sizes, stop, end)
    ensures Cuts(sizes, start, ends + [end], end)
    ensures Greedy(sizes, start, ends) && Full(sizes, stop, end) ==> Greedy(sizes, start, ends + [end])
    decreases ends
  {
    if ends != [] {
      assert (ends + [end])[1..] == ends[1..] + [end];
      CutsSnoc(sizes, ends[0], ends[1..], stop, end);
    }
  }

  lemma {:induction false} FullReachesFarther(sizes: seq<nat>, i: nat, j: nat, i': nat, j': nat)
    requires Fits(sizes, i, j) && Fits(sizes, i', j') && Full(sizes, i', j') && i <= i'
    ensures j <= j'
  {
    if j' < j {
      FitsFromLater(sizes, i, i', j);
    }
  }

  /** The greedy cut uses the fewest requests, even against a cut that has a head start. */
  lemma {:induction false} GreedyIsShortest(sizes: seq<nat>, start: nat, ends: seq<nat>, start': nat, others: seq<nat>)
    requires Cuts(sizes, start, ends, |sizes|) && Greedy(sizes, start, ends)
    requires Cuts(sizes, start', others, |sizes|) && start' <= start
    ensures |ends| <= |others|
    decreases ends
  {
    if ends != [] {
      FullReachesFarther(sizes, start', others[0], start, ends[0]);
      GreedyIsShortest(sizes, ends[0], ends[1..], others[0], others[1..]);
    }
  }

  /** There is only one greedy cut. */
  lemma {:induction false} GreedyIsUnique(sizes: seq<nat>, start: nat, ends: seq<nat>, others: seq<nat>)
    requires Cuts(sizes, start, ends, |sizes|) && Greedy(sizes, start, ends)
    requires Cuts(sizes, start, others, |sizes|) && Greedy(sizes, start, others)
    ensures ends == others
    decreases ends
  {
    if ends != [] {
      FullReachesFarther(sizes, start, others[0], start, ends[0]);
      FullReachesFarther(sizes, start, ends[0], start, others[0]);
      GreedyIsUnique(sizes, ends[0], ends[1..], others[1..]);
    } else {
      assert others == [];
    }
  }

  predicate Rising(start: nat, ends: seq<nat>, stop: nat)
    decreases ends
  {
    if ends == [] then start <= stop else start <= ends[0] <= stop && Rising(ends[0], ends[1..], stop)
  }

  /** The requests that a cut makes of the items */
  function Requests<T>(items: seq<T>, start: nat, ends: seq<nat>): seq<seq<T>>
    requires Rising(start, ends, |items|)
    decreases ends
  {
    if ends == [] then [] else [items[start..ends[0]]] + Requests(items, ends[0], ends[1..])
  }

  lemma {:induction false} CutsRise(sizes: seq<nat>, start: nat, ends: seq<nat>)
    requires Cuts(sizes, start, ends, |sizes|)
    ensures Rising(start, ends, |sizes|)
    decreases ends
  {
    if ends != [] {
      CutsRise(sizes, ends[0], ends[1..]);
      assert ends[1..] != [] ==> Fits(sizes, ends[0], ends[1..][0]);
    }
  }

  /** Every item is sent once, in order, and no request is empty. */
  lemma {:induction false} RequestsCoverItems<T>(items: seq<T>, sizes: seq<nat>, start: nat, ends: seq<nat>)
    requires |items| == |sizes| && Cuts(sizes, start, ends, |sizes|)
    ensures start <= |items| && Rising(start, ends, |items|)
    ensures Concat(Requests(items, start, ends)) == items[start..]
    ensures forall request | request in Requests(items, start, ends) :: request != []
    decreases ends
  {
    CutsRise(sizes, start, ends);
    if ends != [] {
      RequestsCoverItems(items, sizes, ends[0], ends[1..]);
      assert items[start..] == items[start..ends[0]] + items[ends[0]..];
      ConcatCons(items[start..ends[0]], Requests(items, ends[0], ends[1..]));
    }
  }

  /* ---- The managed endpoint ---- */

  const MAX_TEXT_BYTES := 65536

  function Sizes(texts: seq<string>): (r: seq<nat>)
    ensures |r| == |texts|
    ensures forall i | 0 <= i < |texts| :: r[i] == Bytes(texts[i])
  {
    seq(|texts|, i requires 0 <= i < |texts| => Bytes(texts[i]))
  }

  predicate TextOk(text: string) {
    Trim(text) != [] && Bytes(Trim(text)) <= MAX_TEXT_BYTES
  }

  /** The bytes of all texts once they are trimmed */
  function TrimmedBytes(texts: seq<string>): nat {
    if texts == [] then 0 else TrimmedBytes(texts[..|texts| - 1]) + Bytes(Trim(texts[|texts| - 1]))
  }

  datatype Refusal = WrongCount | BlankText | LongText | LongBatch

  /** What the endpoint demands of a request */
  predicate Acceptable(texts: seq<string>) {
    && 1 <= |texts| <= MAX_ITEMS
    && (forall i | 0 <= i < |texts| :: TextOk(texts[i]))
    && TrimmedBytes(texts) <= MAX_BYTES
  }

  predicate Sound(text: string) {
    Trim(text) != [] && Bytes(Trim(text)) <= 65536
  }

  predicate FirstUnsound(texts: seq<string>, i: nat) {
    i < |texts| && !Sound(texts[i]) && forall j | 0 <= j < i :: Sound(texts[j])
  }

  /** What each refusal says about the texts */
  ghost predicate RefusedFor(refusal: Option<Refusal>, texts: seq<string>) {
    match refusal
    case None =>
      1 <= |texts| <= 12 && (forall i | 0 <= i < |texts| :: Sound(texts[i])) && Sum(TrimmedSizes(texts)) <= 16384
    case Some(WrongCount) => |texts| == 0 || |texts| > 12
    case Some(BlankText) => 1 <= |texts| <= 12 && exists i: nat :: FirstUnsound(texts, i) && Trim(texts[i]) == []
    case Some(LongText) => 1 <= |texts| <= 12 && exists i: nat :: FirstUnsound(texts, i) && Trim(texts[i]) != []
    case Some(LongBatch) =>
      1 <= |texts| <= 12 && (forall i | 0 <= i < |texts| :: Sound(texts[i])) && Sum(TrimmedSizes(texts)) > 16384
  }

  /** The checks of `managed_classify_batch` */
  method CheckBatch(texts: seq<string>) returns (refusal: Option<Refusal>)
    ensures refusal == None <==> Acceptable(texts)
    ensures refusal == Some(WrongCount) <==> texts == [] || |texts| > MAX_ITEMS
    ensures refusal == Some(LongBatch) ==> forall i | 0 <= i < |texts| :: TextOk(texts[i])
    ensures RefusedFor(refusal, texts)
  {
    if |texts| == 0 || |texts| > MAX_ITEMS {
      return Some(WrongCount);
    }
    var bytes: u64 := 0;
    for i := 0 to |texts|
      invariant forall j | 0 <= j < i :: TextOk(texts[j]) && Sound(texts[j])
      invariant bytes == Min(TrimmedBytes(texts[..i]), U64_MAX)
    {
      var text := Trim(texts[i]);
      if text == [] {
        assert !TextOk(texts[i]) && FirstUnsound(texts, i);
        return Some(BlankText);
      }
      if Bytes(text) > MAX_TEXT_BYTES {
        assert !TextOk(texts[i]) && FirstUnsound(texts, i);
        return Some(LongText);
      }
      assert texts[..i + 1][..i] == texts[..i];
      bytes := Min(bytes + Bytes(text), U64_MAX);
    }
    assert texts[..|texts|] == texts;
    TrimmedBytesAreSum(texts);
    if bytes > MAX_BYTES {
      return Some(LongBatch);
    }
    return None;
  }

  lemma {:induction false} TrimEndShrinks(s: string)
    ensures Bytes(TrimEnd(s)) <= Bytes(s)
    ensures s != [] && !IsWhitespace(s[0]) ==> TrimEnd(s) != []
  {
    if s != [] && IsWhitespace(s[|s| - 1]) {
      TrimEndShrinks(s[..|s| - 1]);
    }
  }

  lemma {:induction false} TrimmingShrinks(texts: seq<string>)
    ensures TrimmedBytes(texts) <= Sum(Sizes(texts))
  {
    if texts != [] {
      var front, last := texts[..|texts| - 1], texts[|texts| - 1];
      TrimmingShrinks(front);
      assert Sizes(texts) == Sizes(front) + [Bytes(last)];
      SumSnoc(Sizes(front), Bytes(last));
      TrimShrinks(last);
    }
  }

  lemma {:induction false} TrimShrinks(s: string)
    ensures Bytes(Trim(s)) <= Bytes(s)
  {
    TrimStartShrinks(s);
    TrimEndShrinks(TrimStart(s));
  }

  lemma {:induction false} BytesCons(s: string)
    requires s != []
    ensures Bytes(s) == Width(s[0]) + Bytes(s[1..])
  {
    if |s| > 1 {
      BytesCons(s[..|s| - 1]);
      assert s[..|s| - 1][1..] == s[1..][..|s| - 2];
    }
  }

  lemma {:induction false} TrimStartShrinks(s: string)
    ensures Bytes(TrimStart(s)) <= Bytes(s)
  {
    if s != [] && IsWhitespace(s[0]) {
      BytesCons(s);
      TrimStartShrinks(s[1..]);
    }
  }

  lemma {:induction false} RequestIsAcceptable(intents: seq<string>, i: nat, j: nat)
    requires forall i | 0 <= i < |intents| :: Intent(intents[i])
    requires Fits(Sizes(intents), i, j)
    ensures Acceptable(intents[i..j])
  {
    var texts := intents[i..j];
    forall t | 0 <= t < |texts|
      ensures TextOk(texts[t]) && Bytes(texts[t]) <= 4 * MAX_INTENT_CHARS
    {
      assert Intent(intents[i + t]);
      TrimEndShrinks(texts[t]);
    }
    TrimmingShrinks(texts);
    assert Sizes(texts) == Sizes(intents)[i..j];
    if j == i + 1 {
      assert Sizes(texts)[1..] == [];
    }
  }

  /** Intents are short enough for the limits of every request to hold, whichever way the list was
      cut: the endpoint accepts them all. */
  lemma {:induction false} RequestsAreAcceptable(intents: seq<string>, start: nat, ends: seq<nat>)
    requires forall i | 0 <= i < |intents| :: Intent(intents[i])
    requires Cuts(Sizes(intents), start, ends, |intents|)
    ensures Rising(start, ends, |intents|)
    ensures forall request | request in Requests(intents, start, ends) :: Acceptable(request)
    decreases ends
  {
    CutsRise(Sizes(intents), start, ends);
    if ends != [] {
      RequestIsAcceptable(intents, start, ends[0]);
      RequestsAreAcceptable(intents, ends[0], ends[1..]);
    }
  }

  /* ---- Against every cut that the endpoint accepts ---- */

  /** What the endpoint counts for each text */
  function TrimmedSizes(texts: seq<string>): (r: seq<nat>)
    ensures |r| == |texts|
    ensures forall i | 0 <= i < |texts| :: r[i] == Bytes(Trim(texts[i]))
  {
    seq(|texts|, i requires 0 <= i < |texts| => Bytes(Trim(texts[i])))
  }

  predicate Intents(texts: seq<string>) {
    forall i | 0 <= i < |texts| :: Intent(texts[i])
  }

  /** `ends` cuts the texts from `start` on into consecutive requests that the endpoint accepts. */
  predicate Accepted(texts: seq<string>, start: nat, ends: seq<nat>)
    decreases ends
  {
    if ends == [] then start == |texts|
    else start < ends[0] <= |texts| && Acceptable(texts[start..ends[0]]) && Accepted(texts, ends[0], ends[1..])
  }

  lemma {:induction false} TrimmedBytesAreSum(texts: seq<string>)
    ensures TrimmedBytes(texts) == Sum(TrimmedSizes(texts))
  {
    if texts != [] {
      var front, last := texts[..|texts| - 1], texts[|texts| - 1];
      TrimmedBytesAreSum(front);
      assert TrimmedSizes(texts) == TrimmedSizes(front) + [Bytes(Trim(last))];
      SumSnoc(TrimmedSizes(front), Bytes(Trim(last)));
    }
  }

  lemma {:induction false} IntentsAreOk(intents: seq<string>, i: nat, j: nat)
    requires Intents(intents) && i <= j <= |intents|
    ensures forall t | 0 <= t < j - i :: TextOk(intents[i..j][t])
    ensures j == i + 1 ==> TrimmedBytes(intents[i..j]) <= MAX_BYTES
  {
    forall t | 0 <= t < j - i
      ensures TextOk(intents[i..j][t]) && Bytes(Trim(intents[i..j][t])) <= 4 * MAX_INTENT_CHARS
    {
      assert Intent(intents[i + t]);
      TrimEndShrinks(intents[i + t]);
    }
    if j == i + 1 {
      assert intents[i..j][..0] == [];
    }
  }

  lemma {:induction false} TrimmedSlice(texts: seq<string>, i: nat, j: nat)
    requires i <= j <= |texts|
    ensures TrimmedBytes(texts[i..j]) == Sum(TrimmedSizes(texts)[i..j])
  {
    TrimmedBytesAreSum(texts[i..j]);
    assert TrimmedSizes(texts[i..j]) == TrimmedSizes(texts)[i..j];
  }

  lemma {:induction false} AcceptableIsFit(intents: seq<string>, i: nat, j: nat)
    requires Intents(intents) && i < j <= |intents|
    ensures Acceptable(intents[i..j]) <==> Fits(TrimmedSizes(intents), i, j)
  {
    IntentsAreOk(intents, i, j);
    TrimmedSlice(intents, i, j);
  }

  lemma {:induction false} AcceptedIsCut(intents: seq<string>, start: nat, ends: seq<nat>)
    requires Intents(intents)
    ensures Accepted(intents, start, ends) <==> Cuts(TrimmedSizes(intents), start, ends, |intents|)
    decreases ends
  {
    if ends != [] {
      if start < ends[0] <= |intents| {
        AcceptableIsFit(intents, start, ends[0]);
      }
      AcceptedIsCut(intents, ends[0], ends[1..]);
    }
  }

  lemma {:induction false} CutIsAccepted(intents: seq<string>, start: nat, ends: seq<nat>)
    requires Intents(intents) && Cuts(Sizes(intents), start, ends, |intents|)
    ensures Accepted(intents, start, ends)
    decreases ends
  {
    if ends != [] {
      RequestIsAcceptable(intents, start, ends[0]);
      CutIsAccepted(intents, ends[0], ends[1..]);
    }
  }

  /** Against every cut of the intents into requests that the endpoint accepts, the client's cut is the
      shortest if and only if the greedy cut of the trimmed intents is not shorter - in particular
      when no intent ends in a blank. */
  lemma {:induction false} GreedyIsShortestAccepted(intents: seq<string>, ends: seq<nat>, trimmed: seq<nat>)
    requires Intents(intents)
    requires Cuts(Sizes(intents), 0, ends, |intents|) && Greedy(Sizes(intents), 0, ends)
    requires Cuts(TrimmedSizes(intents), 0, trimmed, |intents|) && Greedy(TrimmedSizes(intents), 0, trimmed)
    ensures (forall others | Accepted(intents, 0, others) :: |ends| <= |others|) <==> |ends| == |trimmed|
    ensures (forall i | 0 <= i < |intents| :: Trim(intents[i]) == intents[i]) ==> |ends| == |trimmed|
  {
    CutIsAccepted(intents, 0, ends);
    AcceptedIsCut(intents, 0, ends);
    AcceptedIsCut(intents, 0, trimmed);
    GreedyIsShortest(TrimmedSizes(intents), 0, trimmed, 0, ends);
    forall others | Accepted(intents, 0, others)
      ensures |trimmed| <= |others|
    {
      AcceptedIsCut(intents, 0, others);
      GreedyIsShortest(TrimmedSizes(intents), 0, trimmed, 0, others);
    }
    if forall i | 0 <= i < |intents| :: Trim(intents[i]) == intents[i] {
      assert Sizes(intents) == TrimmedSizes(intents);
      GreedyIsShortest(Sizes(intents), 0, ends, 0, trimmed);
    }
  }

  /* ---- A blank that costs a request ---- */

  const WIDE: char := 0x1_F600 as char

  function Wide(n: nat): string {
    if n == 0 then [] else Wide(n - 1) + [WIDE]
  }

  lemma {:induction false} WideBytes(n: nat)
    ensures |Wide(n)| == n && Bytes(Wide(n)) == 4 * n && forall i | 0 <= i < n :: Wide(n)[i] == WIDE
  {
    if n > 0 {
      WideBytes(n - 1);
      assert Wide(n)[..n - 1] == Wide(n - 1);
    }
  }

  /** A text that was cut behind a blank, one of full length, and a short one of `m` characters */
  predicate CutBehindBlank(intents: seq<string>, n: nat, m: nat) {
    && |intents| == 3 && n == MAX_INTENT_CHARS - 1 && 0 < m <= n
    && intents[0] == Wide(n) + [' '] && intents[1] == Wide(n + 1) && intents[2] == Wide(m)
  }

  /** What the client and the endpoint count for an intent */
  predicate Counts(s: string, bytes: nat, trimmed: nat) {
    Intent(s) && Bytes(s) == bytes && Bytes(Trim(s)) == trimmed
  }

  lemma {:induction false} WideCounts(n: nat)
    requires 0 < n <= MAX_INTENT_CHARS
    ensures Counts(Wide(n), 4 * n, 4 * n)
  {
    WideBytes(n);
    TrimNothing(Wide(n));
  }

  lemma {:induction false} BlankCounts(n: nat, s: string)
    requires 0 < n < MAX_INTENT_CHARS && s == Wide(n) + [' ']
    ensures Counts(s, 4 * n + 1, 4 * n)
  {
    WideBytes(n);
    assert s[..n] == Wide(n) && s[0] == WIDE;
    assert TrimStart(s) == s;
    assert TrimEnd(Wide(n)) == Wide(n);
  }

  lemma {:induction false} SumThree(a: nat, b: nat, c: nat)
    ensures Sum([a, b, c]) == a + b + c && Sum([a, b]) == a + b
  {
    assert [a, b, c] == [a, b] + [c] && [a, b] == [a] + [b] && [a] == [] + [a];
    SumSnoc([a, b], c);
    SumSnoc([a], b);
    SumSnoc([], a);
  }

  lemma {:induction false} ThreeSizes(intents: seq<string>, n: nat, m: nat)
    requires |intents| == 3 && Counts(intents[0], 4 * n + 1, 4 * n) && Counts(intents[1], 4 * n + 4, 4 * n + 4)
    requires Counts(intents[2], 4 * m, 4 * m)
    ensures Intents(intents)
    ensures var sizes := Sizes(intents); sizes[0] == 4 * n + 1 && sizes[1] == 4 * n + 4 && sizes[2] == 4 * m
    ensures var sizes := TrimmedSizes(intents); sizes[0] == 4 * n && sizes[1] == 4 * n + 4 && sizes[2] == 4 * m
  {}

  lemma {:induction false} BlankSizes(intents: seq<string>, n: nat, m: nat)
    requires CutBehindBlank(intents, n, m)
    ensures Intents(intents)
    ensures var sizes := Sizes(intents); sizes[0] == 4 * n + 1 && sizes[1] == 4 * n + 4 && sizes[2] == 4 * m
    ensures var sizes := TrimmedSizes(intents); sizes[0] == 4 * n && sizes[1] == 4 * n + 4 && sizes[2] == 4 * m
  {
    BlankCounts(n, intents[0]);
    WideCounts(n + 1);
    WideCounts(m);
    ThreeSizes(intents, n, m);
  }

  /** Where intents end in a blank, the client may need one request more than the endpoint would: two
      for these three intents of 16385 bytes, of which the endpoint counts 16384. */
  lemma {:induction false} BlankMayCostRequest(intents: seq<string>, n: nat, m: nat)
    requires CutBehindBlank(intents, n, m) && m == 1
    ensures Intents(intents) && Accepted(intents, 0, [3])
    ensures Cuts(Sizes(intents), 0, [2, 3], 3) && Greedy(Sizes(intents), 0, [2, 3])
  {
    BlankSizes(intents, n, m);
    OneRequest(TrimmedSizes(intents));
    AcceptedIsCut(intents, 0, [3]);
    TwoRequests(Sizes(intents));
  }

  lemma {:induction false} OneRequest(sizes: seq<nat>)
    requires |sizes| == 3 && sizes[0] + sizes[1] + sizes[2] <= MAX_BYTES
    ensures Cuts(sizes, 0, [3], 3)
  {
    SumThree(sizes[0], sizes[1], sizes[2]);
    assert sizes[0..3] == [sizes[0], sizes[1], sizes[2]];
    assert [3][1..] == [];
    assert Fits(sizes, 0, 3) && Cuts(sizes, 3, [], 3);
  }

  lemma {:induction false} TwoRequests(sizes: seq<nat>)
    requires |sizes| == 3 && sizes[0] + sizes[1] <= MAX_BYTES < sizes[0] + sizes[1] + sizes[2]
    ensures Cuts(sizes, 0, [2, 3], 3) && Greedy(sizes, 0, [2, 3])
  {
    SumThree(sizes[0], sizes[1], sizes[2]);
    assert sizes[0..3] == [sizes[0], sizes[1], sizes[2]] && sizes[0..2] == [sizes[0], sizes[1]];
    assert [2, 3][1..] == [3] && [3][1..] == [];
    assert Fits(sizes, 0, 2) && !Fits(sizes, 0, 3) && Fits(sizes, 2, 3);
    assert Cuts(sizes, 2, [3], 3) && Greedy(sizes, 2, [3]);
  }
}
