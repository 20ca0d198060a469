/** Splitting long outbound text into chunks, paragraph before sentence before word. */
module Chunks {
  import opened Prelude
  import opened Text
  import opened Tokens

  const SPACE := " "

  /** The words of several texts, one after the other. */
  function AllWords(texts: seq<string>): seq<string> {
    if texts == [] then [] else AllWords(texts[..|texts| - 1]) + Words(texts[|texts| - 1])
  }

  lemma AllWordsOne(texts: seq<string>, t: string)
    ensures AllWords(texts + [t]) == AllWords(texts) + Words(t)
  {
    assert (texts + [t])[..|texts|] == texts;
  }

  lemma {:induction false} AllWordsJoin(a: seq<string>, b: seq<string>)
    ensures AllWords(a + b) == AllWords(a) + AllWords(b)
  {
    if b == [] {
      assert a + b == a;
    } else {
      var init, last := b[..|b| - 1], b[|b| - 1];
      AllWordsJoin(a, init);
      AllWordsOne(a + init, last);
      AllWordsOne(init, last);
      assert b == init + [last];
      assert a + b == a + init + [last];
      Assoc(AllWords(a), AllWords(init), Words(last));
    }
  }

  predicate Sized(texts: seq<string>, limit: nat) { forall i :: 0 <= i < |texts| ==> 1 <= |texts[i]| <= limit }

  /** The finished chunks and the one being filled. */
  function Open(chunks: seq<string>, current: string): seq<string> {
    if current == "" then chunks else chunks + [current]
  }

  // ----- Over-long sentences ---------------------------------------------------------------------

  /** Length with one separator after every part that has room for it. */
  function Weight(parts: seq<string>, limit: nat): nat {
    if parts == [] then 0
    else Weight(parts[..|parts| - 1], limit) + |parts[|parts| - 1]| + Room(parts[..|parts| - 1], limit)
  }

  function Room(parts: seq<string>, limit: nat): nat { if parts != [] && |parts[|parts| - 1]| < limit then 1 else 0 }

  lemma WeightOne(parts: seq<string>, p: string, limit: nat)
    ensures Weight(parts + [p], limit) == Weight(parts, limit) + |p| + Room(parts, limit)
  {
    assert (parts + [p])[..|parts|] == parts;
  }

  /** The words taken so far, with a separator between each two. */
  function Taken(words: seq<string>): nat { if words == [] then 0 else SumLen(words) + |words| - 1 }

  /** The texts hold the words taken so far. */
  ghost predicate Holds(texts: seq<string>, done: seq<string>, limit: nat)
    requires limit >= 1
  {
    AllWords(texts) == HardSplitAll(done, limit) && Sized(texts, limit) && Weight(texts, limit) <= Taken(done)
  }

  /** The texts hold the words taken so far but for the rest of the last one. */
  ghost predicate HoldsBut(texts: seq<string>, word: string, done: seq<string>, limit: nat)
    requires limit >= 1
  {
    && Solid(word) && AllWords(texts) + HardSplit(word, limit) == HardSplitAll(done, limit) && Sized(texts, limit)
    && Weight(texts, limit) + Room(texts, limit) + |word| <= Taken(done)
  }

  lemma TakenOne(done: seq<string>, word: string)
    ensures Taken(done + [word]) == Taken(done) + |word| + (if done == [] then 0 else 1)
  {
    SumLenOne(done, word);
  }

  lemma StartWord(texts: seq<string>, done: seq<string>, word: string, limit: nat)
    requires limit >= 1 && Solid(word) && Holds(texts, done, limit) && (done == [] ==> texts == [])
    ensures HoldsBut(texts, word, done + [word], limit)
  {
    HardSplitOne(done, word, limit);
    TakenOne(done, word);
  }

  lemma WordIsSolid(text: string, i: nat)
    requires i < |Words(text)|
    ensures Solid(Words(text)[i])
  {
    WordsAreSolid(text);
    assert Words(text)[i] in Words(text);
  }

  lemma HoldsAll(texts: seq<string>, text: string, limit: nat)
    requires limit >= 1 && Holds(texts, Words(text), limit)
    ensures AllWords(texts) == HardSplitAll(Words(text), limit) && Sized(texts, limit) && Weight(texts, limit) <= |text|
  {
    WordsHaveRoom(text);
  }

  lemma CutWord(texts: seq<string>, word: string, done: seq<string>, limit: nat)
    requires limit >= 1 && HoldsBut(texts, word, done, limit) && |word| > limit
    ensures HoldsBut(texts + [word[..limit]], word[limit..], done, limit)
  {
    var piece := word[..limit];
    AllWordsOne(texts, piece);
    WordsOfSolid(piece);
    WeightOne(texts, piece, limit);
    assert AllWords(texts) + HardSplit(word, limit) == AllWords(texts) + [piece] + HardSplit(word[limit..], limit);
  }

  lemma NewText(texts: seq<string>, word: string, done: seq<string>, limit: nat)
    requires limit >= 1 && HoldsBut(texts, word, done, limit) && |word| <= limit
    ensures Holds(texts + [word], done, limit)
  {
    AllWordsOne(texts, word);
    WordsOfSolid(word);
    WeightOne(texts, word, limit);
  }

  lemma Assoc(a: seq<string>, b: seq<string>, c: seq<string>)
    ensures a + b + c == a + (b + c)
  {
  }

  lemma LongerWords(chunks: seq<string>, current: string, gap: string, more: string)
    requires gap != "" && Blank(gap)
    ensures AllWords(chunks + [current + gap + more]) == AllWords(chunks + [current]) + Words(more)
  {
    AllWordsOne(chunks, current);
    AllWordsOne(chunks, current + gap + more);
    WordsJoin(current, gap, more);
    Assoc(AllWords(chunks), Words(current), Words(more));
  }

  lemma LongerText(chunks: seq<string>, current: string, word: string, done: seq<string>, limit: nat)
    requires limit >= 1 && current != "" && HoldsBut(chunks + [current], word, done, limit)
      && |current + SPACE + word| <= limit
    ensures Holds(chunks + [current + SPACE + word], done, limit)
  {
    WordsOfSolid(word);
    LongerWords(chunks, current, SPACE, word);
    WeightOne(chunks, current, limit);
    WeightOne(chunks, current + SPACE + word, limit);
  }

  /** Put one word: cut it while it is too long, then join it to the current part or begin a new one. */
  method PutWord(chunks0: seq<string>, current0: string, word0: string, limit: nat, ghost done: seq<string>)
    returns (chunks: seq<string>, current: string)
    requires limit >= 1 && HoldsBut(Open(chunks0, current0), word0, done, limit)
    ensures Holds(Open(chunks, current), done, limit) && Open(chunks, current) != []
  {
    chunks, current := chunks0, current0;
    var word := word0;
    while |word| > limit
      invariant HoldsBut(Open(chunks, current), word, done, limit)
    {
      CutWord(Open(chunks, current), word, done, limit);
      if current != "" {
        chunks, current := chunks + [current], "";
      }
      chunks := chunks + [word[..limit]];
      word := word[limit..];
    }
    var candidate := if current != "" then current + SPACE + word else word;
    if |candidate| > limit {
      NewText(chunks + [current], word, done, limit);
      return chunks + [current], word;
    }
    if current != "" {
      LongerText(chunks, current, word, done, limit);
    } else {
      NewText(chunks, word, done, limit);
    }
    current := candidate;
  }

  lemma NextWord(texts: seq<string>, text: string, i: nat, limit: nat)
    requires limit >= 1 && i < |Words(text)| && Holds(texts, Words(text)[..i], limit) && (i == 0 ==> texts == [])
    ensures HoldsBut(texts, Words(text)[i], Words(text)[..i + 1], limit)
  {
    var words := Words(text);
    WordIsSolid(text, i);
    StartWord(texts, words[..i], words[i], limit);
    assert words[..i] + [words[i]] == words[..i + 1];
  }

  /**
   * Split a sentence on words; only a word that cannot fit by itself is cut. The parts hold the
   * words in order and are no longer than the text, separators included.
   */
  method SplitLongUnit(text: string, limit: nat) returns (chunks: seq<string>)
    requires limit >= 1
    ensures AllWords(chunks) == HardSplitAll(Words(text), limit)
    ensures Sized(chunks, limit)
    ensures Weight(chunks, limit) <= |text|
  {
    var words := Words(text);
    chunks := [];
    var current := "";
    for i := 0 to |words|
      invariant Holds(Open(chunks, current), words[..i], limit)
      invariant i == 0 ==> Open(chunks, current) == []
    {
      NextWord(Open(chunks, current), text, i, limit);
      chunks, current := PutWord(chunks, current, words[i], limit, words[..i + 1]);
    }
    assert words[..|words|] == words;
    if current != "" {
      chunks := chunks + [current];
    }
    HoldsAll(chunks, text, limit);
  }

  // ----- Layout ----------------------------------------------------------------------------------

  /** A sentence after the white space the boundary patterns removed; `breaks` tells a paragraph boundary. */
  datatype Piece = Piece(gap: string, sentence: string, breaks: bool)

  function Laid(pieces: seq<Piece>): string {
    if pieces == [] then ""
    else Laid(pieces[..|pieces| - 1]) + pieces[|pieces| - 1].gap + pieces[|pieces| - 1].sentence
  }

  /** Boundaries remove white space only, and a paragraph boundary at least two newlines. */
  predicate LayoutOk(pieces: seq<Piece>) {
    && (forall i :: 0 <= i < |pieces| ==> pieces[i].sentence != "")
    && (forall i :: 0 < i < |pieces| ==>
      pieces[i].gap != "" && Blank(pieces[i].gap) && (pieces[i].breaks ==> |pieces[i].gap| >= 2))
    && (pieces != [] ==> pieces[0].gap == "")
  }

  lemma LaidOne(pieces: seq<Piece>, i: nat)
    requires LayoutOk(pieces) && i < |pieces|
    ensures Laid(pieces[..i + 1]) == Laid(pieces[..i]) + pieces[i].gap + pieces[i].sentence
    ensures Words(Laid(pieces[..i + 1])) == Words(Laid(pieces[..i])) + Words(pieces[i].sentence)
  {
    assert pieces[..i + 1][..i] == pieces[..i];
    if i == 0 {
      assert Laid(pieces[..1]) == pieces[0].sentence;
    } else {
      WordsJoin(Laid(pieces[..i]), pieces[i].gap, pieces[i].sentence);
    }
  }

  // ----- Units and chunks ------------------------------------------------------------------------

  /** A part of the text and the separator that joins it to the part before it. */
  datatype Unit = Unit(text: string, sep: string)

  function Texts(units: seq<Unit>): seq<string> { Map((u: Unit) => u.text, units) }

  function UnitWeight(units: seq<Unit>, limit: nat): nat {
    if units == [] then 0
    else
      var init, last := units[..|units| - 1], units[|units| - 1];
      UnitWeight(init, limit) + |last.text| + (if init != [] && |init[|init| - 1].text| < limit then |last.sep| else 0)
  }

  predicate UnitsOk(units: seq<Unit>, limit: nat) {
    && (forall i :: 0 <= i < |units| ==> 1 <= |units[i].text| <= limit)
    && (forall i :: 0 < i < |units| ==> 1 <= |units[i].sep| <= 2 && Blank(units[i].sep))
  }

  /** The parts of one sentence as units: the first after `sep`, the others after a space. */
  function Tagged(parts: seq<string>, sep: string): (units: seq<Unit>)
    ensures |units| == |parts|
    ensures forall i :: 0 <= i < |parts| ==> units[i] == Unit(parts[i], if i == 0 then sep else SPACE)
  {
    seq(|parts|, i requires 0 <= i < |parts| => Unit(parts[i], if i == 0 then sep else SPACE))
  }

  lemma TextsOne(units: seq<Unit>, u: Unit)
    ensures AllWords(Texts(units + [u])) == AllWords(Texts(units)) + Words(u.text)
  {
    assert Texts(units + [u]) == Texts(units) + [u.text];
    AllWordsOne(Texts(units), u.text);
  }

  lemma UnitWeightOne(units: seq<Unit>, u: Unit, limit: nat)
    ensures UnitWeight(units + [u], limit) ==
      UnitWeight(units, limit) + |u.text| + (if units != [] && |units[|units| - 1].text| < limit then |u.sep| else 0)
  {
    assert (units + [u])[..|units|] == units;
  }

  lemma AddTagged(units: seq<Unit>, parts: seq<string>, sep: string)
    ensures AllWords(Texts(units + Tagged(parts, sep))) == AllWords(Texts(units)) + AllWords(parts)
  {
    assert Texts(units + Tagged(parts, sep)) == Texts(units) + parts;
    AllWordsJoin(Texts(units), parts);
  }

  /** One more part of a sentence. */
  lemma WeighOne(before: seq<Unit>, after: seq<Unit>, parts: seq<string>, u: Unit, weight: nat, limit: nat)
    requires after == before + [u] && UnitWeight(before, limit) <= weight + Weight(parts, limit)
    requires parts != [] && before != [] && before[|before| - 1].text == parts[|parts| - 1] && |u.sep| == 1
    ensures UnitWeight(after, limit) <= weight + Weight(parts + [u.text], limit)
  {
    UnitWeightOne(before, u, limit);
    WeightOne(parts, u.text, limit);
  }

  lemma WeighFirst(before: seq<Unit>, after: seq<Unit>, u: Unit, limit: nat)
    requires after == before + [u]
    ensures UnitWeight(after, limit)
      <= UnitWeight(before, limit) + (if before == [] then 0 else |u.sep|) + Weight([u.text], limit)
  {
    UnitWeightOne(before, u, limit);
    WeightOne([], u.text, limit);
    assert [] + [u.text] == [u.text];
  }

  /** The tagged parts of a sentence weigh no more than the sentence and its separator. */
  lemma {:induction false} TaggedWeight(units: seq<Unit>, parts: seq<string>, n: nat, sep: string, limit: nat)
    requires n <= |parts|
    ensures UnitWeight(units + Tagged(parts, sep)[..n], limit)
      <= UnitWeight(units, limit) + (if units == [] then 0 else |sep|) + Weight(parts[..n], limit)
  {
    var tagged := Tagged(parts, sep);
    if n == 0 {
      assert units + tagged[..0] == units;
    } else {
      var before, after := units + tagged[..n - 1], units + tagged[..n];
      assert after == before + [tagged[n - 1]];
      assert parts[..n] == parts[..n - 1] + [parts[n - 1]];
      if n == 1 {
        assert before == units && parts[..1] == [parts[0]];
        WeighFirst(before, after, tagged[0], limit);
      } else {
        TaggedWeight(units, parts, n - 1, sep, limit);
        assert before[|before| - 1] == tagged[n - 2] && parts[..n - 1][n - 2] == parts[n - 2];
        WeighOne(before, after, parts[..n - 1], tagged[n - 1],
            UnitWeight(units, limit) + (if units == [] then 0 else |sep|), limit);
      }
    }
  }

  lemma TaggedUnitsOk(units: seq<Unit>, parts: seq<string>, sep: string, limit: nat)
    requires UnitsOk(units, limit) && Sized(parts, limit) && (units != [] ==> 1 <= |sep| <= 2 && Blank(sep))
    ensures UnitsOk(units + Tagged(parts, sep), limit)
  {
  }

  /** `a` is a contiguous part of `b`. */
  ghost predicate Inside(a: string, b: string) { exists k: nat :: StandsAt(a, b, k) }

  predicate StandsAt(a: string, b: string, k: nat) { k + |a| <= |b| && b[k..k + |a|] == a }

  ghost predicate Within(a: string, chunks: seq<string>) { exists j :: 0 <= j < |chunks| && Inside(a, chunks[j]) }

  lemma InsideJoin(before: string, a: string, after: string)
    ensures Inside(a, before + a + after)
  {
    assert StandsAt(a, before + a + after, |before|);
  }

  lemma InsideLonger(a: string, b: string, more: string)
    requires Inside(a, b)
    ensures Inside(a, b + more)
  {
    var k: nat :| StandsAt(a, b, k);
    assert StandsAt(a, b + more, k);
  }

  lemma WithinMore(a: string, chunks: seq<string>, next: string)
    requires Within(a, chunks)
    ensures Within(a, chunks + [next])
  {
    var j :| 0 <= j < |chunks| && Inside(a, chunks[j]);
    assert (chunks + [next])[j] == chunks[j];
  }

  lemma WithinLonger(a: string, chunks: seq<string>, current: string, more: string)
    requires Within(a, chunks + [current])
    ensures Within(a, chunks + [current + more])
  {
    var before, after := chunks + [current], chunks + [current + more];
    var j :| 0 <= j < |before| && Inside(a, before[j]);
    if j == |chunks| { InsideLonger(a, current, more); }
    assert Inside(a, after[j]);
  }

  predicate EndsWith(s: string, a: string) { |a| <= |s| && s[|s| - |a|..] == a }

  /** `b` follows `a` in one chunk with `sep` between them, or a chunk ends with `a` and the next begins with `b`. */
  ghost predicate Follows(chunks: seq<string>, a: string, sep: string, b: string) {
    Within(a + sep + b, chunks) || exists j: nat :: j + 1 < |chunks| && EndsWith(chunks[j], a) && b <= chunks[j + 1]
  }

  /** Each of the first `i` units follows the one before it, and the last of them ends the last chunk. */
  ghost predicate Spaced(chunks: seq<string>, units: seq<Unit>, i: nat)
    requires i <= |units|
  {
    && (forall u: nat :: u + 1 < i ==> Follows(chunks, units[u].text, units[u + 1].sep, units[u + 1].text))
    && (i > 0 ==> chunks != [] && EndsWith(chunks[|chunks| - 1], units[i - 1].text))
  }

  lemma FollowsMore(chunks: seq<string>, next: string, a: string, sep: string, b: string)
    requires Follows(chunks, a, sep, b)
    ensures Follows(chunks + [next], a, sep, b)
  {
    if Within(a + sep + b, chunks) {
      WithinMore(a + sep + b, chunks, next);
    } else {
      var j: nat :| j + 1 < |chunks| && EndsWith(chunks[j], a) && b <= chunks[j + 1];
      assert EndsWith((chunks + [next])[j], a) && b <= (chunks + [next])[j + 1];
    }
  }

  lemma FollowsLonger(chunks: seq<string>, current: string, more: string, a: string, sep: string, b: string)
    requires Follows(chunks + [current], a, sep, b)
    ensures Follows(chunks + [current + more], a, sep, b)
  {
    var before, after := chunks + [current], chunks + [current + more];
    if Within(a + sep + b, before) {
      WithinLonger(a + sep + b, chunks, current, more);
    } else {
      var j: nat :| j + 1 < |before| && EndsWith(before[j], a) && b <= before[j + 1];
      assert after[j] == before[j] && before[j + 1] <= after[j + 1];
    }
  }

  lemma SpacedNext(chunks: seq<string>, units: seq<Unit>, i: nat)
    requires i < |units| && Spaced(chunks, units, i)
    ensures Spaced(chunks + [units[i].text], units, i + 1)
  {
    var text, more := units[i].text, chunks + [units[i].text];
    forall u: nat | u + 1 < i + 1
      ensures Follows(more, units[u].text, units[u + 1].sep, units[u + 1].text)
    {
      if u + 1 < i {
        FollowsMore(chunks, text, units[u].text, units[u + 1].sep, units[u + 1].text);
      } else {
        assert more[|chunks| - 1] == chunks[|chunks| - 1] && more[|chunks| - 1 + 1] == text;
      }
    }
    assert text[0..] == text;
  }

  lemma SpacedLonger(chunks: seq<string>, current: string, units: seq<Unit>, i: nat)
    requires 0 < i < |units| && Spaced(chunks + [current], units, i)
    ensures Spaced(chunks + [current + units[i].sep + units[i].text], units, i + 1)
  {
    var a, sep, b := units[i - 1].text, units[i].sep, units[i].text;
    var longer := current + sep + b;
    assert longer == current + (sep + b);
    forall u: nat | u + 1 < i + 1
      ensures Follows(chunks + [longer], units[u].text, units[u + 1].sep, units[u + 1].text)
    {
      if u + 1 < i {
        FollowsLonger(chunks, current, sep + b, units[u].text, units[u + 1].sep, units[u + 1].text);
      } else {
        var head := current[..|current| - |a|];
        assert (chunks + [current])[|chunks|] == current && current == head + a;
        InsideJoin(head, a + sep + b, "");
        assert longer == head + (a + sep + b) + "";
        assert (chunks + [longer])[|chunks|] == longer;
      }
    }
    assert longer[|longer| - |b|..] == b;
  }

  /** The chunks hold the texts of the first `i` units, none of them divided. */
  ghost predicate Undivided(chunks: seq<string>, units: seq<Unit>, i: nat)
    requires i <= |units|
  {
    forall j :: 0 <= j < i ==> Within(units[j].text, chunks)
  }

  lemma UndividedNext(chunks: seq<string>, units: seq<Unit>, i: nat)
    requires i < |units| && Undivided(chunks, units, i)
    ensures Undivided(chunks + [units[i].text], units, i + 1)
  {
    var text := units[i].text;
    forall j | 0 <= j < i ensures Within(units[j].text, chunks + [text]) { WithinMore(units[j].text, chunks, text); }
    InsideJoin("", text, "");
    assert "" + text + "" == text == (chunks + [text])[|chunks|];
  }

  lemma UndividedLonger(chunks: seq<string>, current: string, units: seq<Unit>, i: nat)
    requires i < |units| && Undivided(chunks + [current], units, i)
    ensures Undivided(chunks + [current + units[i].sep + units[i].text], units, i + 1)
  {
    var more := units[i].sep + units[i].text;
    var longer := current + units[i].sep + units[i].text;
    assert longer == current + more == current + units[i].sep + units[i].text + "";
    forall j | 0 <= j < i
      ensures Within(units[j].text, chunks + [longer])
    {
      WithinLonger(units[j].text, chunks, current, more);
    }
    InsideJoin(current + units[i].sep, units[i].text, "");
    assert (chunks + [longer])[|chunks|] == longer;
  }

  /** Every sentence that fits is a unit of its own. */
  ghost predicate SentencesKept(units: seq<Unit>, pieces: seq<Piece>, i: nat, limit: nat)
    requires i <= |pieces|
  {
    forall j :: 0 <= j < i && |pieces[j].sentence| <= limit ==>
      exists u :: 0 <= u < |units| && units[u].text == pieces[j].sentence
  }

  lemma KeepsSentences(units: seq<Unit>, more: seq<Unit>, pieces: seq<Piece>, i: nat, limit: nat)
    requires i < |pieces| && SentencesKept(units, pieces, i, limit) && units <= more
    requires |pieces[i].sentence| <= limit ==> |more| == |units| + 1 && more[|units|].text == pieces[i].sentence
    ensures SentencesKept(more, pieces, i + 1, limit)
  {
    forall j | 0 <= j < i && |pieces[j].sentence| <= limit
      ensures exists u :: 0 <= u < |more| && more[u].text == pieces[j].sentence
    {
      var u :| 0 <= u < |units| && units[u].text == pieces[j].sentence;
      assert more[u] == units[u];
    }
  }

  /** A blank line before a paragraph, a space before any other sentence. */
  function SepOf(piece: Piece): string { if piece.breaks then "\n\n" else " " }

  predicate Fits(pieces: seq<Piece>, j: nat, limit: nat) { j < |pieces| && |pieces[j].sentence| <= limit }

  /** Of the first `i` sentences two neighbours that fit are neighbouring units, the second after its separator. */
  ghost predicate PairsKept(units: seq<Unit>, pieces: seq<Piece>, i: nat, limit: nat)
    requires i <= |pieces|
  {
    && (forall j: nat :: j + 1 < i && Fits(pieces, j, limit) && Fits(pieces, j + 1, limit) ==>
          PairAt(units, pieces[j].sentence, SepOf(pieces[j + 1]), pieces[j + 1].sentence))
    && (i > 0 && Fits(pieces, i - 1, limit) ==>
          units != [] && units[|units| - 1].text == pieces[i - 1].sentence)
  }

  ghost predicate PairAt(units: seq<Unit>, a: string, sep: string, b: string) {
    exists u: nat :: u + 1 < |units| && units[u].text == a && units[u + 1] == Unit(b, sep)
  }

  /** The sentence became one unit, after its separator unless it is the first. */
  predicate OneUnit(units: seq<Unit>, more: seq<Unit>, piece: Piece) {
    more == units + [Unit(piece.sentence, if units == [] then "" else SepOf(piece))]
  }

  lemma KeepsPairs(units: seq<Unit>, more: seq<Unit>, pieces: seq<Piece>, i: nat, limit: nat)
    requires i < |pieces| && PairsKept(units, pieces, i, limit) && units <= more
    requires Fits(pieces, i, limit) ==> OneUnit(units, more, pieces[i])
    ensures PairsKept(more, pieces, i + 1, limit)
  {
    forall j: nat | j + 1 < i + 1 && Fits(pieces, j, limit) && Fits(pieces, j + 1, limit)
      ensures PairAt(more, pieces[j].sentence, SepOf(pieces[j + 1]), pieces[j + 1].sentence)
    {
      if j + 1 < i {
        var u: nat :| u + 1 < |units| && units[u].text == pieces[j].sentence
          && units[u + 1] == Unit(pieces[j + 1].sentence, SepOf(pieces[j + 1]));
        assert more[u] == units[u] && more[u + 1] == units[u + 1];
      } else {
        assert more[|units| - 1] == units[|units| - 1] && more[|units| - 1 + 1] == more[|units|];
      }
    }
  }

  /**
   * Where a text had to be split: of two neighbouring sentences that fit, the second follows in the same
   * chunk after a blank line if it begins a paragraph and after one space if not, or it begins the next chunk.
   */
  ghost predicate SentencesApart(pieces: seq<Piece>, chunks: seq<string>, limit: nat) {
    forall j: nat :: j + 1 < |pieces| && Fits(pieces, j, limit) && Fits(pieces, j + 1, limit) ==>
      Follows(chunks, pieces[j].sentence, SepOf(pieces[j + 1]), pieces[j + 1].sentence)
  }

  lemma KeptAreApart(units: seq<Unit>, pieces: seq<Piece>, chunks: seq<string>, limit: nat)
    requires PairsKept(units, pieces, |pieces|, limit) && Spaced(chunks, units, |units|)
    ensures SentencesApart(pieces, chunks, limit)
  {
    forall j: nat | j + 1 < |pieces| && Fits(pieces, j, limit) && Fits(pieces, j + 1, limit)
      ensures Follows(chunks, pieces[j].sentence, SepOf(pieces[j + 1]), pieces[j + 1].sentence)
    {
      assert PairAt(units, pieces[j].sentence, SepOf(pieces[j + 1]), pieces[j + 1].sentence);
      var u: nat :| u + 1 < |units| && units[u].text == pieces[j].sentence
        && units[u + 1] == Unit(pieces[j + 1].sentence, SepOf(pieces[j + 1]));
    }
  }

  /** What the preference for sentences is worth: one that fits is never divided. */
  ghost predicate SentencesWhole(pieces: seq<Piece>, chunks: seq<string>, limit: nat) {
    forall i :: 0 <= i < |pieces| && |pieces[i].sentence| <= limit ==> Within(pieces[i].sentence, chunks)
  }

  lemma KeptAreWhole(units: seq<Unit>, pieces: seq<Piece>, chunks: seq<string>, limit: nat)
    requires SentencesKept(units, pieces, |pieces|, limit) && Undivided(chunks, units, |units|)
    ensures SentencesWhole(pieces, chunks, limit)
  {
  }

  lemma {:induction false} LaidHas(pieces: seq<Piece>, i: nat)
    requires i < |pieces|
    ensures Inside(pieces[i].sentence, Laid(pieces))
  {
    var init, last := pieces[..|pieces| - 1], pieces[|pieces| - 1];
    if i == |pieces| - 1 {
      InsideJoin(Laid(init) + last.gap, last.sentence, "");
      assert Laid(pieces) == Laid(init) + last.gap + last.sentence + "";
    } else {
      LaidHas(init, i);
      InsideLonger(pieces[i].sentence, Laid(init), last.gap + last.sentence);
      assert Laid(pieces) == Laid(init) + (last.gap + last.sentence);
    }
  }

  lemma WholeTextIsWhole(pieces: seq<Piece>, limit: nat)
    ensures SentencesWhole(pieces, [Laid(pieces)], limit)
  {
    forall i | 0 <= i < |pieces| ensures Within(pieces[i].sentence, [Laid(pieces)]) {
      LaidHas(pieces, i);
      assert [Laid(pieces)][0] == Laid(pieces);
    }
  }

  lemma NothingLaid(pieces: seq<Piece>)
    requires LayoutOk(pieces) && Laid(pieces) == ""
    ensures pieces == []
  {
    if pieces != [] { LaidHas(pieces, 0); }
  }

  /** Every two neighbouring chunks together exceed the limit, up to their separator. */
  predicate Dense(chunks: seq<string>, limit: nat) {
    forall i :: 0 < i < |chunks| ==> |chunks[i - 1]| + |chunks[i]| + 2 > limit
  }

  /** The units hold the text laid out so far. */
  ghost predicate Collected(units: seq<Unit>, text: string, limit: nat)
    requires limit >= 1
  {
    AllWords(Texts(units)) == HardSplitAll(Words(text), limit) && UnitsOk(units, limit)
      && UnitWeight(units, limit) <= |text|
  }

  lemma CollectOne(units: seq<Unit>, pieces: seq<Piece>, i: nat, parts: seq<string>, sep: string, limit: nat)
    requires limit >= 1 && LayoutOk(pieces) && i < |pieces| && Collected(units, Laid(pieces[..i]), limit)
    requires AllWords(parts) == HardSplitAll(Words(pieces[i].sentence), limit) && Sized(parts, limit)
    requires Weight(parts, limit) <= |pieces[i].sentence|
    requires (i == 0 ==> units == []) && (units != [] ==> 1 <= |sep| <= |pieces[i].gap| && |sep| <= 2 && Blank(sep))
    ensures Collected(units + Tagged(parts, sep), Laid(pieces[..i + 1]), limit)
  {
    LaidOne(pieces, i);
    HardSplitJoin(Words(Laid(pieces[..i])), Words(pieces[i].sentence), limit);
    AddTagged(units, parts, sep);
    TaggedWeight(units, parts, |parts|, sep, limit);
    assert Tagged(parts, sep)[..|parts|] == Tagged(parts, sep) && parts[..|parts|] == parts;
    TaggedUnitsOk(units, parts, sep, limit);
  }

  method CollectUnits(pieces: seq<Piece>, limit: nat) returns (units: seq<Unit>)
    requires LayoutOk(pieces) && limit >= 1
    ensures UnitsOk(units, limit) && UnitWeight(units, limit) <= |Laid(pieces)|
    ensures AllWords(Texts(units)) == HardSplitAll(Words(Laid(pieces)), limit)
    ensures SentencesKept(units, pieces, |pieces|, limit) && PairsKept(units, pieces, |pieces|, limit)
  {
    units := [];
    for i := 0 to |pieces|
      invariant SentencesKept(units, pieces, i, limit)
      invariant Collected(units, Laid(pieces[..i]), limit)
      invariant i == 0 ==> units == []
      invariant PairsKept(units, pieces, i, limit)
    {
      var more := CollectPiece(units, pieces, i, limit);
      KeepsSentences(units, more, pieces, i, limit);
      KeepsPairs(units, more, pieces, i, limit);
      units := more;
    }
    assert pieces[..|pieces|] == pieces;
  }

  method CollectPiece(units: seq<Unit>, pieces: seq<Piece>, i: nat, limit: nat) returns (more: seq<Unit>)
    requires limit >= 1 && LayoutOk(pieces) && i < |pieces| && Collected(units, Laid(pieces[..i]), limit) && (i == 0 ==>
      units == [])
    ensures Collected(more, Laid(pieces[..i + 1]), limit) && units <= more
    ensures |pieces[i].sentence| <= limit ==> |more| == |units| + 1 && more[|units|].text == pieces[i].sentence
    ensures |pieces[i].sentence| <= limit ==> OneUnit(units, more, pieces[i])
  {
    var separator := if units == [] then "" else if pieces[i].breaks then "\n\n" else SPACE;
    var parts := PartsOf(pieces[i].sentence, limit);
    CollectOne(units, pieces, i, parts, separator, limit);
    more := AddParts(units, parts, separator);
    OnePart(units, more, pieces[i], parts, separator, limit);
  }

  lemma OnePart(units: seq<Unit>, more: seq<Unit>, piece: Piece, parts: seq<string>, sep: string, limit: nat)
    requires more == units + Tagged(parts, sep) && (|piece.sentence| <= limit ==> parts == [piece.sentence])
    requires sep == if units == [] then "" else if piece.breaks then "\n\n" else SPACE
    ensures |piece.sentence| <= limit ==> OneUnit(units, more, piece)
  {
    if |piece.sentence| <= limit { assert Tagged(parts, sep) == [Unit(piece.sentence, sep)]; }
  }

  method PartsOf(sentence: string, limit: nat) returns (parts: seq<string>)
    requires limit >= 1 && sentence != ""
    ensures AllWords(parts) == HardSplitAll(Words(sentence), limit) && Sized(parts, limit)
      && Weight(parts, limit) <= |sentence|
    ensures |sentence| <= limit ==> parts == [sentence]
  {
    if |sentence| <= limit {
      ShortSentence(sentence, limit);
      return [sentence];
    }
    parts := SplitLongUnit(sentence, limit);
  }

  method AddParts(units: seq<Unit>, parts: seq<string>, separator: string) returns (more: seq<Unit>)
    ensures more == units + Tagged(parts, separator)
  {
    more := units;
    ghost var tagged := Tagged(parts, separator);
    for j := 0 to |parts|
      invariant more == units + tagged[..j]
    {
      assert tagged[..j + 1] == tagged[..j] + [tagged[j]];
      more := more + [Unit(parts[j], if j == 0 then separator else SPACE)];
    }
    assert tagged[..|parts|] == tagged;
  }

  lemma ShortSentence(sentence: string, limit: nat)
    requires limit >= 1 && 1 <= |sentence| <= limit
    ensures AllWords([sentence]) == HardSplitAll(Words(sentence), limit) && Weight([sentence], limit) == |sentence|
  {
    AllWordsOne([], sentence);
    assert [] + [sentence] == [sentence];
    WordsAreSolid(sentence);
    ShortWordsStayWhole(Words(sentence), limit);
    WeightOne([], sentence, limit);
  }

  /** The chunks hold the first `i` units. */
  ghost predicate Filled(chunks: seq<string>, units: seq<Unit>, i: nat, limit: nat)
    requires i <= |units|
  {
    && AllWords(chunks) == AllWords(Texts(units[..i])) && Sized(chunks, limit) && Dense(chunks, limit)
    && SumLen(chunks) <= UnitWeight(units[..i], limit)
    && (i > 0 ==> chunks != [] && |chunks[|chunks| - 1]| >= |units[i - 1].text|)
  }

  lemma UnitsStep(units: seq<Unit>, i: nat, limit: nat)
    requires i < |units|
    ensures AllWords(Texts(units[..i + 1])) == AllWords(Texts(units[..i])) + Words(units[i].text)
    ensures UnitWeight(units[..i + 1], limit) ==
      UnitWeight(units[..i], limit) + |units[i].text|
      + (if i > 0 && |units[i - 1].text| < limit then |units[i].sep| else 0)
  {
    assert units[..i + 1] == units[..i] + [units[i]];
    TextsOne(units[..i], units[i]);
    UnitWeightOne(units[..i], units[i], limit);
  }

  lemma NextChunk(chunks: seq<string>, units: seq<Unit>, i: nat, limit: nat)
    requires i < |units| && UnitsOk(units, limit) && Filled(chunks, units, i, limit)
    requires i > 0 ==> |chunks[|chunks| - 1]| + |units[i].sep| + |units[i].text| > limit
    requires i == 0 ==> chunks == []
    ensures Filled(chunks + [units[i].text], units, i + 1, limit)
  {
    UnitsStep(units, i, limit);
    AllWordsOne(chunks, units[i].text);
    SumLenOne(chunks, units[i].text);
  }

  lemma FullerIsDense(chunks: seq<string>, current: string, longer: string, limit: nat)
    requires Dense(chunks + [current], limit) && |longer| >= |current|
    ensures Dense(chunks + [longer], limit)
  {
    var before, after := chunks + [current], chunks + [longer];
    forall k | 0 < k < |after| ensures |after[k - 1]| + |after[k]| + 2 > limit {
      assert |before[k - 1]| + |before[k]| + 2 > limit;
    }
  }

  lemma FullerChunk(chunks: seq<string>, current: string, units: seq<Unit>, i: nat, limit: nat)
    requires 0 < i < |units| && UnitsOk(units, limit) && current != "" && Filled(chunks + [current], units, i, limit)
    requires |current + units[i].sep + units[i].text| <= limit
    ensures Filled(chunks + [current + units[i].sep + units[i].text], units, i + 1, limit)
  {
    var longer := current + units[i].sep + units[i].text;
    assert (chunks + [current])[|chunks|] == current;
    UnitsStep(units, i, limit);
    LongerWords(chunks, current, units[i].sep, units[i].text);
    SumLenOne(chunks, current);
    SumLenOne(chunks, longer);
    FullerIsDense(chunks, current, longer, limit);
  }

  method JoinUnits(units: seq<Unit>, limit: nat) returns (chunks: seq<string>)
    requires UnitsOk(units, limit)
    ensures AllWords(chunks) == AllWords(Texts(units))
    ensures Sized(chunks, limit) && Dense(chunks, limit)
    ensures SumLen(chunks) <= UnitWeight(units, limit)
    ensures Undivided(chunks, units, |units|) && Spaced(chunks, units, |units|)
  {
    chunks := [];
    var current := "";
    for i := 0 to |units|
      invariant Undivided(Open(chunks, current), units, i)
      invariant Spaced(Open(chunks, current), units, i)
      invariant Filled(Open(chunks, current), units, i, limit)
      invariant current == "" <==> i == 0
      invariant i == 0 ==> chunks == []
    {
      var unit, separator := units[i].text, units[i].sep;
      var candidate := if current != "" then current + separator + unit else unit;
      if |candidate| <= limit {
        if current != "" {
          FullerChunk(chunks, current, units, i, limit);
          UndividedLonger(chunks, current, units, i);
          SpacedLonger(chunks, current, units, i);
        } else {
          NextChunk(chunks, units, i, limit);
          UndividedNext(chunks, units, i);
          SpacedNext(chunks, units, i);
        }
        current := candidate;
      } else {
        NextChunk(chunks + [current], units, i, limit);
        UndividedNext(chunks + [current], units, i);
        SpacedNext(chunks + [current], units, i);
        chunks := chunks + [current];
        current := unit;
      }
    }
    assert units[..|units|] == units;
    if current != "" {
      chunks := chunks + [current];
    }
  }

  // ----- The splitter ------------------------------------------------------------------------------

  datatype Chunking = Chunked(chunks: seq<string>) | TooMany(count: nat) | Invalid

  /** What splitting promises about its chunks. */
  ghost predicate GoodChunks(text: string, chunks: seq<string>, limit: nat)
    requires limit >= 1
  {
    && AllWords(chunks) == HardSplitAll(Words(text), limit)
    && Sized(chunks, limit)
    && (limit >= 2 ==> |chunks| <= 2 * (|Strip(text)| / (limit - 1)) + 1)
  }

  /** `k * m` by repeated addition. */
  function Times(k: nat, m: nat): nat { if k == 0 then 0 else Times(k - 1, m) + m }

  lemma SumLenAt(chunks: seq<string>, i: nat)
    requires i < |chunks|
    ensures SumLen(chunks[..i + 1]) == SumLen(chunks[..i]) + |chunks[i]|
  {
    assert chunks[..i + 1][..i] == chunks[..i];
  }

  lemma {:induction false} SumLenPrefix(chunks: seq<string>, n: nat)
    requires n <= |chunks|
    ensures SumLen(chunks[..n]) <= SumLen(chunks)
    decreases |chunks| - n
  {
    if n < |chunks| {
      SumLenAt(chunks, n);
      SumLenPrefix(chunks, n + 1);
    } else {
      assert chunks[..n] == chunks;
    }
  }

  /** Each pair of neighbours weighs at least `m`. */
  lemma {:induction false} PairsWeigh(chunks: seq<string>, k: nat, m: nat)
    requires Dense(chunks, m + 1) && 2 * k <= |chunks|
    ensures Times(k, m) <= SumLen(chunks[..2 * k])
  {
    if k > 0 {
      PairsWeigh(chunks, k - 1, m);
      SumLenAt(chunks, 2 * k - 2);
      SumLenAt(chunks, 2 * k - 1);
    }
  }

  lemma {:induction false} TimesGrows(a: nat, b: nat, m: nat)
    requires a <= b
    ensures Times(a, m) <= Times(b, m)
    decreases b
  {
    if a < b { TimesGrows(a, b - 1, m); }
  }

  lemma {:induction false} TimesIsProduct(k: nat, m: nat)
    ensures Times(k, m) == k * m
  {
    if k > 0 {
      TimesIsProduct(k - 1, m);
      assert k * m == (k - 1) * m + m;
    }
  }

  lemma TimesBelow(a: nat, b: nat, m: nat)
    requires Times(a, m) < Times(b, m)
    ensures a < b
  {
    if b <= a { TimesGrows(b, a, m); }
  }

  lemma NextMultiple(m: nat, len: nat) returns (q: nat)
    requires m >= 1
    ensures q == len / m && len < Times(q + 1, m)
  {
    q := len / m;
    TimesIsProduct(q, m);
    assert len == m * q + len % m;
  }

  lemma PairsAreFew(chunks: seq<string>, pairs: nat, m: nat, len: nat, q: nat)
    requires Dense(chunks, m + 1) && 2 * pairs <= |chunks| && SumLen(chunks) <= len < Times(q + 1, m)
    ensures pairs <= q
  {
    PairsWeigh(chunks, pairs, m);
    SumLenPrefix(chunks, 2 * pairs);
    TimesBelow(pairs, q + 1, m);
  }

  lemma DenseIsFew(chunks: seq<string>, m: nat, len: nat)
    requires Dense(chunks, m + 1) && m >= 1 && SumLen(chunks) <= len
    ensures |chunks| <= 2 * (len / m) + 1
  {
    var q := NextMultiple(m, len);
    PairsAreFew(chunks, |chunks| / 2, m, len, q);
  }

  lemma BlankIsGood(text: string, limit: nat)
    requires limit >= 1 && Strip(text) == ""
    ensures GoodChunks(text, [], limit)
  {
    StripKeepsWords(text);
  }

  lemma OneIsFew(len: nat, m: nat)
    requires m >= 1
    ensures 1 <= 2 * (len / m) + 1
  {
  }

  lemma ShortIsGood(text: string, value: string, limit: nat)
    requires value == Strip(text) && 1 <= |value| <= limit
    ensures GoodChunks(text, [value], limit)
  {
    assert Words(value) == Words(text) by { StripKeepsWords(text); }
    ShortSentence(value, limit);
    if limit >= 2 { OneIsFew(|value|, limit - 1); }
  }

  /** The chunks of a text that is laid out in `pieces`. */
  method ChunkList(text: string, pieces: seq<Piece>, limit: nat) returns (chunks: seq<string>)
    requires limit >= 1 && LayoutOk(pieces) && Laid(pieces) == Strip(text)
    ensures GoodChunks(text, chunks, limit) && SentencesWhole(pieces, chunks, limit)
    ensures |Strip(text)| > limit ==> SentencesApart(pieces, chunks, limit)
    ensures |Strip(text)| <= limit ==> chunks == if Strip(text) == "" then [] else [Strip(text)]
  {
    var value := Strip(text);
    if value == "" {
      BlankIsGood(text, limit);
      NothingLaid(pieces);
      return [];
    }
    if |value| <= limit {
      ShortIsGood(text, value, limit);
      WholeTextIsWhole(pieces, limit);
      return [value];
    }
    chunks := SplitPieces(pieces, limit);
    StripKeepsWords(text);
  }

  /** A text that does not fit, sentence by sentence. */
  method SplitPieces(pieces: seq<Piece>, limit: nat) returns (chunks: seq<string>)
    requires limit >= 1 && LayoutOk(pieces)
    ensures AllWords(chunks) == HardSplitAll(Words(Laid(pieces)), limit) && Sized(chunks, limit)
    ensures limit >= 2 ==> |chunks| <= 2 * (|Laid(pieces)| / (limit - 1)) + 1
    ensures SentencesWhole(pieces, chunks, limit) && SentencesApart(pieces, chunks, limit)
  {
    var units := CollectUnits(pieces, limit);
    chunks := JoinUnits(units, limit);
    KeptAreWhole(units, pieces, chunks, limit);
    KeptAreApart(units, pieces, chunks, limit);
    if limit >= 2 { DenseIsFew(chunks, limit - 1, |Laid(pieces)|); }
  }

  /**
   * Split a text without losing anything: every chunk fits, the words keep their order, a sentence
   * that fits is not divided, and the number of chunks is bounded by the length. Too many chunks is
   * an error, never a truncation.
   */
  method SemanticChunks(text: string, pieces: seq<Piece>, maxChars: int, maxChunks: Option<int>) returns (r: Chunking)
    requires LayoutOk(pieces) && Laid(pieces) == Strip(text)
    ensures r == Invalid <==> maxChars < 1 || (maxChunks.Some? && maxChunks.value < 1)
    ensures r.Chunked? ==> GoodChunks(text, r.chunks, maxChars) && SentencesWhole(pieces, r.chunks, maxChars)
    ensures r.Chunked? && |Strip(text)| > maxChars ==> SentencesApart(pieces, r.chunks, maxChars)
    ensures r.Chunked? && maxChunks.Some? ==> |r.chunks| <= maxChunks.value
    ensures r.TooMany? ==>
      (maxChunks.Some? && r.count > maxChunks.value && exists chunks ::
        GoodChunks(text, chunks, maxChars) && |chunks| == r.count)
    ensures r != Invalid && |Strip(text)| <= maxChars ==> r == Chunked(if Strip(text) == "" then [] else [Strip(text)])
  {
    if maxChars < 1 || (maxChunks.Some? && maxChunks.value < 1) { return Invalid; }
    var chunks := ChunkList(text, pieces, maxChars);
    if maxChunks.Some? && |chunks| > maxChunks.value { return TooMany(|chunks|); }
    r := Chunked(chunks);
  }

  // ----- What a reader gets from it ------------------------------------------------------------

  lemma {:induction false} SqueezedAll(texts: seq<string>)
    ensures Squeezed(Flatten(texts)) == Flatten(AllWords(texts))
  {
    if texts != [] {
      var init, last := texts[..|texts| - 1], texts[|texts| - 1];
      SqueezedAll(init);
      FlattenOne(init, last);
      assert texts == init + [last];
      SqueezedJoin(Flatten(init), last);
      SqueezedIsWords(last);
      FlattenAppend(AllWords(init), Words(last));
    }
  }

  /** Nothing is lost or added: without white space, chunks and text read the same. */
  lemma NothingIsLost(text: string, chunks: seq<string>, limit: nat)
    requires limit >= 1 && GoodChunks(text, chunks, limit)
    ensures Squeezed(Flatten(chunks)) == Squeezed(text)
  {
    SqueezedAll(chunks);
    HardSplitAllJoins(Words(text), limit);
    SqueezedIsWords(text);
  }

  lemma {:induction false} WordInSomeText(texts: seq<string>, w: string) returns (i: nat)
    requires w in AllWords(texts)
    ensures i < |texts| && w in Words(texts[i])
  {
    var init := texts[..|texts| - 1];
    if w in Words(texts[|texts| - 1]) { i := |texts| - 1; } else { i := WordInSomeText(init, w); }
  }

  /** A word that fits lies whole in one chunk, and each piece of a longer one does. */
  lemma WordsStayWhole(text: string, chunks: seq<string>, limit: nat, w: string, piece: string)
    requires limit >= 1 && GoodChunks(text, chunks, limit) && w in Words(text) && piece in HardSplit(w, limit)
    ensures exists i :: 0 <= i < |chunks| && piece in Words(chunks[i])
    ensures |w| <= limit ==> piece == w
  {
    HardSplitHas(Words(text), limit, w, piece);
    var i := WordInSomeText(chunks, piece);
  }

  lemma {:induction false} FlattenHas(ws: seq<string>, w: string)
    requires w in ws
    ensures |w| <= |Flatten(ws)|
  {
    if w != ws[0] { FlattenHas(ws[1..], w); }
  }

  /** Without white space a text is shorter by just the white space in it. */
  lemma {:induction false} SqueezedLength(s: string)
    ensures |Squeezed(s)| <= |s|
    ensures |Squeezed(s)| == |s| ==> forall i :: 0 <= i < |s| ==> !IsSpace(s[i])
  {
    if s != "" { SqueezedLength(s[..|s| - 1]); }
  }

  /** A word as long as the text is the text. */
  lemma WordIsText(s: string, w: string)
    requires w in Words(s) && |w| >= |s|
    ensures w == s
  {
    WordsAreSolid(s);
    SqueezedIsWords(s);
    FlattenHas(Words(s), w);
    SqueezedLength(s);
    WordsOfSolid(s);
  }

  /** A hard split leaves full pieces up to the last. */
  lemma {:induction false} FullPieces(w: string, limit: nat, j: nat)
    requires limit >= 1 && j + 1 < |HardSplit(w, limit)|
    ensures |HardSplit(w, limit)[j]| == limit
  {
    if j > 0 { FullPieces(w[limit..], limit, j - 1); }
  }

  /**
   * No space gets inside a token that had to be cut: each of its pieces but the last is a chunk all
   * by itself, so that nothing stands between one piece and the next but the border of two chunks.
   */
  lemma NoSpaceInsideToken(text: string, chunks: seq<string>, limit: nat, w: string, j: nat)
    requires limit >= 1 && GoodChunks(text, chunks, limit) && w in Words(text) && j + 1 < |HardSplit(w, limit)|
    ensures exists i :: 0 <= i < |chunks| && chunks[i] == HardSplit(w, limit)[j]
  {
    var piece := HardSplit(w, limit)[j];
    FullPieces(w, limit, j);
    HardSplitHas(Words(text), limit, w, piece);
    var i := WordInSomeText(chunks, piece);
    WordIsText(chunks[i], piece);
  }
}
