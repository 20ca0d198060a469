/** Words, and what splitting and joining at white space does to them. */
module Tokens {
  import opened Prelude
  import opened Text

  predicate Blank(s: string) { forall i :: 0 <= i < |s| ==> IsSpace(s[i]) }

  predicate Solid(s: string) { s != "" && forall i :: 0 <= i < |s| ==> !IsSpace(s[i]) }

  predicate EndsInSpace(s: string) { s == "" || IsSpace(s[|s| - 1]) }

  /** One more character: white space, the start of a word, or more of the last word. */
  function Grow(ws: seq<string>, apart: bool, c: char): seq<string>
    requires apart || ws != []
  {
    if IsSpace(c) then ws else if apart then ws + [[c]] else ws[..|ws| - 1] + [ws[|ws| - 1] + [c]]
  }

  /** `str.split()`: the maximal runs of characters that are not white space. */
  function Words(s: string): (ws: seq<string>)
    ensures !EndsInSpace(s) ==> ws != []
  {
    if s == "" then [] else Grow(Words(s[..|s| - 1]), EndsInSpace(s[..|s| - 1]), s[|s| - 1])
  }

  lemma GrowJoin(before: seq<string>, ws: seq<string>, apart: bool, c: char)
    requires apart || ws != []
    ensures Grow(before + ws, apart, c) == before + Grow(ws, apart, c)
  {
  }

  lemma {:induction false} WordsAreSolid(s: string)
    ensures forall w :: w in Words(s) ==> Solid(w) && |w| <= |s|
  {
    if s != "" {
      var init, c := s[..|s| - 1], s[|s| - 1];
      WordsAreSolid(init);
      assert !IsSpace(c) ==> Solid([c]);
      if !IsSpace(c) && !EndsInSpace(init) {
        var last := Words(init)[|Words(init)| - 1];
        assert last in Words(init);
        assert Solid(last + [c]);
        assert forall w :: w in Words(s) ==> w in Words(init) || w == last + [c];
      }
    }
  }

  lemma {:induction false} WordsOfSolid(w: string)
    requires Solid(w)
    ensures Words(w) == [w]
  {
    var init := w[..|w| - 1];
    assert init + [w[|w| - 1]] == w;
    if init != "" {
      WordsOfSolid(init);
      assert [init][..0] == [];
    }
  }

  lemma {:induction false} BlankTail(a: string, gap: string)
    requires Blank(gap)
    ensures Words(a + gap) == Words(a)
  {
    if gap == "" {
      assert a + gap == a;
    } else {
      BlankTail(a, gap[..|gap| - 1]);
      assert (a + gap)[..|a + gap| - 1] == a + gap[..|gap| - 1];
    }
  }

  lemma {:induction false} BlankHead(gap: string, b: string)
    requires Blank(gap)
    ensures Words(gap + b) == Words(b)
  {
    if b == "" {
      BlankTail("", gap);
      assert gap + b == "" + gap;
    } else {
      var s := gap + b;
      BlankHead(gap, b[..|b| - 1]);
      assert s[..|s| - 1] == gap + b[..|b| - 1];
      EndsAlike(gap, b[..|b| - 1]);
    }
  }

  lemma {:induction false} LStripKeepsWords(s: string)
    ensures Words(LStrip(s)) == Words(s)
  {
    if s != "" && IsSpace(s[0]) {
      LStripKeepsWords(s[1..]);
      BlankHead(s[..1], s[1..]);
      assert s[..1] + s[1..] == s;
    }
  }

  lemma {:induction false} RStripKeepsWords(s: string)
    ensures Words(RStrip(s)) == Words(s)
  {
    if s != "" && IsSpace(s[|s| - 1]) { RStripKeepsWords(s[..|s| - 1]); }
  }

  lemma StripKeepsWords(s: string)
    ensures Words(Strip(s)) == Words(s)
  {
    LStripKeepsWords(s);
    RStripKeepsWords(LStrip(s));
  }

  /** Splitting at white space: the words on both sides, in order. */
  lemma {:induction false} WordsJoin(a: string, gap: string, b: string)
    requires gap != "" && Blank(gap)
    ensures Words(a + gap + b) == Words(a) + Words(b)
  {
    if b == "" {
      BlankTail(a, gap);
      assert a + gap + b == a + gap;
    } else {
      var init, c := b[..|b| - 1], b[|b| - 1];
      WordsJoin(a, gap, init);
      assert b == init + [c] && a + gap + b == (a + gap + init) + [c];
      OneMoreCharacter(a + gap + init, c);
      OneMoreCharacter(init, c);
      GrowJoin(Words(a), Words(init), EndsInSpace(init), c);
      EndsAlike(a + gap, init);
    }
  }

  lemma OneMoreCharacter(s: string, c: char)
    ensures Words(s + [c]) == Grow(Words(s), EndsInSpace(s), c)
  {
    assert (s + [c])[..|s|] == s;
  }

  lemma EndsAlike(a: string, b: string)
    requires EndsInSpace(a)
    ensures EndsInSpace(a + b) <==> EndsInSpace(b)
  {
    if b == "" { assert a + b == a; }
  }

  // ----- Hard splits ------------------------------------------------------------------------------

  /** A token that fits stays whole; a longer one is cut every `limit` characters. */
  function HardSplit(w: string, limit: nat): seq<string>
    requires limit >= 1
  {
    if |w| <= limit then [w] else [w[..limit]] + HardSplit(w[limit..], limit)
  }

  function HardSplitAll(ws: seq<string>, limit: nat): seq<string>
    requires limit >= 1
  {
    if ws == [] then [] else HardSplitAll(ws[..|ws| - 1], limit) + HardSplit(ws[|ws| - 1], limit)
  }

  lemma HardSplitOne(ws: seq<string>, w: string, limit: nat)
    requires limit >= 1
    ensures HardSplitAll(ws + [w], limit) == HardSplitAll(ws, limit) + HardSplit(w, limit)
  {
    assert (ws + [w])[..|ws|] == ws;
  }

  lemma {:induction false} HardSplitJoin(a: seq<string>, b: seq<string>, limit: nat)
    requires limit >= 1
    ensures HardSplitAll(a + b, limit) == HardSplitAll(a, limit) + HardSplitAll(b, limit)
  {
    if b == [] {
      assert a + b == a;
    } else {
      var init, w := b[..|b| - 1], b[|b| - 1];
      assert b == init + [w] && a + b == (a + init) + [w];
      HardSplitJoin(a, init, limit);
      HardSplitOne(a + init, w, limit);
      HardSplitOne(init, w, limit);
      JoinMore(HardSplitAll(a, limit), HardSplitAll(init, limit), HardSplit(w, limit));
    }
  }

  lemma {:induction false} ShortWordsStayWhole(ws: seq<string>, limit: nat)
    requires limit >= 1 && forall w :: w in ws ==> |w| <= limit
    ensures HardSplitAll(ws, limit) == ws
  {
    if ws != [] { ShortWordsStayWhole(ws[..|ws| - 1], limit); }
  }

  lemma {:induction false} HardSplitJoins(w: string, limit: nat)
    requires limit >= 1
    ensures Flatten(HardSplit(w, limit)) == w
  {
    if |w| <= limit {
      FlattenSingle(w);
    } else {
      HardSplitJoins(w[limit..], limit);
    }
  }

  lemma {:induction false} HardSplitAllJoins(ws: seq<string>, limit: nat)
    requires limit >= 1
    ensures Flatten(HardSplitAll(ws, limit)) == Flatten(ws)
  {
    if ws != [] {
      var init, last := ws[..|ws| - 1], ws[|ws| - 1];
      HardSplitAllJoins(init, limit);
      HardSplitJoins(last, limit);
      FlattenAppend(HardSplitAll(init, limit), HardSplit(last, limit));
      FlattenAppend(init, [last]);
      FlattenSingle(last);
      assert ws == init + [last];
    }
  }

  lemma {:induction false} HardSplitHas(ws: seq<string>, limit: nat, w: string, piece: string)
    requires limit >= 1 && w in ws && piece in HardSplit(w, limit)
    ensures piece in HardSplitAll(ws, limit)
  {
    if w in ws[..|ws| - 1] { HardSplitHas(ws[..|ws| - 1], limit, w, piece); }
  }

  // ----- Text without its white space ------------------------------------------------------------

  function Squeezed(s: string): string {
    if s == "" then ""
    else Squeezed(s[..|s| - 1]) + (if IsSpace(s[|s| - 1]) then "" else [s[|s| - 1]])
  }

  lemma {:induction false} SqueezedJoin(a: string, b: string)
    ensures Squeezed(a + b) == Squeezed(a) + Squeezed(b)
  {
    if b == "" {
      assert a + b == a;
    } else {
      SqueezedJoin(a, b[..|b| - 1]);
      assert (a + b)[..|a + b| - 1] == a + b[..|b| - 1];
    }
  }

  lemma FlattenOne(ws: seq<string>, w: string)
    ensures Flatten(ws + [w]) == Flatten(ws) + w
  {
    FlattenAppend(ws, [w]);
    FlattenSingle(w);
  }

  /** The words put together are the text without its white space. */
  lemma {:induction false} SqueezedIsWords(s: string)
    ensures Squeezed(s) == Flatten(Words(s))
  {
    if s != "" {
      var init, c, before := s[..|s| - 1], s[|s| - 1], Words(s[..|s| - 1]);
      SqueezedIsWords(init);
      if !IsSpace(c) {
        FlattenOne(before, [c]);
        if !EndsInSpace(init) {
          var head, last := before[..|before| - 1], before[|before| - 1];
          FlattenOne(head, last);
          FlattenOne(head, last + [c]);
          assert before == head + [last];
        }
      }
    }
  }

  function SumLen(ws: seq<string>): nat { if ws == [] then 0 else SumLen(ws[..|ws| - 1]) + |ws[|ws| - 1]| }

  lemma SumLenOne(ws: seq<string>, w: string)
    ensures SumLen(ws + [w]) == SumLen(ws) + |w|
  {
    assert (ws + [w])[..|ws|] == ws;
  }

  /** A text has room for its words and a separator between each two. */
  lemma {:induction false} WordsHaveRoom(s: string)
    ensures SumLen(Words(s)) + |Words(s)| <= |s| + (if EndsInSpace(s) then 0 else 1)
  {
    if s != "" {
      var init, c, before := s[..|s| - 1], s[|s| - 1], Words(s[..|s| - 1]);
      WordsHaveRoom(init);
      if !IsSpace(c) {
        SumLenOne(before, [c]);
        if !EndsInSpace(init) {
          var head, last := before[..|before| - 1], before[|before| - 1];
          SumLenOne(head, last + [c]);
          assert SumLen(before) == SumLen(head) + |last|;
        }
      }
    }
  }
}
