/** Merging a burst of messages from one sender into one candidate. */
module Coalescing {
  import opened Prelude
  import opened Text
  import opened Sorting
  import opened Candidates
  import opened GreedyCut

  const MAX_GAP := 180
  const MAX_JOIN := 3
  const SELF_HANDLES: set<string> := {"@rain", "@rain_ouroboros", "@ouroboros", "@rainouroboros"}

  /** Whom the structure of a message (reply, mentions) aims it at. */
  datatype Target = Untargeted | AtSelf | AtHandles(handles: seq<string>) | AtReply(mid: int) | AtOther

  function TargetOf(c: Candidate): Target {
    var handles := Map(Lower, c.handles);
    if c.replyToMe then AtSelf
    else if handles != [] then
      if forall h :: h in handles ==> h in SELF_HANDLES then AtSelf else AtHandles(handles)
    else if c.replyTo.Some? then AtReply(c.replyTo.value)
    else if c.kind == Mention || c.kind == ReplyToAgent then AtSelf
    else if c.mentionsOther then AtOther
    else Untargeted
  }

  predicate SameFloor(a: Candidate, b: Candidate) {
    TargetOf(a) == Untargeted || TargetOf(b) == Untargeted || TargetOf(a) == TargetOf(b)
  }

  /** Own and anonymous messages are never merged with anything. */
  predicate Solo(c: Candidate) {
    c.fromMe || c.sender == None
  }

  /** Whether `c` may extend the open burst; only the last member is looked at. */
  predicate CanJoin(group: seq<Candidate>, c: Candidate, maxGap: int, maxJoin: int) {
    group != [] &&
    var last := group[|group| - 1];
    && !Solo(last) && !Solo(c)
    && last.sender == c.sender
    && last.topic == c.topic
    && SameFloor(last, c)
    && |group| < maxJoin
    && c.ts - last.ts <= maxGap
  }

  function Joiner(maxGap: int, maxJoin: int): (seq<Candidate>, Candidate) -> bool {
    (g: seq<Candidate>, c: Candidate) => CanJoin(g, c, maxGap, maxJoin)
  }

  // ----- What a burst becomes -------------------------------------------------------

  /** The first member of highest addressing rank. */
  function Strongest(g: seq<Candidate>): (c: Candidate)
    requires g != []
    ensures c in g
    ensures forall x :: x in g ==> x.kind.Rank() <= c.kind.Rank()
  {
    if |g| == 1 then g[0]
    else
      var before := Strongest(g[..|g| - 1]);
      assert forall x :: x in g ==> x in g[..|g| - 1] || x == g[|g| - 1];
      if g[|g| - 1].kind.Rank() > before.kind.Rank() then g[|g| - 1] else before
  }

  function Anchor(g: seq<Candidate>): (c: Candidate)
    requires g != []
    ensures c in g
  {
    if Strongest(g).kind.Rank() > 0 then Strongest(g) else g[|g| - 1]
  }

  function MaxSeq(g: seq<Candidate>): (m: nat)
    requires g != []
    ensures forall c :: c in g ==> c.spoolSeq <= m
    ensures exists c :: c in g && c.spoolSeq == m
  {
    if |g| == 1 then assert g[0] in g; g[0].spoolSeq
    else
      var m := MaxSeq(g[1..]);
      assert g == [g[0]] + g[1..];
      assert g[0] in g;
      Max(g[0].spoolSeq, m)
  }

  function Joined(g: seq<Candidate>): string {
    if g == [] then ""
    else if g[|g| - 1].snippet == "" then Joined(g[..|g| - 1])
    else if Joined(g[..|g| - 1]) == "" then g[|g| - 1].snippet
    else Joined(g[..|g| - 1]) + " \U{23CE} " + g[|g| - 1].snippet
  }

  function Chars(g: seq<Candidate>): nat {
    if g == [] then 0 else Max(g[0].originalChars, |g[0].snippet|) + Chars(g[1..])
  }

  function Handles(g: seq<Candidate>): seq<string> {
    Flatten(Map((c: Candidate) => c.handles, g))
  }

  /** The one candidate that stands for a burst. A burst of one is left as it is. */
  function Merge(g: seq<Candidate>): (m: Candidate)
    requires g != []
  {
    if |g| == 1 then g[0]
    else
      var last := g[|g| - 1];
      Candidate(
        Anchor(g).mid, exists c :: c in g && c.addressed, Joined(g), last.sender, false,
        Strongest(g).kind, exists c :: c in g && c.mentionsOther, exists c :: c in g && c.replyToMe,
        last.ts, exists c :: c in g && c.truncated, Chars(g), last.topic, MaxSeq(g), Anchor(g).replyTo,
            Dedupe(Handles(g)))
  }

  function MergeAll(gs: seq<seq<Candidate>>): (r: seq<Candidate>)
    requires forall i :: 0 <= i < |gs| ==> gs[i] != []
    ensures |r| == |gs|
    ensures forall i :: 0 <= i < |gs| ==> r[i] == Merge(gs[i])
  {
    if gs == [] then []
    else
      var rest := MergeAll(gs[1..]);
      assert forall i :: 0 < i < |gs| ==> gs[i] == gs[1..][i - 1] && rest[i - 1] == Merge(gs[i]);
      [Merge(gs[0])] + rest
  }

  /** The bursts of a set of candidates. */
  function Bursts(cands: seq<Candidate>, maxGap: int, maxJoin: int): seq<seq<Candidate>> {
    Cut([], Sort(cands, ChatOrder()), Joiner(maxGap, maxJoin))
  }

  lemma ChatOrderTotal()
    ensures TotalOrder(ChatOrder())
  {
  }

  /** The bursts are contiguous and maximal in chat order, and they are exactly the candidates. */
  lemma BurstsPartition(cands: seq<Candidate>, maxGap: int, maxJoin: int)
    ensures IsBurstPartition(Bursts(cands, maxGap, maxJoin), Sort(cands, ChatOrder()), Joiner(maxGap, maxJoin))
    ensures Sorted(Flatten(Bursts(cands, maxGap, maxJoin)), ChatOrder())
    ensures multiset(Flatten(Bursts(cands, maxGap, maxJoin))) == multiset(cands)
  {
    CutPartitions([], Sort(cands, ChatOrder()), Joiner(maxGap, maxJoin));
    assert [] + Sort(cands, ChatOrder()) == Sort(cands, ChatOrder());
    ChatOrderTotal();
    SortIsSortedPermutation(cands, ChatOrder());
  }

  /** The messages of the bursts, one after the other, are in the order of their time, then of their ids. */
  lemma BurstsInTime(cands: seq<Candidate>, i: nat, j: nat)
    requires i < j < |Flatten(Bursts(cands, MAX_GAP, MAX_JOIN))|
    ensures var s := Flatten(Bursts(cands, MAX_GAP, MAX_JOIN));
      s[i].ts < s[j].ts || (s[i].ts == s[j].ts && s[i].mid <= s[j].mid)
  {
    BurstsPartition(cands, MAX_GAP, MAX_JOIN);
    assert ChatOrder()(Flatten(Bursts(cands, MAX_GAP, MAX_JOIN))[i], Flatten(Bursts(cands, MAX_GAP, MAX_JOIN))[j]);
  }

  /** `out` holds, in order, the candidate each burst becomes. */
  ghost predicate Represents(out: seq<Candidate>, groups: seq<seq<Candidate>>) {
    |out| == |groups| && forall i :: 0 <= i < |out| ==> groups[i] != [] && out[i] == Merge(groups[i])
  }

  /**
   * One pass over the time-ordered candidates with an open group that is flushed
   * whenever the next message may not join it.
   */
  method Coalesce(cands: seq<Candidate>, maxGap: int, maxJoin: int) returns (out: seq<Candidate>)
    ensures Represents(out, Bursts(cands, maxGap, maxJoin))
  {
    var ordered := Sort(cands, ChatOrder());
    out := [];
    ghost var groups := [];
    var group: seq<Candidate> := [];
    for i := 0 to |ordered|
      invariant groups + Cut(group, ordered[i..], Joiner(maxGap, maxJoin)) == Bursts(cands, maxGap, maxJoin)
      invariant Represents(out, groups)
    {
      FirstAndRest(ordered, i);
      out, group, groups := TakeIn(out, group, ordered[i], maxGap, maxJoin, groups, ordered[i + 1..]);
    }
    out, groups := Flush(out, group, groups);
  }

  /** The next message joins the open group, stands alone, or opens a new group. */
  method TakeIn(out: seq<Candidate>, group: seq<Candidate>, c: Candidate, maxGap: int, maxJoin: int,
                ghost groups: seq<seq<Candidate>>, ghost rest: seq<Candidate>)
    returns (out': seq<Candidate>, group': seq<Candidate>, ghost groups': seq<seq<Candidate>>)
    requires Represents(out, groups)
    ensures Represents(out', groups')
    ensures groups' + Cut(group', rest, Joiner(maxGap, maxJoin)) ==
      groups + Cut(group, [c] + rest, Joiner(maxGap, maxJoin))
  {
    ghost var join := Joiner(maxGap, maxJoin);
    out', group', groups' := out, group, groups;
    if CanJoin(group, c, maxGap, maxJoin) {
      JoinStep(group, c, rest, join);
      group' := group + [c];
    } else {
      FlushStep(groups, group, c, rest, join);
      out', groups' := Flush(out, group, groups);
      group' := [c];
      if Solo(c) {
        AloneStep(groups', c, rest, join);
        out', groups' := Flush(out', [c], groups');
        group' := [];
      }
    }
  }

  method Flush(out: seq<Candidate>, group: seq<Candidate>, ghost groups: seq<seq<Candidate>>)
    returns (out': seq<Candidate>, ghost groups': seq<seq<Candidate>>)
    requires Represents(out, groups)
    ensures out' == if group == [] then out else out + [Merge(group)]
    ensures groups' == groups + Closed(group) && Represents(out', groups')
  {
    out' := if group == [] then out else out + [Merge(group)];
    groups' := groups + Closed(group);
  }

  // ----- What merging keeps -----------------------------------------------------------

  lemma BurstJoin(g: seq<Candidate>, i: nat, maxGap: int, maxJoin: int)
    requires IsBurst(g, Joiner(maxGap, maxJoin)) && 0 < i < |g|
    ensures CanJoin(g[..i], g[i], maxGap, maxJoin) && g[..i][i - 1] == g[i - 1]
  {
    assert Joiner(maxGap, maxJoin)(g[..i], g[i]);
  }

  lemma {:induction false} BurstMembers(g: seq<Candidate>, i: nat, maxGap: int, maxJoin: int)
    requires IsBurst(g, Joiner(maxGap, maxJoin)) && i < |g|
    ensures g[i].topic == g[0].topic && g[i].sender == g[0].sender
    ensures |g| > 1 ==> !Solo(g[i]) && |g| <= maxJoin
    ensures i > 0 ==> SameFloor(g[i - 1], g[i]) && g[i].ts - g[i - 1].ts <= maxGap
  {
    if |g| > 1 {
      BurstJoin(g, |g| - 1, maxGap, maxJoin);
      BurstJoin(g, 1, maxGap, maxJoin);
    }
    if i > 0 {
      BurstMembers(g, i - 1, maxGap, maxJoin);
      BurstJoin(g, i, maxGap, maxJoin);
    }
  }

  /** Everyone in a burst shares the merged candidate's lane and sender, and none is ahead of it. */
  lemma MergeKeepsLane(g: seq<Candidate>, maxGap: int, maxJoin: int)
    requires IsBurst(g, Joiner(maxGap, maxJoin))
    ensures forall c :: c in g ==>
      c.topic == Merge(g).topic && c.sender == Merge(g).sender && c.spoolSeq <= Merge(g).spoolSeq
    ensures exists c :: c in g && c.spoolSeq == Merge(g).spoolSeq
    ensures exists c :: c in g && c.mid == Merge(g).mid
    ensures |g| <= Max(1, maxJoin)
    ensures Merge(g).fromMe ==> |g| == 1
  {
    BurstMembers(g, |g| - 1, maxGap, maxJoin);
    OneLaneOneSender(g, maxGap, maxJoin);
    MergeFields(g);
  }

  lemma OneLaneOneSender(g: seq<Candidate>, maxGap: int, maxJoin: int)
    requires IsBurst(g, Joiner(maxGap, maxJoin))
    ensures forall c :: c in g ==> c.topic == g[|g| - 1].topic && c.sender == g[|g| - 1].sender
  {
    BurstMembers(g, |g| - 1, maxGap, maxJoin);
    forall c | c in g
      ensures c.topic == g[|g| - 1].topic && c.sender == g[|g| - 1].sender
    {
      var i :| 0 <= i < |g| && g[i] == c;
      BurstMembers(g, i, maxGap, maxJoin);
    }
  }

  lemma MergeFields(g: seq<Candidate>)
    requires g != []
    ensures var last := g[|g| - 1]; Merge(g).topic == last.topic && Merge(g).sender == last.sender
    ensures Merge(g).spoolSeq == MaxSeq(g) && Merge(g).mid == Anchor(g).mid
    ensures Merge(g).fromMe ==> |g| == 1
  {
  }

  lemma {:induction false} StrongestIsFirst(g: seq<Candidate>) returns (i: nat)
    requires g != []
    ensures i < |g| && g[i] == Strongest(g)
    ensures forall j :: 0 <= j < i ==> g[j].kind.Rank() < g[i].kind.Rank()
    ensures forall j :: i < j < |g| ==> g[j].kind.Rank() <= g[i].kind.Rank()
  {
    if |g| == 1 {
      i := 0;
    } else {
      var init := g[..|g| - 1];
      var k := StrongestIsFirst(init);
      assert forall j :: 0 <= j < |init| ==> init[j] == g[j];
      i := if g[|g| - 1].kind.Rank() > g[k].kind.Rank() then |g| - 1 else k;
    }
  }

  /**
   * The merged candidate is anchored on the first of the strongest addressed members,
   * on the last member when nobody addresses the agent, and carries any member's cue.
   */
  lemma MergeAnchors(g: seq<Candidate>) returns (i: nat)
    requires g != []
    ensures i < |g| && g[i] == Anchor(g)
    ensures Merge(g).kind != NoAddress ==> forall j :: 0 <= j < i ==> g[j].kind.Rank() < g[i].kind.Rank()
    ensures var a := Anchor(g); a in g && Merge(g).mid == a.mid && Merge(g).replyTo == a.replyTo
    ensures forall c :: c in g ==> c.kind.Rank() <= Merge(g).kind.Rank()
    ensures Merge(g).kind == NoAddress ==> Anchor(g) == g[|g| - 1]
    ensures Merge(g).kind != NoAddress ==> Anchor(g).kind == Merge(g).kind
    ensures Merge(g).addressed <==> exists c :: c in g && c.addressed
    ensures Merge(g).replyToMe <==> exists c :: c in g && c.replyToMe
    ensures Merge(g).ts == g[|g| - 1].ts
  {
    var first := StrongestIsFirst(g);
    i := if Strongest(g).kind.Rank() > 0 then first else |g| - 1;
    if |g| == 1 {
      assert g[0] in g;
      assert forall c :: c in g ==> c == g[0];
    }
  }

  // ----- What a merged candidate says ------------------------------------------------------------

  predicate StandsAt(part: string, text: string, at: nat) { at + |part| <= |text| && text[at..at + |part|] == part }

  const BETWEEN := " \U{23CE} "

  /** `at` is where the text of each member stands; they follow each other with the mark in between. */
  ghost predicate LaidOut(g: seq<Candidate>, text: string, at: seq<nat>) {
    && |at| == |g|
    && (forall i :: 0 <= i < |g| && g[i].snippet != "" ==> StandsAt(g[i].snippet, text, at[i]))
    && (forall i, j :: 0 <= i < j < |g| && g[i].snippet != "" && g[j].snippet != "" ==>
          at[i] + |g[i].snippet| + |BETWEEN| <= at[j])
  }

  lemma StandsLonger(part: string, text: string, more: string, at: nat)
    requires StandsAt(part, text, at)
    ensures StandsAt(part, text + more, at)
  {
    assert (text + more)[at..at + |part|] == text[at..at + |part|];
  }

  /** The text holds what every member said, in order, and nothing besides but the marks. */
  lemma {:induction false} JoinedIsLaidOut(g: seq<Candidate>) returns (at: seq<nat>)
    ensures LaidOut(g, Joined(g), at)
    ensures |Joined(g)| == SnippetChars(g) + if Spoken(g) == 0 then 0 else |BETWEEN| * (Spoken(g) - 1)
    ensures Spoken(g) == 0 <==> Joined(g) == ""
  {
    if g == [] {
      at := [];
    } else {
      var init, last := g[..|g| - 1], g[|g| - 1];
      var before := JoinedIsLaidOut(init);
      assert g == init + [last];
      CountsOne(init, last);
      at := OneMoreJoined(init, last, before);
    }
  }

  lemma {:induction false} NothingSpoken(g: seq<Candidate>)
    requires Spoken(g) == 0
    ensures forall i :: 0 <= i < |g| ==> g[i].snippet == ""
  {
    if g != [] { NothingSpoken(g[..|g| - 1]); }
  }

  lemma CountsOne(init: seq<Candidate>, last: Candidate)
    ensures SnippetChars(init + [last]) == SnippetChars(init) + |last.snippet|
    ensures Spoken(init + [last]) == Spoken(init) + if last.snippet == "" then 0 else 1
    ensures Joined(init + [last]) == if last.snippet == "" then Joined(init)
      else if Joined(init) == "" then last.snippet else Joined(init) + BETWEEN + last.snippet
  {
    assert (init + [last])[..|init|] == init;
  }

  lemma OneMoreJoined(init: seq<Candidate>, last: Candidate, before: seq<nat>) returns (at: seq<nat>)
    requires LaidOut(init, Joined(init), before) && (Spoken(init) == 0 <==> Joined(init) == "")
    ensures LaidOut(init + [last], Joined(init + [last]), at)
  {
    CountsOne(init, last);
    if last.snippet == "" {
      at := before + [0];
    } else if Joined(init) == "" {
      at := before + [0];
      assert last.snippet[0..|last.snippet|] == last.snippet;
      NothingSpoken(init);
    } else {
      at := before + [|Joined(init)| + |BETWEEN|];
      LastStands(init, last, before);
    }
  }

  lemma LastStands(init: seq<Candidate>, last: Candidate, before: seq<nat>)
    requires LaidOut(init, Joined(init), before) && Joined(init) != "" && last.snippet != ""
    ensures Joined(init + [last]) == Joined(init) + BETWEEN + last.snippet
    ensures LaidOut(init + [last], Joined(init + [last]), before + [|Joined(init)| + |BETWEEN|])
  {
    var text := Joined(init) + BETWEEN + last.snippet;
    assert (init + [last])[..|init|] == init;
    assert Joined(init + [last]) == text;
    assert text == Joined(init) + (BETWEEN + last.snippet);
    forall i | 0 <= i < |init| && init[i].snippet != "" ensures StandsAt(init[i].snippet, text, before[i]) {
      StandsLonger(init[i].snippet, Joined(init), BETWEEN + last.snippet, before[i]);
    }
    var n := |Joined(init)| + |BETWEEN|;
    assert text[n..n + |last.snippet|] == last.snippet;
  }

  function SnippetChars(g: seq<Candidate>): nat {
    if g == [] then 0 else SnippetChars(g[..|g| - 1]) + |g[|g| - 1].snippet|
  }

  /** How many members said something. */
  function Spoken(g: seq<Candidate>): nat {
    if g == [] then 0 else Spoken(g[..|g| - 1]) + if g[|g| - 1].snippet == "" then 0 else 1
  }

  /** A merged candidate says what its members said, each text whole and all in order. */
  lemma MergeSaysAll(g: seq<Candidate>) returns (at: seq<nat>)
    requires g != []
    ensures LaidOut(g, Merge(g).snippet, at)
    ensures |Merge(g).snippet| == SnippetChars(g) + if Spoken(g) == 0 then 0 else 3 * (Spoken(g) - 1)
  {
    at := JoinedIsLaidOut(g);
    if |g| == 1 {
      at := [0];
      assert Joined(g[..0]) == "" && SnippetChars(g[..0]) == 0 && Spoken(g[..0]) == 0;
      assert g[0].snippet[0..|g[0].snippet|] == g[0].snippet;
    }
  }

  /** What the decider learns of a burst besides: cut off, aimed at others, or naming handles if any member is. */
  lemma MergeCarries(g: seq<Candidate>)
    requires g != []
    ensures Merge(g).truncated <==> exists i :: 0 <= i < |g| && g[i].truncated
    ensures Merge(g).mentionsOther <==> exists i :: 0 <= i < |g| && g[i].mentionsOther
    ensures forall x :: x in Merge(g).handles <==> exists i :: 0 <= i < |g| && x in g[i].handles
  {
    HandlesOf(g);
    DedupeHas(Handles(g));
    assert |g| == 1 ==> g == [g[0]];
    forall i | 0 <= i < |g| ensures g[i] in g { }
  }

  /** What the text of a candidate counts for: its full length if it was cut off, else what is there. */
  function FullChars(c: Candidate): nat { if c.originalChars > |c.snippet| then c.originalChars else |c.snippet| }

  lemma {:induction false} CharsOfMore(g: seq<Candidate>, c: Candidate)
    ensures Chars(g + [c]) == Chars(g) + FullChars(c)
  {
    if g == [] {
      assert Chars([c][1..]) == 0;
    } else {
      CharsOfMore(g[1..], c);
      assert (g + [c])[1..] == g[1..] + [c];
    }
  }

  /** The length of a burst is the sum of what its members count for. */
  lemma MergeCounts(g: seq<Candidate>, c: Candidate)
    requires g != []
    ensures Merge(g + [c]).originalChars == FullChars(c) + if |g| == 1 then FullChars(g[0]) else Merge(g).originalChars
  {
    CharsOfMore(g, c);
    assert |g| == 1 ==> g == [] + [g[0]];
    CharsOfMore([], g[0]);
  }

  lemma HandlesJoin(a: seq<Candidate>, b: seq<Candidate>)
    ensures Handles(a + b) == Handles(a) + Handles(b)
  {
    var f := (c: Candidate) => c.handles;
    MapJoin(f, a, b);
    FlattenAppend(Map(f, a), Map(f, b));
  }

  lemma {:induction false} DedupeGrows(a: seq<string>, b: seq<string>)
    ensures Dedupe(a) <= Dedupe(a + b)
  {
    if b == [] {
      assert a + b == a;
    } else {
      DedupeGrows(a, b[..|b| - 1]);
      assert (a + b)[..|a + b| - 1] == a + b[..|b| - 1];
    }
  }

  /** Handles are listed as the burst names them: a longer burst adds its handles at the end. */
  lemma HandlesInOrder(g: seq<Candidate>, more: seq<Candidate>)
    requires |g| >= 2
    ensures Merge(g).handles <= Merge(g + more).handles
  {
    HandlesJoin(g, more);
    DedupeGrows(Handles(g), Handles(more));
  }

  lemma HandlesOf(g: seq<Candidate>)
    ensures forall x :: x in Handles(g) <==> exists i :: 0 <= i < |g| && x in g[i].handles
  {
    var each := Map((c: Candidate) => c.handles, g);
    forall x ensures x in Handles(g) <==> exists i :: 0 <= i < |g| && x in g[i].handles {
      FlattenContains(each, x);
      if i :| 0 <= i < |g| && x in g[i].handles { assert x in each[i]; }
    }
  }

  lemma {:induction false} DedupeHas(s: seq<string>)
    ensures forall x :: x in Dedupe(s) <==> x in s
  {
    if s != [] {
      DedupeHas(s[..|s| - 1]);
      assert s == s[..|s| - 1] + [s[|s| - 1]];
    }
  }

  // ----- Where bursts end ------------------------------------------------------------------------

  /** Message `c` may stand in one burst with `a` right before it, which has `size` messages so far. */
  predicate Together(a: Candidate, c: Candidate, size: nat) {
    && !a.fromMe && !c.fromMe && a.sender.Some? && a.sender == c.sender && a.topic == c.topic
    && (TargetOf(a) == Untargeted || TargetOf(c) == Untargeted || TargetOf(a) == TargetOf(c))
    && size < 3 && c.ts - a.ts <= 180
  }

  /** Inside a burst every message goes together with the one before, and between two bursts it does not. */
  lemma BurstsEndExactly(cands: seq<Candidate>, i: nat)
    requires i < |Bursts(cands, MAX_GAP, MAX_JOIN)|
    ensures var gs := Bursts(cands, MAX_GAP, MAX_JOIN); var g := gs[i];
      && g != [] && (forall k: nat :: 0 < k < |g| ==> Together(g[k - 1], g[k], k))
      && (i + 1 < |gs| ==> gs[i + 1] != [] && !Together(g[|g| - 1], gs[i + 1][0], |g|))
  {
    var gs := Bursts(cands, MAX_GAP, MAX_JOIN);
    BurstsPartition(cands, MAX_GAP, MAX_JOIN);
    assert gs[i] in gs && (i + 1 < |gs| ==> gs[i + 1] in gs);
    var g := gs[i];
    forall k: nat | 0 < k < |g| ensures Together(g[k - 1], g[k], k) { BurstJoin(g, k, MAX_GAP, MAX_JOIN); }
    assert i + 1 < |gs| ==> !Joiner(MAX_GAP, MAX_JOIN)(gs[i + 1 - 1], gs[i + 1][0]);
  }

  /** Whom a message is aimed at: the first of these that applies. */
  lemma TargetsExactly(c: Candidate)
    ensures var names := {"@rain", "@rain_ouroboros", "@ouroboros", "@rainouroboros"};
      var own := forall i :: 0 <= i < |c.handles| ==> Lower(c.handles[i]) in names;
      if c.replyToMe then TargetOf(c) == AtSelf
      else if c.handles != [] then
        (if own then TargetOf(c) == AtSelf
         else TargetOf(c).AtHandles? && |TargetOf(c).handles| == |c.handles|
              && forall i :: 0 <= i < |c.handles| ==> TargetOf(c).handles[i] == Lower(c.handles[i]))
      else if c.replyTo.Some? then TargetOf(c) == AtReply(c.replyTo.value)
      else if c.kind == Mention || c.kind == ReplyToAgent then TargetOf(c) == AtSelf
      else TargetOf(c) == if c.mentionsOther then AtOther else Untargeted
  {
    var handles := Map(Lower, c.handles);
    forall i | 0 <= i < |c.handles| ensures handles[i] == Lower(c.handles[i]) && handles[i] in handles { }
  }

  /**
   * A burst may mix targets: only neighbours are compared, so an untargeted message in
   * the middle lets two different targets meet. With the default size that is the only way.
   */
  lemma TargetsMeetOnlyThroughUntargeted(g: seq<Candidate>)
    requires IsBurst(g, Joiner(MAX_GAP, MAX_JOIN))
    ensures (forall i, j :: 0 <= i < j < |g| ==> SameFloor(g[i], g[j])) <==>
            !(|g| == 3 && TargetOf(g[1]) == Untargeted && !SameFloor(g[0], g[2]))
  {
    BurstMembers(g, 0, MAX_GAP, MAX_JOIN);
    if |g| > 1 { BurstMembers(g, 1, MAX_GAP, MAX_JOIN); }
    if |g| > 2 { BurstMembers(g, 2, MAX_GAP, MAX_JOIN); }
    NeighboursMeet(g);
  }

  lemma PairsOfThree<T(!new)>(g: seq<T>, meet: (T, T) -> bool)
    requires |g| <= 3 && (|g| > 1 ==> meet(g[0], g[1])) && (|g| > 2 ==> meet(g[1], g[2]))
    ensures (forall i, j :: 0 <= i < j < |g| ==> meet(g[i], g[j])) <==> (|g| == 3 ==> meet(g[0], g[2]))
  {
  }

  lemma NeighboursMeet(g: seq<Candidate>)
    requires |g| <= 3 && (|g| > 1 ==> SameFloor(g[0], g[1])) && (|g| > 2 ==> SameFloor(g[1], g[2]))
    ensures (forall i, j :: 0 <= i < j < |g| ==> SameFloor(g[i], g[j])) <==>
            !(|g| == 3 && TargetOf(g[1]) == Untargeted && !SameFloor(g[0], g[2]))
  {
    PairsOfThree(g, (a: Candidate, b: Candidate) => SameFloor(a, b));
    if |g| == 3 { MiddleDecides(g[0], g[1], g[2]); }
  }

  lemma MiddleDecides(a: Candidate, b: Candidate, c: Candidate)
    requires SameFloor(a, b) && SameFloor(b, c)
    ensures SameFloor(a, c) || TargetOf(b) == Untargeted
  {
  }

  /** Such a burst exists: one aimed at the agent, one at nobody, one at somebody else. */
  lemma MixedTargetsWitness() returns (g: seq<Candidate>)
    ensures IsBurst(g, Joiner(MAX_GAP, MAX_JOIN))
    ensures |g| == 3 && Bursts(g, MAX_GAP, MAX_JOIN) == [g]
    ensures TargetOf(g[0]) == AtSelf && TargetOf(g[2]) == AtHandles(["@bob"])
  {
    var a := Candidate(1, true, "hi", Some(7), false, Mention, false, true, 10, false, 2, None, 1, None, []);
    var b := Candidate(2, false, "so", Some(7), false, NoAddress, false, false, 11, false, 2, None, 2, None, []);
    var c := Candidate(3, false, "yo", Some(7), false, NoAddress, true, false, 12, false, 2, None, 3, None, ["@bob"]);
    g := [a, b, c];
    BobIsOther(c);
    assert CanJoin([a], b, MAX_GAP, MAX_JOIN);
    assert CanJoin([a, b], c, MAX_GAP, MAX_JOIN);
    JoinedIsBurst(a, b, c);
    SortedAlready(a, b, c);
    LoneBurst(g);
  }

  lemma JoinedIsBurst(a: Candidate, b: Candidate, c: Candidate)
    requires CanJoin([a], b, MAX_GAP, MAX_JOIN) && CanJoin([a, b], c, MAX_GAP, MAX_JOIN)
    ensures IsBurst([a, b, c], Joiner(MAX_GAP, MAX_JOIN))
  {
    assert [a, b, c][..1] == [a] && [a, b, c][..2] == [a, b];
  }

  lemma LoneBurst(g: seq<Candidate>)
    requires IsBurst(g, Joiner(MAX_GAP, MAX_JOIN)) && Sort(g, ChatOrder()) == g
    ensures Bursts(g, MAX_GAP, MAX_JOIN) == [g]
  {
    BurstsPartition(g, MAX_GAP, MAX_JOIN);
    FlattenSingle(g);
    BurstPartitionUnique(Bursts(g, MAX_GAP, MAX_JOIN), [g], g, Joiner(MAX_GAP, MAX_JOIN));
  }

  lemma BobIsOther(c: Candidate)
    requires c.handles == ["@bob"]
    ensures Map(Lower, c.handles) == ["@bob"] && "@bob" !in SELF_HANDLES
  {
    assert Lower("@bob") == "@bob";
    assert "@bob"[1] == 'b';
  }

  lemma SortedAlready(a: Candidate, b: Candidate, c: Candidate)
    requires Earlier(a, b) && Earlier(b, c)
    ensures Sort([a, b, c], ChatOrder()) == [a, b, c]
  {
    assert Sort([c], ChatOrder()) == [c];
    assert [b, c][1..] == [c] && [a, b, c][1..] == [b, c];
    assert Sort([b, c], ChatOrder()) == [b, c];
  }
}
