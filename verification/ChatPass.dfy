/** One engagement pass over one chat: fetch, coalesce, schedule, decide, act, move cursors. */
module ChatPass {
  import opened Prelude
  import opened Sorting
  import opened Candidates
  import opened GreedyCut
  import opened Coalescing
  import opened Scheduling
  import opened Plans
  import opened Ceilings
  import opened TopicLanes
  import opened CarryOut

  /** Everything the outside world contributes to a pass; all of it may be hostile. */
  datatype World = World(
    rows: seq<Row>, maxSeq: nat, proactiveOk: bool, completed: set<(int, Action)>,
    decide: nat -> Answer, compose: Plan -> Option<string>, scene: Scene,
    overrides: Overrides, hasOwner: bool, hasHandle: set<int>, outcome: nat -> Outcome)

  /** The result of a pass with the trace its guarantees speak about. */
  datatype Pass = Pass(
    topics: map<Topic, Entry>, budget: Budget, calls: nat, pending: set<Topic>,
    groups: seq<seq<Candidate>>, work: seq<Batch>, good: seq<bool>)

  function OpenTopics(topics: map<Topic, Entry>, chatCursor: Option<nat>, cands: seq<Candidate>): map<Topic, Entry> {
    if cands == [] then topics
    else
      var widened := OpenTopics(topics, chatCursor, cands[..|cands| - 1]);
      var t := cands[|cands| - 1].topic;
      widened[t := EntryOf(widened, chatCursor, t)]
  }

  function Unread(cands: seq<Candidate>, topics: map<Topic, Entry>, chatCursor: Option<nat>): seq<Candidate> {
    Filter(cands, (c: Candidate) => After(c, EntryOf(topics, chatCursor, c.topic)))
  }

  function ById(cands: seq<Candidate>): map<int, Candidate> {
    if cands == [] then map[] else ById(cands[..|cands| - 1])[cands[|cands| - 1].mid := cands[|cands| - 1]]
  }

  /** Looking up an id finds the last message with it, if there is one. */
  lemma {:induction false} ByIdExactly(cands: seq<Candidate>, m: int)
    ensures m in ById(cands) <==> exists i :: 0 <= i < |cands| && cands[i].mid == m
    ensures m in ById(cands) ==>
      exists i :: 0 <= i < |cands| && cands[i].mid == m && ById(cands)[m] == cands[i]
                  && forall j :: i < j < |cands| ==> cands[j].mid != m
  {
    if cands != [] {
      var init, last := cands[..|cands| - 1], |cands| - 1;
      ByIdExactly(init, m);
      if cands[last].mid == m {
        assert ById(cands)[m] == cands[last];
      } else if m in ById(init) {
        var i :| 0 <= i < |init| && init[i].mid == m && ById(init)[m] == init[i]
          && forall j :: i < j < |init| ==> init[j].mid != m;
        assert cands[i] == init[i];
      }
    }
  }

  function FailTopics(topics: map<Topic, Entry>, failed: set<Topic>, now: int): (r: map<Topic, Entry>)
    ensures r.Keys == topics.Keys
  {
    map t | t in topics :: if t in failed then NoteFailure(topics[t], now).0 else topics[t]
  }

  function InvalidTopics(work: seq<Batch>, statuses: seq<Status>): set<Topic>
    requires |work| == |statuses|
  {
    set i | 0 <= i < |work| && statuses[i] == Invalid :: work[i].topic
  }

  /** What the action half of a pass leaves behind. */
  datatype Acts = Acts(
    budget: Budget, deferred: set<int>, failed: set<int>, completed: set<(int, Action)>, buried: set<(int, Action)>)

  function Act(ev: Eval, merged: seq<Candidate>, budget: Budget, w: World): Acts {
    var cands := ById(merged);
    var allowed := set c | c in merged && !c.fromMe :: c.mid;
    var adm := AdmitAll(ev.plans, ev.demanded, _ => false);
    var res := ResolveAll(Filter(adm.out, (p: Plan) => p.mid in allowed), Resolver(cands.Keys, w.completed, w.compose));
    var plans := InScene(res.out, w.scene, cands);
    var desk := Desk(CapsOf(w.overrides), ev.demanded, w.hasOwner, w.hasHandle, w.outcome);
    var done := ApplyAll(Applied(budget, w.completed, {}, {}, {}, 0), plans, |plans|, desk);
    Acts(done.budget,
         adm.deferred + ev.held + res.deferred + OutOfScene(res.out, w.scene, cands) + done.deferred + done.failed,
         done.failed, done.completed, done.buried)
  }

  function ContextOf(merged: seq<Candidate>, chatCursor: Option<nat>, now: int, w: World): Context {
    Context(now, chatCursor, w.proactiveOk, ById(merged), w.completed)
  }

  /** The second half of a pass, once the work list is known. */
  function Finish(groups: seq<seq<Candidate>>, merged: seq<Candidate>, work: seq<Batch>, ev: Eval, acts: Acts,
      now: int): Pass
    requires |ev.statuses| == |work|
    requires forall i :: 0 <= i < |work| ==> work[i].cands != [] && work[i].topic in ev.topics
  {
    var failedTopics := set c | c in merged && c.mid in acts.failed :: c.topic;
    var topics := FailTopics(ev.topics, failedTopics, now);
    var good := SettledFlags(work, ev.statuses, acts.deferred);
    var d := DrainAll(topics, work, good, |work|, InvalidTopics(work, ev.statuses) + failedTopics);
    Pass(d.topics, acts.budget, ev.calls, d.closed, groups, work, good)
  }

  function GroupsOf(topics: map<Topic, Entry>, chatCursor: Option<nat>, w: World): seq<seq<Candidate>> {
    Bursts(Unread(FromRows(w.rows), topics, chatCursor), MAX_GAP, MAX_JOIN)
  }

  lemma GroupsAreBursts(cands: seq<Candidate>)
    ensures forall i :: 0 <= i < |Bursts(cands, MAX_GAP, MAX_JOIN)| ==> Bursts(cands, MAX_GAP, MAX_JOIN)[i] != []
  {
    var groups := Bursts(cands, MAX_GAP, MAX_JOIN);
    BurstsPartition(cands, MAX_GAP, MAX_JOIN);
    forall i | 0 <= i < |groups|
      ensures groups[i] != []
    {
      assert IsBurst(groups[i], Joiner(MAX_GAP, MAX_JOIN));
    }
  }

  function MergedOf(topics: map<Topic, Entry>, chatCursor: Option<nat>, w: World): seq<Candidate> {
    GroupsAreBursts(Unread(FromRows(w.rows), topics, chatCursor));
    MergeAll(GroupsOf(topics, chatCursor, w))
  }

  lemma WorkHasCandidates(cands: seq<Candidate>)
    ensures forall i :: 0 <= i < |WorkBatches(LanesOf(cands))| ==> WorkBatches(LanesOf(cands))[i].cands != []
  {
    WorkIsRoundRobin(LanesOf(cands));
    var work := WorkBatches(LanesOf(cands));
    forall i | 0 <= i < |work|
      ensures work[i].cands != []
    {
      assert work[i] in work;
    }
  }

  // ----- Assumptions about the fetched rows ------------------------------------------------

  function SeqOf(): Candidate -> nat { (c: Candidate) => c.spoolSeq }

  /** Each row has its own sequence number and later numbers mean later messages. */
  ghost predicate InStep(cands: seq<Candidate>) {
    && DistinctBy(cands, SeqOf())
    && forall a, b :: a in cands && b in cands && a.spoolSeq < b.spoolSeq ==> Earlier(a, b)
  }

  ghost predicate RisingSeq(cands: seq<Candidate>) {
    forall p, q :: 0 <= p < q < |cands| ==> cands[p].spoolSeq < cands[q].spoolSeq
  }

  /** In chat order the unread candidates are in sequence order too. */
  lemma SortedInStep(cands: seq<Candidate>)
    requires InStep(cands)
    ensures RisingSeq(Sort(cands, ChatOrder()))
  {
    var s := Sort(cands, ChatOrder());
    ChatOrderTotal();
    SortIsSortedPermutation(cands, ChatOrder());
    SameMembers(s, cands);
    PermutationKeepsDistinct(s, cands, SeqOf());
    forall p, q | 0 <= p < q < |s|
      ensures s[p].spoolSeq < s[q].spoolSeq
    {
      assert s[p] in cands && s[q] in cands;
      assert SeqOf()(s[p]) != SeqOf()(s[q]);
      assert ChatOrder()(s[p], s[q]);
    }
  }

  lemma UnreadMember(cands: seq<Candidate>, topics: map<Topic, Entry>, chatCursor: Option<nat>, c: Candidate)
    ensures c in Unread(cands, topics, chatCursor) <==> c in cands && After(c, EntryOf(topics, chatCursor, c.topic))
  {
    FilterMember(cands, (x: Candidate) => After(x, EntryOf(topics, chatCursor, x.topic)), c);
  }

  lemma UnreadInStep(cands: seq<Candidate>, topics: map<Topic, Entry>, chatCursor: Option<nat>)
    requires InStep(cands)
    ensures InStep(Unread(cands, topics, chatCursor))
  {
    FilterKeepsDistinct(cands, (x: Candidate) => After(x, EntryOf(topics, chatCursor, x.topic)), SeqOf());
    forall a | a in Unread(cands, topics, chatCursor)
      ensures a in cands
    {
      UnreadMember(cands, topics, chatCursor, a);
    }
  }

  // ----- Bursts and batches in sequence order --------------------------------------------

  /** Every member of an earlier burst lies before every member of a later one. */
  ghost predicate GroupsRise(groups: seq<seq<Candidate>>) {
    forall i, j, x, y :: 0 <= i < j < |groups| && x in groups[i] && y in groups[j] ==> x.spoolSeq < y.spoolSeq
  }

  lemma BurstsRise(cands: seq<Candidate>)
    requires InStep(cands)
    ensures GroupsRise(Bursts(cands, MAX_GAP, MAX_JOIN))
  {
    var groups := Bursts(cands, MAX_GAP, MAX_JOIN);
    BurstsPartition(cands, MAX_GAP, MAX_JOIN);
    SortedInStep(cands);
    forall i, j, x: Candidate, y: Candidate | 0 <= i < j < |groups| && x in groups[i] && y in groups[j]
      ensures x.spoolSeq < y.spoolSeq
    {
      var p, q := FlattenOrder(groups, i, j, x, y);
    }
  }

  lemma MergedRise(groups: seq<seq<Candidate>>)
    requires GroupsRise(groups) && forall i :: 0 <= i < |groups| ==> groups[i] != []
    ensures RisingSeq(MergeAll(groups))
  {
    var merged := MergeAll(groups);
    forall i, j | 0 <= i < j < |merged|
      ensures merged[i].spoolSeq < merged[j].spoolSeq
    {
      MergeSeq(groups[i]);
      MergeSeq(groups[j]);
      var x :| x in groups[i] && x.spoolSeq == merged[i].spoolSeq;
      var y :| y in groups[j] && y.spoolSeq == merged[j].spoolSeq;
    }
  }

  lemma MergeSeq(g: seq<Candidate>)
    requires g != []
    ensures exists x :: x in g && x.spoolSeq == Merge(g).spoolSeq
    ensures forall x :: x in g ==> x.spoolSeq <= Merge(g).spoolSeq
  {
    MergeFields(g);
  }

  lemma RisingIsDistinct(cands: seq<Candidate>)
    requires RisingSeq(cands)
    ensures DistinctBy(cands, SeqOf())
  {
  }

  /** A lane of distinct sequence numbers is strictly rising. */
  lemma LaneRises(cands: seq<Candidate>, t: Topic)
    requires DistinctBy(cands, SeqOf())
    ensures RisingSeq(LaneOf(cands, t).cands)
  {
    var mine := Filter(cands, InTopic(t));
    var s := Sort(mine, SpoolOrder());
    FilterKeepsDistinct(cands, InTopic(t), SeqOf());
    SpoolOrderTotal();
    SortIsSortedPermutation(mine, SpoolOrder());
    PermutationKeepsDistinct(s, mine, SeqOf());
    forall p, q | 0 <= p < q < |s|
      ensures s[p].spoolSeq < s[q].spoolSeq
    {
      assert SeqOf()(s[p]) != SeqOf()(s[q]) && SpoolOrder()(s[p], s[q]);
    }
  }

  lemma SlicesRise(lane: seq<Candidate>, k: nat, m: nat, x: Candidate, y: Candidate)
    requires RisingSeq(lane) && k < m && x in SliceOf(lane, k) && y in SliceOf(lane, m)
    ensures x.spoolSeq < y.spoolSeq
  {
    var i :| 0 <= i < |SliceOf(lane, k)| && SliceOf(lane, k)[i] == x;
    var j :| 0 <= j < |SliceOf(lane, m)| && SliceOf(lane, m)[j] == y;
    assert lane[k * PER_CALL + i] == x && lane[m * PER_CALL + j] == y;
  }

  lemma WorkRises(cands: seq<Candidate>)
    requires DistinctBy(cands, SeqOf())
    ensures WorkOrdered(WorkBatches(LanesOf(cands)))
  {
    var lanes := LanesOf(cands);
    var work := WorkBatches(lanes);
    LanesAreOk(cands);
    WorkIsRoundRobin(lanes);
    forall i, j, x: Candidate, y: Candidate |
      0 <= i < j < |work| && work[i].topic == work[j].topic && x in work[i].cands && y in work[j].cands
      ensures x.spoolSeq < y.spoolSeq
    {
      assert work[i] in work && work[j] in work;
      SameTopicRises(lanes, i, j);
      var l :| l in lanes && work[i] == Batch(l.topic, SliceOf(l.cands, work[i].index), work[i].index);
      var l' :| l' in lanes && work[j] == Batch(l'.topic, SliceOf(l'.cands, work[j].index), work[j].index);
      assert l == l';
      LaneRises(cands, l.topic);
      SlicesRise(l.cands, work[i].index, work[j].index, x, y);
    }
  }

  lemma SameTopicRises(lanes: seq<Lane>, i: nat, j: nat)
    requires forall a, b :: 0 <= a < b < |lanes| ==> lanes[a].topic != lanes[b].topic
    requires i < j < |WorkBatches(lanes)| && WorkBatches(lanes)[i].topic == WorkBatches(lanes)[j].topic
    ensures WorkBatches(lanes)[i].index < WorkBatches(lanes)[j].index
  {
    RoundsStrict(lanes, 0, MostBatches(lanes), i, j);
  }

  lemma {:induction false} RoundTopicsDistinct(lanes: seq<Lane>, k: nat, i: nat, j: nat)
    requires forall a, b :: 0 <= a < b < |lanes| ==> lanes[a].topic != lanes[b].topic
    requires i < j < |Round(lanes, k)|
    ensures Round(lanes, k)[i].topic != Round(lanes, k)[j].topic
  {
    var s := SliceOf(lanes[0].cands, k);
    var head := if s == [] then [] else [Batch(lanes[0].topic, s, k)];
    var tail := Round(lanes[1..], k);
    assert forall a :: 0 <= a < |lanes[1..]| ==> lanes[1..][a] == lanes[a + 1];
    if i < |head| {
      RoundTopicOf(lanes[1..], k, j - |head|);
    } else {
      RoundTopicsDistinct(lanes[1..], k, i - |head|, j - |head|);
    }
  }

  /** Each batch of a round belongs to one of its lanes. */
  lemma RoundTopicOf(lanes: seq<Lane>, k: nat, j: nat)
    requires j < |Round(lanes, k)|
    ensures exists a :: 0 <= a < |lanes| && lanes[a].topic == Round(lanes, k)[j].topic
  {
    var b := Round(lanes, k)[j];
    assert b in Round(lanes, k);
    RoundShape(lanes, k, b);
    var l :| l in lanes && b == Batch(l.topic, SliceOf(l.cands, k), k);
    var a :| 0 <= a < |lanes| && lanes[a] == l;
  }

  lemma {:induction false} RoundsStrict(lanes: seq<Lane>, k: nat, n: nat, i: nat, j: nat)
    requires forall a, b :: 0 <= a < b < |lanes| ==> lanes[a].topic != lanes[b].topic
    requires i < j < |Rounds(lanes, k, n)| && Rounds(lanes, k, n)[i].topic == Rounds(lanes, k, n)[j].topic
    ensures Rounds(lanes, k, n)[i].index < Rounds(lanes, k, n)[j].index
    decreases n - k
  {
    var head, tail := Round(lanes, k), Rounds(lanes, k + 1, n);
    if j < |head| {
      RoundTopicsDistinct(lanes, k, i, j);
    } else if i < |head| {
      assert head[i] in head && tail[j - |head|] in tail;
      RoundShape(lanes, k, head[i]);
      RoundsShape(lanes, k + 1, n);
    } else {
      RoundsStrict(lanes, k + 1, n, i - |head|, j - |head|);
    }
  }

  lemma {:induction false} CandsOfMember(bs: seq<Batch>, c: Candidate)
    ensures c in CandsOf(bs) <==> exists k :: 0 <= k < |bs| && c in bs[k].cands
  {
    if bs != [] {
      CandsOfMember(bs[1..], c);
      if c in CandsOf(bs[1..]) {
        var k :| 0 <= k < |bs[1..]| && c in bs[1..][k].cands;
        assert c in bs[k + 1].cands;
      }
      if k :| 0 <= k < |bs| && c in bs[k].cands {
        if k > 0 { assert c in bs[1..][k - 1].cands; }
      }
    }
  }

  /** Each candidate is in some batch of its own topic, and batches hold nothing else. */
  lemma WorkCovers(cands: seq<Candidate>, c: Candidate)
    ensures c in cands <==> exists k ::
      0 <= k < |WorkBatches(LanesOf(cands))| && c in WorkBatches(LanesOf(cands))[k].cands
    ensures forall k :: 0 <= k < |WorkBatches(LanesOf(cands))| && c in WorkBatches(LanesOf(cands))[k].cands ==>
      WorkBatches(LanesOf(cands))[k].topic == c.topic
  {
    var work := WorkBatches(LanesOf(cands));
    if c in cands {
      var mine := Filter(work, OfTopic(c.topic));
      WorkPartitionsCandidates(cands, c.topic);
      CandsOfMember(mine, c);
      var k :| 0 <= k < |mine| && c in mine[k].cands;
      FilterMember(work, OfTopic(c.topic), mine[k]);
      var m :| 0 <= m < |work| && work[m] == mine[k];
    }
    forall k | 0 <= k < |work| && c in work[k].cands
      ensures c in cands && work[k].topic == c.topic
    {
      var mine := Filter(work, OfTopic(work[k].topic));
      FilterMember(work, OfTopic(work[k].topic), work[k]);
      WorkPartitionsCandidates(cands, work[k].topic);
      var m :| 0 <= m < |mine| && mine[m] == work[k];
      CandsOfMember(mine, c);
    }
  }

  lemma {:induction false} OpenTopicsKeeps(topics: map<Topic, Entry>, chatCursor: Option<nat>, cands: seq<Candidate>)
    ensures var widened := OpenTopics(topics, chatCursor, cands);
      && CursorsKept(topics, widened, chatCursor)
      && (forall t :: t in topics ==> widened[t] == topics[t])
      && (forall t :: t in widened ==> widened[t] == EntryOf(topics, chatCursor, t))
      && (forall c :: c in cands ==> c.topic in widened)
      && (forall t :: t in widened && t !in topics ==> exists c :: c in cands && c.topic == t)
  {
    if cands != [] {
      var rest := cands[..|cands| - 1];
      OpenTopicsKeeps(topics, chatCursor, rest);
      assert cands == rest + [cands[|cands| - 1]];
      assert forall c :: c in rest ==> c in cands;
      assert cands[|cands| - 1] in cands;
    }
  }

  // ----- What a pass lets pass -----------------------------------------------------------------

  /** The row's message was judged: its burst is in a batch that was answered in full or given up. */
  ghost predicate JudgedIn(p: Pass, c: Candidate)
    requires |p.good| == |p.work|
  {
    exists i, k :: 0 <= i < |p.groups| && p.groups[i] != [] && c in p.groups[i]
                   && 0 <= k < |p.work| && Merge(p.groups[i]) in p.work[k].cands && p.good[k]
  }

  lemma InGroup(cands: seq<Candidate>, c: Candidate) returns (i: nat)
    requires c in cands
    ensures i < |Bursts(cands, MAX_GAP, MAX_JOIN)| && c in Bursts(cands, MAX_GAP, MAX_JOIN)[i]
  {
    var groups := Bursts(cands, MAX_GAP, MAX_JOIN);
    BurstsPartition(cands, MAX_GAP, MAX_JOIN);
    SameMembers(Flatten(groups), cands);
    FlattenContains(groups, c);
    i :| 0 <= i < |groups| && c in groups[i];
  }

  lemma GroupMemberIsCandidate(cands: seq<Candidate>, i: nat, c: Candidate)
    requires i < |Bursts(cands, MAX_GAP, MAX_JOIN)| && c in Bursts(cands, MAX_GAP, MAX_JOIN)[i]
    ensures c in cands && c.topic == Merge(Bursts(cands, MAX_GAP, MAX_JOIN)[i]).topic
  {
    var groups := Bursts(cands, MAX_GAP, MAX_JOIN);
    BurstsPartition(cands, MAX_GAP, MAX_JOIN);
    FlattenContains(groups, c);
    SameMembers(Flatten(groups), cands);
    assert groups[i] in groups;
    MergeKeepsLane(groups[i], MAX_GAP, MAX_JOIN);
  }

  /** `c` lies before burst `i` or inside it, so a cursor on a later merged candidate is past the burst. */
  lemma CursorPastBurst(groups: seq<seq<Candidate>>, i: nat, j: nat, c: Candidate)
    requires GroupsRise(groups) && i < |groups| && j < |groups| && groups[i] != [] && groups[j] != []
    requires c in groups[i] && c.spoolSeq <= Merge(groups[j]).spoolSeq
    ensures Merge(groups[i]).spoolSeq <= Merge(groups[j]).spoolSeq
  {
    MergeSeq(groups[i]);
    MergeSeq(groups[j]);
    var x :| x in groups[i] && x.spoolSeq == Merge(groups[i]).spoolSeq;
    var y :| y in groups[j] && y.spoolSeq == Merge(groups[j]).spoolSeq;
    assert j < i ==> y.spoolSeq < c.spoolSeq;
  }

  function FailedTopics(merged: seq<Candidate>, failed: set<int>): set<Topic> {
    set c | c in merged && c.mid in failed :: c.topic
  }

  /** The lanes as the cursor loop finds them. */
  function Noted(ev: Eval, merged: seq<Candidate>, acts: Acts, now: int): map<Topic, Entry> {
    FailTopics(ev.topics, FailedTopics(merged, acts.failed), now)
  }

  /** What the cursor loop did, given the lanes it started from. */
  ghost predicate Drained(p: Pass, noted: map<Topic, Entry>) {
    && |p.good| == |p.work| && WorkOrdered(p.work)
    && DrainInv(noted, Drain(p.topics, p.pending), p.work, p.good, |p.work|)
    && (forall t :: t in noted ==> StandsOnBatch(noted[t], p.topics[t], t, p.work) && NotBehind(noted[t], p.topics[t]))
  }

  lemma FinishFacts(groups: seq<seq<Candidate>>, merged: seq<Candidate>, work: seq<Batch>, ev: Eval, acts: Acts,
      now: int)
    requires |ev.statuses| == |work| && WorkOrdered(work)
    requires forall i :: 0 <= i < |work| ==> work[i].cands != [] && work[i].topic in ev.topics
    ensures Drained(Finish(groups, merged, work, ev, acts, now), Noted(ev, merged, acts, now))
  {
    var noted := Noted(ev, merged, acts, now);
    var good := SettledFlags(work, ev.statuses, acts.deferred);
    var failing := InvalidTopics(work, ev.statuses) + FailedTopics(merged, acts.failed);
    DrainPassesOnlySettled(noted, work, good, |work|, failing);
    forall t | t in noted
      ensures StandsOnBatch(noted[t], DrainAll(noted, work, good, |work|, failing).topics[t], t, work)
      ensures NotBehind(noted[t], DrainAll(noted, work, good, |work|, failing).topics[t])
    {
      DrainCursorSource(noted, work, good, |work|, failing, t);
      DrainMovesForward(noted, work, good, |work|, failing, t);
    }
  }

  /** Bursts, merged candidates and batches of a pass all run in sequence order. */
  lemma PassInOrder(topics: map<Topic, Entry>, chatCursor: Option<nat>, w: World)
    requires InStep(FromRows(w.rows))
    ensures GroupsRise(GroupsOf(topics, chatCursor, w))
    ensures forall i :: 0 <= i < |GroupsOf(topics, chatCursor, w)| ==> GroupsOf(topics, chatCursor, w)[i] != []
    ensures WorkOrdered(WorkBatches(LanesOf(MergedOf(topics, chatCursor, w))))
  {
    var unread := Unread(FromRows(w.rows), topics, chatCursor);
    UnreadInStep(FromRows(w.rows), topics, chatCursor);
    BurstsRise(unread);
    GroupsAreBursts(unread);
    MergedRise(GroupsOf(topics, chatCursor, w));
    RisingIsDistinct(MergedOf(topics, chatCursor, w));
    WorkRises(MergedOf(topics, chatCursor, w));
  }

  /** What the evaluation half of a pass guarantees to the half that moves the cursors. */
  ghost predicate Fits(ev: Eval, topics: map<Topic, Entry>, chatCursor: Option<nat>, w: World) {
    var work := WorkBatches(LanesOf(MergedOf(topics, chatCursor, w)));
    && |ev.statuses| == |work|
    && (forall b :: b in work ==> b.topic in ev.topics)
    && CursorsKept(OpenTopics(topics, chatCursor, FromRows(w.rows)), ev.topics, chatCursor)
  }

  lemma NotedCursors(topics: map<Topic, Entry>, chatCursor: Option<nat>, w: World, ev: Eval, merged: seq<Candidate>,
      acts: Acts, now: int)
    requires Fits(ev, topics, chatCursor, w)
    ensures CursorsKept(topics, Noted(ev, merged, acts, now), chatCursor)
    ensures forall c :: c in FromRows(w.rows) ==> c.topic in Noted(ev, merged, acts, now)
  {
    OpenTopicsKeeps(topics, chatCursor, FromRows(w.rows));
    KeptTwice(topics, OpenTopics(topics, chatCursor, FromRows(w.rows)), ev.topics, chatCursor);
    FailKeepsCursors(topics, ev.topics, FailedTopics(merged, acts.failed), now, chatCursor);
  }

  lemma FailKeepsCursors(before: map<Topic, Entry>, topics: map<Topic, Entry>, failed: set<Topic>, now: int,
      chatCursor: Option<nat>)
    requires CursorsKept(before, topics, chatCursor)
    ensures CursorsKept(before, FailTopics(topics, failed, now), chatCursor)
  {
  }

  lemma WorkFits(ev: Eval, topics: map<Topic, Entry>, chatCursor: Option<nat>, w: World, work: seq<Batch>)
    requires Fits(ev, topics, chatCursor, w) && work == WorkBatches(LanesOf(MergedOf(topics, chatCursor, w)))
    ensures forall i :: 0 <= i < |work| ==> work[i].cands != [] && work[i].topic in ev.topics
  {
    WorkHasCandidates(MergedOf(topics, chatCursor, w));
    forall i | 0 <= i < |work| ensures work[i].topic in ev.topics { assert work[i] in work; }
  }

  /** A pass whose evaluation and actions came out as `ev` and `acts`. */
  function PassWith(topics: map<Topic, Entry>, chatCursor: Option<nat>, w: World, ev: Eval, acts: Acts,
      now: int): (p: Pass)
    requires Fits(ev, topics, chatCursor, w)
    ensures p.groups == GroupsOf(topics, chatCursor, w)
    ensures p.work == WorkBatches(LanesOf(MergedOf(topics, chatCursor, w)))
    ensures |p.good| == |p.work|
  {
    var merged := MergedOf(topics, chatCursor, w);
    var work := WorkBatches(LanesOf(merged));
    WorkHasCandidates(merged);
    assert forall i :: 0 <= i < |work| ==> work[i] in work;
    Finish(GroupsOf(topics, chatCursor, w), merged, work, ev, acts, now)
  }

  lemma PassDrained(topics: map<Topic, Entry>, chatCursor: Option<nat>, w: World, ev: Eval, acts: Acts, now: int)
    requires InStep(FromRows(w.rows)) && Fits(ev, topics, chatCursor, w)
    ensures Drained(PassWith(topics, chatCursor, w, ev, acts, now),
        Noted(ev, MergedOf(topics, chatCursor, w), acts, now))
  {
    var merged := MergedOf(topics, chatCursor, w);
    var work := WorkBatches(LanesOf(merged));
    PassInOrder(topics, chatCursor, w);
    WorkHasCandidates(merged);
    assert forall i :: 0 <= i < |work| ==> work[i] in work;
    FinishFacts(GroupsOf(topics, chatCursor, w), merged, work, ev, acts, now);
  }

  /** Where an unread candidate sits in a pass: burst `i`, whose merged candidate is in batch `k`. */
  lemma Located(topics: map<Topic, Entry>, chatCursor: Option<nat>, w: World, c: Candidate) returns (i: nat, k: nat)
    requires c in FromRows(w.rows) && After(c, EntryOf(topics, chatCursor, c.topic))
    ensures var groups, work := GroupsOf(topics, chatCursor, w), WorkBatches(LanesOf(MergedOf(topics, chatCursor, w)));
      && i < |groups| && c in groups[i] && k < |work| && work[k].topic == c.topic
      && Merge(groups[i]) in work[k].cands
      && c.spoolSeq <= Merge(groups[i]).spoolSeq
  {
    var unread := Unread(FromRows(w.rows), topics, chatCursor);
    UnreadMember(FromRows(w.rows), topics, chatCursor, c);
    i := InGroup(unread, c);
    GroupsAreBursts(unread);
    var merged := MergedOf(topics, chatCursor, w);
    var m := Merge(GroupsOf(topics, chatCursor, w)[i]);
    assert merged[i] == m;
    GroupMemberIsCandidate(unread, i, c);
    MergeSeq(GroupsOf(topics, chatCursor, w)[i]);
    WorkCovers(merged, m);
    k :| 0 <= k < |WorkBatches(LanesOf(merged))| && m in WorkBatches(LanesOf(merged))[k].cands;
  }

  /** A cursor that moved stands on the merged candidate of some burst of its topic. */
  lemma CursorOnBurst(topics: map<Topic, Entry>, chatCursor: Option<nat>, w: World, e: Entry, e': Entry, t: Topic)
      returns (j: nat)
    requires StandsOnBatch(e, e', t, WorkBatches(LanesOf(MergedOf(topics, chatCursor, w)))) && e'.cursor != e.cursor
    ensures j < |GroupsOf(topics, chatCursor, w)| && GroupsOf(topics, chatCursor, w)[j] != []
    ensures e'.cursor == Some(Merge(GroupsOf(topics, chatCursor, w)[j]).spoolSeq)
  {
    var merged := MergedOf(topics, chatCursor, w);
    var work := WorkBatches(LanesOf(merged));
    GroupsAreBursts(Unread(FromRows(w.rows), topics, chatCursor));
    var n, y :| 0 <= n < |work| && work[n].topic == t && y in work[n].cands && e'.cursor == Some(y.spoolSeq);
    WorkCovers(merged, y);
    j :| 0 <= j < |merged| && merged[j] == y;
  }

  /**
   * The heart of "no message is consumed without being settled", for one pass: if a topic
   * cursor ends at or past a fetched message, it was there before or the message was judged;
   * and if the pass leaves nothing pending, that holds for every fetched message.
   */
  lemma PassConsumesOnlyJudged(
    topics: map<Topic, Entry>, chatCursor: Option<nat>, w: World, ev: Eval, acts: Acts, now: int, c: Candidate)
    requires InStep(FromRows(w.rows)) && c in FromRows(w.rows) && Fits(ev, topics, chatCursor, w)
    ensures var p := PassWith(topics, chatCursor, w, ev, acts, now);
      && c.topic in p.topics
      && (!After(c, p.topics[c.topic]) || p.pending == {} ==>
            !After(c, EntryOf(topics, chatCursor, c.topic)) || JudgedIn(p, c))
  {
    var p := PassWith(topics, chatCursor, w, ev, acts, now);
    var noted := Noted(ev, MergedOf(topics, chatCursor, w), acts, now);
    PassDrained(topics, chatCursor, w, ev, acts, now);
    NotedCursors(topics, chatCursor, w, ev, MergedOf(topics, chatCursor, w), acts, now);
    var was := EntryOf(topics, chatCursor, c.topic);
    if After(c, was) && (!After(c, p.topics[c.topic]) || p.pending == {}) {
      var i, k := Located(topics, chatCursor, w, c);
      PassInOrder(topics, chatCursor, w);
      if !After(c, p.topics[c.topic]) {
        var j := CursorOnBurst(topics, chatCursor, w, noted[c.topic], p.topics[c.topic], c.topic);
        CursorPastBurst(p.groups, i, j, c);
        PassedBatchIsGood(noted, p, k, Merge(p.groups[i]));
      }
      assert p.good[k];
    }
  }

  lemma PassedBatchIsGood(noted: map<Topic, Entry>, p: Pass, k: nat, m: Candidate)
    requires Drained(p, noted) && k < |p.work| && m in p.work[k].cands && p.work[k].topic in noted
    requires After(m, noted[p.work[k].topic]) && !After(m, p.topics[p.work[k].topic])
    ensures p.good[k]
  {
  }

  lemma KeptTwice(a: map<Topic, Entry>, b: map<Topic, Entry>, c: map<Topic, Entry>, chatCursor: Option<nat>)
    requires CursorsKept(a, b, chatCursor) && CursorsKept(b, c, chatCursor)
    ensures CursorsKept(a, c, chatCursor)
  {
  }

  function Evaluation(topics: map<Topic, Entry>, chatCursor: Option<nat>, calls: nat, now: int, w: World): (ev: Eval)
    ensures Fits(ev, topics, chatCursor, w)
  {
    var merged := MergedOf(topics, chatCursor, w);
    var work := WorkBatches(LanesOf(merged));
    var judge := Judging(work, w.decide, ContextOf(merged, chatCursor, now, w));
    WorkHasCandidates(merged);
    JudgingFits(work, w.decide, ContextOf(merged, chatCursor, now, w));
    var widened := OpenTopics(topics, chatCursor, FromRows(w.rows));
    EvalKeepsCursors(Start(widened, calls), work, |work|, judge, chatCursor);
    EvalAll(Start(widened, calls), work, |work|, judge)
  }

  /** What the evaluation of a pass keeps to, and how many calls it pays for. */
  lemma EvaluationKeeps(topics: map<Topic, Entry>, chatCursor: Option<nat>, calls: nat, now: int, w: World)
    ensures var ev := Evaluation(topics, chatCursor, calls, now, w);
      && EvalInv(ev, WorkBatches(LanesOf(MergedOf(topics, chatCursor, w))), |ev.statuses|)
      && CountEvaluated(ev.statuses) == ev.calls <= CALLS_PER_CHAT && ev.calls + ev.budget == calls
  {
    var merged := MergedOf(topics, chatCursor, w);
    var work := WorkBatches(LanesOf(merged));
    var judge := Judging(work, w.decide, ContextOf(merged, chatCursor, now, w));
    WorkHasCandidates(merged);
    JudgingFits(work, w.decide, ContextOf(merged, chatCursor, now, w));
    var widened := OpenTopics(topics, chatCursor, FromRows(w.rows));
    EvalAllInv(widened, calls, work, |work|, judge, chatCursor);
    CallsBounded(widened, calls, work, |work|, judge, chatCursor);
  }

  /** One whole pass of a chat. */
  function RunPass(topics: map<Topic, Entry>, chatCursor: Option<nat>, budget: Budget, calls: nat, now: int,
      w: World): Pass {
    var ev := Evaluation(topics, chatCursor, calls, now, w);
    PassWith(topics, chatCursor, w, ev, Act(ev, MergedOf(topics, chatCursor, w), budget, w), now)
  }
}
