/** Forum-topic lanes and the round-robin list of batches one chat pass works through. */
module Scheduling {
  import opened Prelude
  import opened Sorting
  import opened Candidates

  const PER_CALL := 8

  datatype Lane = Lane(topic: Topic, cands: seq<Candidate>)

  datatype Batch = Batch(topic: Topic, cands: seq<Candidate>, index: nat)

  // ----- Lanes ---------------------------------------------------------------------------

  function InTopic(t: Topic): Candidate -> bool { (c: Candidate) => c.topic == t }

  function LaneOf(cands: seq<Candidate>, t: Topic): Lane {
    Lane(t, Sort(Filter(cands, InTopic(t)), SpoolOrder()))
  }

  /** Lanes with a mention or a reply to the agent first, then the oldest head first. */
  function LaneOrder(): (Lane, Lane) -> bool {
    (a: Lane, b: Lane) => HeadOrder(Urgent(a), a.cands, Urgent(b), b.cands)
  }

  predicate HeadOrder(urgentA: bool, a: seq<Candidate>, urgentB: bool, b: seq<Candidate>) {
    if urgentA != urgentB then urgentA
    else a == [] || (b != [] && SpoolOrder()(a[0], b[0]))
  }

  predicate Urgent(l: Lane) {
    exists c :: c in l.cands && (c.kind == Mention || c.kind == ReplyToAgent)
  }

  function TopicsOf(cands: seq<Candidate>): seq<Topic> {
    Dedupe(Map((c: Candidate) => c.topic, cands))
  }

  function LanesOf(cands: seq<Candidate>): seq<Lane> {
    Sort(MadeLanes(cands), LaneOrder())
  }

  /** One lane per topic that occurs, each holding exactly its topic's candidates in spool order. */
  ghost predicate LanesOk(lanes: seq<Lane>, cands: seq<Candidate>) {
    && (forall i, j :: 0 <= i < j < |lanes| ==> lanes[i].topic != lanes[j].topic)
    && (forall l :: l in lanes ==> l == LaneOf(cands, l.topic) && l.cands != [])
    && (forall c :: c in cands ==> exists l :: l in lanes && l.topic == c.topic)
  }

  lemma SpoolOrderTotal()
    ensures TotalOrder(SpoolOrder())
  {
  }

  lemma HeadOrderTotal(ua: bool, a: seq<Candidate>, ub: bool, b: seq<Candidate>, uc: bool, c: seq<Candidate>)
    ensures HeadOrder(ua, a, ub, b) || HeadOrder(ub, b, ua, a)
    ensures HeadOrder(ua, a, ub, b) && HeadOrder(ub, b, uc, c) ==> HeadOrder(ua, a, uc, c)
  {
  }

  lemma LaneOrderTotal()
    ensures TotalOrder(LaneOrder())
  {
    var le := LaneOrder();
    forall a: Lane, b: Lane, c: Lane
      ensures (le(a, b) || le(b, a)) && (le(a, b) && le(b, c) ==> le(a, c))
    {
      HeadOrderTotal(Urgent(a), a.cands, Urgent(b), b.cands, Urgent(c), c.cands);
    }
  }

  lemma {:induction false} DedupeOk<T>(s: seq<T>)
    ensures Distinct(Dedupe(s))
    ensures forall x :: x in Dedupe(s) <==> x in s
  {
    if s != [] {
      DedupeOk(s[..|s| - 1]);
      assert s == s[..|s| - 1] + [s[|s| - 1]];
    }
  }

  lemma LaneMembers(cands: seq<Candidate>, t: Topic)
    ensures forall c :: c in LaneOf(cands, t).cands <==> c in cands && c.topic == t
    ensures Sorted(LaneOf(cands, t).cands, SpoolOrder())
  {
    var mine := Filter(cands, InTopic(t));
    SpoolOrderTotal();
    SortIsSortedPermutation(mine, SpoolOrder());
    SameMembers(Sort(mine, SpoolOrder()), mine);
    forall c
      ensures c in mine <==> c in cands && c.topic == t
    {
      FilterMember(cands, InTopic(t), c);
    }
  }

  lemma TopicOccurs(cands: seq<Candidate>, t: Topic)
    ensures t in TopicsOf(cands) <==> exists c :: c in cands && c.topic == t
  {
    var ts := Map((c: Candidate) => c.topic, cands);
    DedupeOk(ts);
    if t in ts {
      var i :| 0 <= i < |ts| && ts[i] == t;
      assert cands[i].topic == t;
    }
    if c :| c in cands && c.topic == t {
      var i :| 0 <= i < |cands| && cands[i] == c;
      assert ts[i] == t;
    }
  }

  lemma OneLaneEach(lanes: seq<Lane>, made: seq<Lane>)
    requires multiset(lanes) == multiset(made)
    requires forall i, j :: 0 <= i < j < |made| ==> made[i].topic != made[j].topic
    ensures forall i, j :: 0 <= i < j < |lanes| ==> lanes[i].topic != lanes[j].topic
  {
    var topic := (l: Lane) => l.topic;
    PermutationKeepsDistinct(lanes, made, topic);
    assert forall i, j :: 0 <= i < j < |lanes| ==> topic(lanes[i]) != topic(lanes[j]);
  }

  /** The lanes in the order in which their topics first occur. */
  function MadeLanes(cands: seq<Candidate>): seq<Lane> { Map((t: Topic) => LaneOf(cands, t), TopicsOf(cands)) }

  lemma LanesAreSorted(cands: seq<Candidate>)
    ensures Sorted(LanesOf(cands), LaneOrder()) && multiset(LanesOf(cands)) == multiset(MadeLanes(cands))
    ensures forall l :: l in LanesOf(cands) <==> l in MadeLanes(cands)
  {
    LaneOrderTotal();
    SortIsSortedPermutation(MadeLanes(cands), LaneOrder());
    SameMembers(LanesOf(cands), MadeLanes(cands));
  }

  lemma MadeLanesAreOk(cands: seq<Candidate>)
    ensures LanesOk(MadeLanes(cands), cands)
  {
    var ts, made := TopicsOf(cands), MadeLanes(cands);
    DedupeOk(Map((c: Candidate) => c.topic, cands));
    forall i | 0 <= i < |made| ensures made[i].topic == ts[i] && made[i].cands != [] { LaneHoldsTopic(cands, ts[i]); }
    forall c | c in cands
      ensures exists l :: l in made && l.topic == c.topic
    {
      var i := LaneForCandidate(cands, c);
      assert made[i] in made;
    }
  }

  lemma LanesAreOk(cands: seq<Candidate>)
    ensures LanesOk(LanesOf(cands), cands) && Sorted(LanesOf(cands), LaneOrder())
  {
    LanesAreSorted(cands);
    MadeLanesAreOk(cands);
    OneLaneEach(LanesOf(cands), MadeLanes(cands));
  }

  /** Somebody mentions the agent in the lane, or replies to it. */
  predicate Calls(cands: seq<Candidate>) { exists i :: 0 <= i < |cands| && cands[i].kind in {Mention, ReplyToAgent} }

  /** The oldest message of a lane stands first in it. */
  predicate OldestFirst(cands: seq<Candidate>) {
    cands != [] && forall i :: 0 <= i < |cands| ==> cands[0].spoolSeq <= cands[i].spoolSeq
  }

  /**
   * A lane that calls the agent comes before one that does not; between two of a kind the one whose
   * oldest message has the smaller number comes first.
   */
  lemma LanesInOrder(cands: seq<Candidate>, i: nat, j: nat)
    requires i < j < |LanesOf(cands)|
    ensures var a, b := LanesOf(cands)[i].cands, LanesOf(cands)[j].cands;
      && OldestFirst(a) && OldestFirst(b)
      && (Calls(b) ==> Calls(a))
      && (Calls(a) == Calls(b) ==> a[0].spoolSeq <= b[0].spoolSeq)
  {
    var lanes := LanesOf(cands);
    LanesAreOk(cands);
    assert lanes[i] in lanes && lanes[j] in lanes;
    LaneIsOldestFirst(cands, lanes[i].topic);
    LaneIsOldestFirst(cands, lanes[j].topic);
    UrgentCalls(lanes[i]);
    UrgentCalls(lanes[j]);
    assert LaneOrder()(lanes[i], lanes[j]);
  }

  lemma UrgentCalls(l: Lane)
    ensures Urgent(l) <==> Calls(l.cands)
  {
    if Calls(l.cands) {
      var i :| 0 <= i < |l.cands| && l.cands[i].kind in {Mention, ReplyToAgent};
      assert l.cands[i] in l.cands;
    }
  }

  lemma LaneIsOldestFirst(cands: seq<Candidate>, t: Topic)
    ensures LaneOf(cands, t).cands == [] || OldestFirst(LaneOf(cands, t).cands)
  {
    LaneMembers(cands, t);
    var mine := LaneOf(cands, t).cands;
    forall i | 0 <= i < |mine| ensures mine[0].spoolSeq <= mine[i].spoolSeq {
      if i > 0 { assert SpoolOrder()(mine[0], mine[i]); }
    }
  }

  /** Inside a lane messages go by their numbers; where two were given the same, by their time and id. */
  lemma LaneGoesByNumber(cands: seq<Candidate>, t: Topic, i: nat, j: nat)
    requires i < j < |LaneOf(cands, t).cands|
    ensures var a, b := LaneOf(cands, t).cands[i], LaneOf(cands, t).cands[j];
      || a.spoolSeq < b.spoolSeq
      || (a.spoolSeq == b.spoolSeq && (a.ts < b.ts || (a.ts == b.ts && a.mid <= b.mid)))
  {
    LaneMembers(cands, t);
    assert SpoolOrder()(LaneOf(cands, t).cands[i], LaneOf(cands, t).cands[j]);
  }

  lemma LaneHoldsTopic(cands: seq<Candidate>, t: Topic)
    requires t in TopicsOf(cands)
    ensures LaneOf(cands, t).topic == t && LaneOf(cands, t).cands != []
  {
    TopicOccurs(cands, t);
    LaneMembers(cands, t);
  }

  lemma LaneForCandidate(cands: seq<Candidate>, c: Candidate) returns (i: nat)
    requires c in cands
    ensures i < |TopicsOf(cands)| && TopicsOf(cands)[i] == c.topic
  {
    TopicOccurs(cands, c.topic);
    i :| 0 <= i < |TopicsOf(cands)| && TopicsOf(cands)[i] == c.topic;
  }

  // ----- Batches ---------------------------------------------------------------------------

  function BatchCount(n: nat): nat { (n + PER_CALL - 1) / PER_CALL }

  /** The k-th slice of a lane; empty past its end. */
  function SliceOf(cands: seq<Candidate>, k: nat): (s: seq<Candidate>)
    ensures |s| <= PER_CALL
    ensures s != [] <==> k < BatchCount(|cands|)
  {
    cands[Min(k * PER_CALL, |cands|)..Min(k * PER_CALL + PER_CALL, |cands|)]
  }

  function Round(lanes: seq<Lane>, k: nat): seq<Batch> {
    if lanes == [] then []
    else
      var s := SliceOf(lanes[0].cands, k);
      (if s == [] then [] else [Batch(lanes[0].topic, s, k)]) + Round(lanes[1..], k)
  }

  function Rounds(lanes: seq<Lane>, k: nat, n: nat): seq<Batch>
    decreases n - k
  {
    if k >= n then [] else Round(lanes, k) + Rounds(lanes, k + 1, n)
  }

  function MostBatches(lanes: seq<Lane>): (n: nat)
    ensures forall l :: l in lanes ==> BatchCount(|l.cands|) <= n
  {
    if lanes == [] then 0 else Max(BatchCount(|lanes[0].cands|), MostBatches(lanes[1..]))
  }

  function WorkBatches(lanes: seq<Lane>): seq<Batch> { Rounds(lanes, 0, MostBatches(lanes)) }

  /** Chunk after chunk over all lanes, so that a busy topic cannot starve the others. */
  method BuildWork(lanes: seq<Lane>) returns (work: seq<Batch>)
    ensures work == WorkBatches(lanes)
  {
    var n: nat := 0;
    for j := |lanes| downto 0
      invariant n == MostBatches(lanes[j..])
    {
      assert lanes[j..][1..] == lanes[j + 1..];
      n := Max(BatchCount(|lanes[j].cands|), n);
    }
    assert lanes[0..] == lanes;
    work := [];
    for k := 0 to n
      invariant work + Rounds(lanes, k, n) == WorkBatches(lanes)
    {
      var round := BuildRound(lanes, k);
      assert work + (round + Rounds(lanes, k + 1, n)) == work + round + Rounds(lanes, k + 1, n);
      work := work + round;
    }
  }

  method BuildRound(lanes: seq<Lane>, k: nat) returns (round: seq<Batch>)
    ensures round == Round(lanes, k)
  {
    round := [];
    for j := 0 to |lanes|
      invariant round + Round(lanes[j..], k) == Round(lanes, k)
    {
      assert lanes[j..][1..] == lanes[j + 1..];
      var batch := SliceOf(lanes[j].cands, k);
      if batch != [] {
        round := round + [Batch(lanes[j].topic, batch, k)];
      }
    }
  }

  /** The batches of one lane, first to last. */
  function LaneBatches(l: Lane, k: nat): seq<Batch>
    decreases BatchCount(|l.cands|) - k
  {
    if k >= BatchCount(|l.cands|) then [] else [Batch(l.topic, SliceOf(l.cands, k), k)] + LaneBatches(l, k + 1)
  }

  function OfTopic(t: Topic): Batch -> bool { (b: Batch) => b.topic == t }

  lemma {:induction false} RoundOfTopic(lanes: seq<Lane>, l: Lane, k: nat)
    requires forall i, j :: 0 <= i < j < |lanes| ==> lanes[i].topic != lanes[j].topic
    requires forall x :: x in lanes && x.topic == l.topic ==> x == l
    ensures Filter(Round(lanes, k), OfTopic(l.topic)) ==
            if l in lanes && SliceOf(l.cands, k) != [] then [Batch(l.topic, SliceOf(l.cands, k), k)] else []
  {
    if lanes != [] {
      assert lanes == [lanes[0]] + lanes[1..];
      RoundOfTopic(lanes[1..], l, k);
      var s := SliceOf(lanes[0].cands, k);
      FilterAppend(if s == [] then [] else [Batch(lanes[0].topic, s, k)], Round(lanes[1..], k), OfTopic(l.topic));
      assert l == lanes[0] ==> l !in lanes[1..];
    }
  }

  lemma {:induction false} RoundsOfTopic(lanes: seq<Lane>, l: Lane, k: nat, n: nat)
    requires l in lanes && BatchCount(|l.cands|) <= n
    requires forall i, j :: 0 <= i < j < |lanes| ==> lanes[i].topic != lanes[j].topic
    ensures Filter(Rounds(lanes, k, n), OfTopic(l.topic)) == LaneBatches(l, k)
    decreases n - k
  {
    if k < n {
      RoundsOfTopic(lanes, l, k + 1, n);
      RoundOfTopic(lanes, l, k);
      FilterAppend(Round(lanes, k), Rounds(lanes, k + 1, n), OfTopic(l.topic));
    }
  }

  /** A topic's batches occur in the work list in their own order, each once. */
  lemma WorkOfTopic(lanes: seq<Lane>, l: Lane)
    requires l in lanes
    requires forall i, j :: 0 <= i < j < |lanes| ==> lanes[i].topic != lanes[j].topic
    ensures Filter(WorkBatches(lanes), OfTopic(l.topic)) == LaneBatches(l, 0)
  {
    RoundsOfTopic(lanes, l, 0, MostBatches(lanes));
  }

  function CandsOf(bs: seq<Batch>): seq<Candidate> {
    if bs == [] then [] else bs[0].cands + CandsOf(bs[1..])
  }

  /** The i-th batch is the i-th slice of the lane. */
  lemma {:induction false} LaneBatchAt(l: Lane, k: nat, i: nat)
    requires i < |LaneBatches(l, k)|
    ensures LaneBatches(l, k)[i] == Batch(l.topic, SliceOf(l.cands, k + i), k + i)
    decreases i
  {
    if i > 0 { LaneBatchAt(l, k + 1, i - 1); }
  }

  /** Cutting a lane into batches loses, repeats and reorders nothing. */
  lemma {:induction false} LaneBatchesCover(l: Lane, k: nat)
    ensures CandsOf(LaneBatches(l, k)) == l.cands[Min(k * PER_CALL, |l.cands|)..]
    ensures |LaneBatches(l, k)| == Max(0, BatchCount(|l.cands|) - k)
    ensures forall b :: b in LaneBatches(l, k) ==> 1 <= |b.cands| <= PER_CALL && b.topic == l.topic
    decreases BatchCount(|l.cands|) - k
  {
    if k < BatchCount(|l.cands|) {
      LaneBatchesCover(l, k + 1);
      var a, b := k * PER_CALL, Min(k * PER_CALL + PER_CALL, |l.cands|);
      assert Min((k + 1) * PER_CALL, |l.cands|) == b;
      assert l.cands[a..] == l.cands[a..b] + l.cands[b..];
    }
  }

  lemma {:induction false} RoundShape(lanes: seq<Lane>, k: nat, b: Batch)
    requires b in Round(lanes, k)
    ensures b.index == k && exists l :: l in lanes && b == Batch(l.topic, SliceOf(l.cands, k), k) && b.cands != []
  {
    var s := SliceOf(lanes[0].cands, k);
    if s != [] && b == Batch(lanes[0].topic, s, k) {
      assert lanes[0] in lanes;
    } else {
      RoundShape(lanes[1..], k, b);
      var l :| l in lanes[1..] && b == Batch(l.topic, SliceOf(l.cands, k), k) && b.cands != [];
      assert l in lanes;
    }
  }

  lemma {:induction false} RoundsShape(lanes: seq<Lane>, k: nat, n: nat)
    ensures forall b :: b in Rounds(lanes, k, n) ==>
      b.index >= k && exists l :: l in lanes && b == Batch(l.topic, SliceOf(l.cands, b.index), b.index) && b.cands != []
    ensures forall i, j :: 0 <= i < j < |Rounds(lanes, k, n)| ==>
      Rounds(lanes, k, n)[i].index <= Rounds(lanes, k, n)[j].index
    decreases n - k
  {
    if k < n {
      RoundsShape(lanes, k + 1, n);
      forall b | b in Round(lanes, k)
        ensures b.index == k && exists l :: l in lanes && b == Batch(l.topic, SliceOf(l.cands, k), k) && b.cands != []
      {
        RoundShape(lanes, k, b);
      }
    }
  }

  /**
   * Round-robin fairness: batch k of any topic comes before batch k+1 of every topic, and
   * every batch is a non-empty slice of at most eight candidates of one lane, eight unless it is the last.
   */
  lemma WorkIsRoundRobin(lanes: seq<Lane>)
    ensures var work := WorkBatches(lanes);
      && (forall i, j :: 0 <= i < |work| && 0 <= j < |work| && work[i].index < work[j].index ==> i < j)
      && (forall b :: b in work ==>
            (1 <= |b.cands| <= 8 && exists l ::
              l in lanes && b == Batch(l.topic, SliceOf(l.cands, b.index), b.index)
              && (|b.cands| < 8 ==> |l.cands| <= 8 * b.index + 8)))
  {
    RoundsShape(lanes, 0, MostBatches(lanes));
  }

  /** The candidates of the batches of a topic are exactly the topic's candidates, in spool order. */
  lemma WorkPartitionsCandidates(cands: seq<Candidate>, t: Topic)
    ensures var mine := Filter(WorkBatches(LanesOf(cands)), OfTopic(t));
      && CandsOf(mine) == LaneOf(cands, t).cands
      && (forall c :: c in CandsOf(mine) <==> c in cands && c.topic == t)
  {
    var lanes := LanesOf(cands);
    LanesAreOk(cands);
    LaneMembers(cands, t);
    var mine := LaneOf(cands, t).cands;
    assert mine == [] || mine[0] in mine;
    if l :| l in lanes && l.topic == t {
      WorkOfTopic(lanes, l);
      LaneBatchesCover(l, 0);
    } else {
      NoWorkWithoutLane(lanes, t);
    }
  }

  lemma NoWorkWithoutLane(lanes: seq<Lane>, t: Topic)
    requires forall l :: l in lanes ==> l.topic != t
    ensures Filter(WorkBatches(lanes), OfTopic(t)) == []
  {
    RoundsShape(lanes, 0, MostBatches(lanes));
    var mine := Filter(WorkBatches(lanes), OfTopic(t));
    if mine != [] {
      FilterMember(WorkBatches(lanes), OfTopic(t), mine[0]);
    }
  }
}
