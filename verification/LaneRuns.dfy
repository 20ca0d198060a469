/** What becomes of one topic's lane over a sequence of passes: strikes, resets and quarantine. */
module LaneRuns {
  import opened Prelude
  import opened Sorting
  import opened Candidates
  import opened Coalescing
  import opened Scheduling
  import opened TopicLanes
  import opened CarryOut
  import opened ChatPass
  import opened Quarantine
  import opened Ledger

  // ----- Passes of one chat --------------------------------------------------------------------

  /** What a chat keeps from pass to pass as far as its lanes are concerned. */
  datatype Chat = Chat(lanes: map<Topic, Entry>, cursor: Option<nat>)

  datatype Visit = Visit(budget: Budget, calls: nat, now: int, world: World)

  function PassAt(c: Chat, v: Visit): Pass { RunPass(c.lanes, c.cursor, v.budget, v.calls, v.now, v.world) }

  function Visited(c: Chat, v: Visit): Chat {
    Chat(PassAt(c, v).topics, CursorAfter(PassAt(c, v).pending, v.world.maxSeq, c.cursor))
  }

  function LaneOfTopic(c: Chat, t: Topic): Entry { EntryOf(c.lanes, c.cursor, t) }

  function FetchedIn(c: Chat, v: Visit): seq<Candidate> { MergedOf(c.lanes, c.cursor, v.world) }

  function WorkIn(c: Chat, v: Visit): seq<Batch> { WorkBatches(LanesOf(FetchedIn(c, v))) }

  function HeardIn(c: Chat, v: Visit): Eval { Evaluation(c.lanes, c.cursor, v.calls, v.now, v.world) }

  function DoneIn(c: Chat, v: Visit): Acts { Act(HeardIn(c, v), FetchedIn(c, v), v.budget, v.world) }

  /** Some batch of topic `t` ended this way. */
  ghost predicate HasStatus(work: seq<Batch>, statuses: seq<Status>, t: Topic, s: Status)
    requires |statuses| == |work|
  {
    exists i :: 0 <= i < |work| && work[i].topic == t && statuses[i] == s
  }

  ghost predicate Ended(c: Chat, v: Visit, t: Topic, s: Status) {
    HasStatus(WorkIn(c, v), HeardIn(c, v).statuses, t, s)
  }

  ghost predicate BadlyAnswered(c: Chat, v: Visit, t: Topic) { Ended(c, v, t, Invalid) || Ended(c, v, t, Quarantined) }

  ghost predicate Undelivered(c: Chat, v: Visit, t: Topic) { t in FailedTopics(FetchedIn(c, v), DoneIn(c, v).failed) }

  ghost predicate DistinctIds(c: Chat, v: Visit) { DistinctBy(FetchedIn(c, v), MidOf()) }

  // ----- A topic that was not heard ------------------------------------------------------------

  lemma {:induction false} UnheardEntry(
    start: Eval, work: seq<Batch>, n: nat, judge: (Eval, nat) -> Verdict, chatCursor: Option<nat>, t: Topic)
    requires n <= |work| && FitJudge(work, judge, chatCursor) && start.statuses == []
    requires |EvalAll(start, work, n, judge).statuses| == n
    requires forall i :: 0 <= i < n && work[i].topic == t ==> !Evaluated(EvalAll(start, work, n, judge).statuses[i])
    ensures EntryOf(EvalAll(start, work, n, judge).topics, chatCursor, t) == EntryOf(start.topics, chatCursor, t)
  {
    if n > 0 {
      var e := EvalAll(start, work, n - 1, judge);
      var v := judge(e, n - 1);
      assert EvalAll(start, work, n, judge) == Record(e, work[n - 1].topic, v);
      UnheardRecord(e, work, n - 1, v, chatCursor, t);
      UnheardEntry(start, work, n - 1, judge, chatCursor, t);
    }
  }

  lemma UnheardRecord(e: Eval, work: seq<Batch>, n: nat, v: Verdict, chatCursor: Option<nat>, t: Topic)
    requires n < |work| && VerdictFits(e, work[n].topic, chatCursor, v)
    requires |Record(e, work[n].topic, v).statuses| == n + 1
    requires forall i :: 0 <= i < n + 1 && work[i].topic == t ==> !Evaluated(Record(e, work[n].topic, v).statuses[i])
    ensures |e.statuses| == n && forall i :: 0 <= i < n && work[i].topic == t ==> !Evaluated(e.statuses[i])
    ensures EntryOf(Record(e, work[n].topic, v).topics, chatCursor, t) == EntryOf(e.topics, chatCursor, t)
  {
    assert forall i :: 0 <= i < n ==> Record(e, work[n].topic, v).statuses[i] == e.statuses[i];
  }

  lemma UnheardEvaluation(c: Chat, v: Visit, t: Topic)
    requires !Ended(c, v, t, Valid) && !BadlyAnswered(c, v, t)
    ensures EntryOf(HeardIn(c, v).topics, c.cursor, t) == LaneOfTopic(c, t)
    ensures t in c.lanes ==> t in HeardIn(c, v).topics
  {
    var merged, work := FetchedIn(c, v), WorkIn(c, v);
    var ctx := ContextOf(merged, c.cursor, v.now, v.world);
    var judge := Judging(work, v.world.decide, ctx);
    var lanes := OpenTopics(c.lanes, c.cursor, FromRows(v.world.rows));
    WorkHasCandidates(merged);
    JudgingFits(work, v.world.decide, ctx);
    OpenTopicsKeeps(c.lanes, c.cursor, FromRows(v.world.rows));
    assert EvalAll(Start(lanes, v.calls), work, |work|, judge) == HeardIn(c, v);
    UnheardEntry(Start(lanes, v.calls), work, |work|, judge, c.cursor, t);
    EvalKeepsCursors(Start(lanes, v.calls), work, |work|, judge, c.cursor);
  }

  /** Nothing of a topic without a settled batch is touched by the second half of a pass. */
  lemma FinishUntouched(
    groups: seq<seq<Candidate>>, merged: seq<Candidate>, work: seq<Batch>, ev: Eval, acts: Acts, now: int, t: Topic)
    requires |ev.statuses| == |work|
    requires forall i :: 0 <= i < |work| ==> work[i].cands != [] && work[i].topic in ev.topics
    requires forall i :: 0 <= i < |work| && work[i].topic == t ==>
      ev.statuses[i] != Valid && ev.statuses[i] != Quarantined
    requires t !in FailedTopics(merged, acts.failed)
    ensures var topics := Finish(groups, merged, work, ev, acts, now).topics;
      topics.Keys == ev.topics.Keys && (t in topics ==> topics[t] == ev.topics[t])
  {
    if t in ev.topics {
      DrainUntouched(Noted(ev, merged, acts, now), work, SettledFlags(work, ev.statuses, acts.deferred), 0, |work|,
                     InvalidTopics(work, ev.statuses) + FailedTopics(merged, acts.failed), t);
    }
  }

  lemma QuietTopicsDoNotFail(merged: seq<Candidate>, acts: Acts, t: Topic)
    requires TopicQuiet(merged, acts, t)
    ensures t !in FailedTopics(merged, acts.failed)
  {
  }

  /** A pass that does not evaluate a topic leaves its lane alone, whatever happens to the others. */
  lemma UnheardKeepsLane(c: Chat, v: Visit, t: Topic)
    requires DistinctIds(c, v) && !Ended(c, v, t, Valid) && !BadlyAnswered(c, v, t)
    ensures EntryOf(PassAt(c, v).topics, c.cursor, t) == LaneOfTopic(c, t)
    ensures t in c.lanes ==> t in PassAt(c, v).topics
  {
    var merged, work, ev := FetchedIn(c, v), WorkIn(c, v), HeardIn(c, v);
    UnheardEvaluation(c, v, t);
    SilentTopicStaysQuiet(c.lanes, c.cursor, v.budget, v.calls, v.now, v.world, t);
    QuietTopicsDoNotFail(merged, DoneIn(c, v), t);
    WorkFits(ev, c.lanes, c.cursor, v.world, work);
    FinishUntouched(GroupsOf(c.lanes, c.cursor, v.world), merged, work, ev, DoneIn(c, v), v.now, t);
  }

  // ----- A topic with bad answers only ---------------------------------------------------------

  lemma FirstIsHead(work: seq<Batch>, k: nat) returns (h: nat)
    requires k < |work|
    ensures h <= k && IsHead(work, h) && work[h].topic == work[k].topic
  {
    h := 0;
    while work[h].topic != work[k].topic
      invariant h <= k && forall j :: 0 <= j < h ==> work[j].topic != work[k].topic
      decreases k - h
    {
      h := h + 1;
    }
  }

  /** A topic with a bad and no valid answer was judged on its head batch, and on no other. */
  lemma BadIsHead(work: seq<Batch>, statuses: seq<Status>, t: Topic) returns (h: nat)
    requires |statuses| == |work| && !HasStatus(work, statuses, t, Valid)
    requires HasStatus(work, statuses, t, Invalid) || HasStatus(work, statuses, t, Quarantined)
    requires forall i, j :: 0 <= i < j < |work| && work[i].topic == work[j].topic && statuses[i] != Valid ==>
      !Evaluated(statuses[j])
    ensures IsHead(work, h) && work[h].topic == t && Bad(statuses[h])
    ensures HasStatus(work, statuses, t, Quarantined) <==> statuses[h] == Quarantined
  {
    var k :| 0 <= k < |work| && work[k].topic == t && (statuses[k] == Invalid || statuses[k] == Quarantined);
    h := FirstIsHead(work, k);
    assert statuses[h] != Valid && Evaluated(statuses[k]);
    assert h == k;
    forall j | 0 <= j < |work| && work[j].topic == t && statuses[j] == Quarantined
      ensures j == h
    {
      HeadFirst(work, h, j);
    }
  }

  /** Such a pass costs the lane exactly one strike; everything in its head batch lay ahead of it. */
  lemma StrikeMovesLane(c: Chat, v: Visit, t: Topic) returns (head: seq<Candidate>)
    requires DistinctIds(c, v) && BadlyAnswered(c, v, t) && !Ended(c, v, t, Valid)
    ensures head != [] && t in PassAt(c, v).topics
    ensures PassAt(c, v).topics[t] == AfterBadHead(LaneOfTopic(c, t), head, v.now)
    ensures forall x :: x in head ==> After(x, LaneOfTopic(c, t))
    ensures Ended(c, v, t, Quarantined) <==> StrikesLeft(LaneOfTopic(c, t).failures) == 1
  {
    EvaluationKeeps(c.lanes, c.cursor, v.calls, v.now, v.world);
    var h := BadIsHead(WorkIn(c, v), HeardIn(c, v).statuses, t);
    head := WorkIn(c, v)[h].cands;
    BadHeadMovesLane(c, v, t, h);
    BadHeadStatus(c, v, h);
    HeadAhead(c, v, h);
  }

  lemma BadHeadMovesLane(c: Chat, v: Visit, t: Topic, h: nat)
    requires DistinctIds(c, v) && IsHead(WorkIn(c, v), h) && Bad(HeardIn(c, v).statuses[h])
      && WorkIn(c, v)[h].topic == t
    ensures WorkIn(c, v)[h].cands != [] && t in PassAt(c, v).topics
    ensures PassAt(c, v).topics[t] == AfterBadHead(LaneOfTopic(c, t), WorkIn(c, v)[h].cands, v.now)
  {
    BadTopicStaysQuiet(c.lanes, c.cursor, v.budget, v.calls, v.now, v.world, h);
    BadHeadCostsOneStrike(c.lanes, c.cursor, v.calls, v.now, v.world, DoneIn(c, v), h);
  }

  lemma HeadAhead(c: Chat, v: Visit, h: nat)
    requires h < |WorkIn(c, v)|
    ensures forall x :: x in WorkIn(c, v)[h].cands ==> After(x, LaneOfTopic(c, WorkIn(c, v)[h].topic))
  {
    forall x | x in WorkIn(c, v)[h].cands
      ensures After(x, LaneOfTopic(c, WorkIn(c, v)[h].topic))
    {
      WorkCovers(FetchedIn(c, v), x);
      HeadIsAhead(c.lanes, c.cursor, v.world, h, x);
    }
  }

  lemma BadHeadStatus(c: Chat, v: Visit, h: nat)
    requires IsHead(WorkIn(c, v), h) && Bad(HeardIn(c, v).statuses[h])
    ensures HeardIn(c, v).statuses[h] == Quarantined <==>
      StrikesLeft(LaneOfTopic(c, WorkIn(c, v)[h].topic).failures) == 1
  {
    var merged, work := FetchedIn(c, v), WorkIn(c, v);
    var lanes := OpenTopics(c.lanes, c.cursor, FromRows(v.world.rows));
    WorkHasCandidates(merged);
    HeadTopicOpened(c.lanes, c.cursor, v.world, h);
    OpenTopicsKeeps(c.lanes, c.cursor, FromRows(v.world.rows));
    HeadVerdict(Start(lanes, v.calls), work, v.world.decide, ContextOf(merged, c.cursor, v.now, v.world), h);
  }

  // ----- A topic with a valid answer -----------------------------------------------------------

  /** After a valid answer of a topic its record counts only what came later in the same pass. */
  ghost predicate CountsInvalid(e: Eval, work: seq<Batch>, n: nat, t: Topic)
    requires n <= |work| && |e.statuses| == n
  {
    (exists i :: 0 <= i < n && work[i].topic == t && e.statuses[i] == Valid) ==>
      t in e.topics
      && e.topics[t].failures == if exists j ::
        0 <= j < n && work[j].topic == t && e.statuses[j] == Invalid then 1 else 0
  }

  lemma CountsStep(e: Eval, e': Eval, work: seq<Batch>, n: nat, v: Verdict, chatCursor: Option<nat>, t: Topic)
    requires n < |work| && |e.statuses| == n && CountsInvalid(e, work, n, t)
    requires VerdictFits(e, work[n].topic, chatCursor, v) && e' == Record(e, work[n].topic, v)
    requires NothingAfterBad(e', work, n + 1) && NoQuarantineAfterValid(e', work, n + 1)
    ensures CountsInvalid(e', work, n + 1, t)
  {
    assert forall i :: 0 <= i < n ==> e'.statuses[i] == e.statuses[i];
    assert e'.statuses[n] == v.status;
    if work[n].topic == t {
      if i :| 0 <= i < n && work[i].topic == t && e.statuses[i] == Valid {
        if j :| 0 <= j < n && work[j].topic == t && e.statuses[j] == Invalid {
          assert !Evaluated(v.status);
        }
      }
    }
  }

  lemma {:induction false} CountsAll(
    topics: map<Topic, Entry>, budget: nat, work: seq<Batch>, n: nat, judge: (Eval, nat) -> Verdict,
        chatCursor: Option<nat>, t: Topic)
    requires n <= |work| && FitJudge(work, judge, chatCursor)
    ensures |EvalAll(Start(topics, budget), work, n, judge).statuses| == n
    ensures CountsInvalid(EvalAll(Start(topics, budget), work, n, judge), work, n, t)
  {
    if n > 0 {
      CountsAll(topics, budget, work, n - 1, judge, chatCursor, t);
      EvalAllInv(topics, budget, work, n, judge, chatCursor);
      var e := EvalAll(Start(topics, budget), work, n - 1, judge);
      CountsStep(e, EvalAll(Start(topics, budget), work, n, judge), work, n - 1, judge(e, n - 1), chatCursor, t);
    }
  }

  /** The cursor loop leaves the record of a failing lane as it is, and a clean one clean. */
  lemma {:induction false} DrainKeepsFailures(
    topics: map<Topic, Entry>, work: seq<Batch>, good: seq<bool>, n: nat, failing: set<Topic>, t: Topic)
    requires n <= |work| == |good| && t in topics && (t !in failing ==> topics[t].failures == 0)
    requires forall i :: 0 <= i < |work| ==> work[i].cands != [] && work[i].topic in topics
    ensures DrainAll(topics, work, good, n, failing).topics[t].failures == topics[t].failures
  {
    if n > 0 {
      DrainKeepsFailures(topics, work, good, n - 1, failing, t);
    }
  }

  lemma FinishCounts(
    groups: seq<seq<Candidate>>, merged: seq<Candidate>, work: seq<Batch>, ev: Eval, acts: Acts, now: int, t: Topic)
    requires |ev.statuses| == |work| && t in ev.topics
    requires forall i :: 0 <= i < |work| ==> work[i].cands != [] && work[i].topic in ev.topics
    requires ev.topics[t].failures == if t in InvalidTopics(work, ev.statuses) then 1 else 0
    ensures var topics := Finish(groups, merged, work, ev, acts, now).topics;
      t in topics && topics[t].failures ==
        ev.topics[t].failures + if t in FailedTopics(merged, acts.failed) then 1 else 0
  {
    DrainKeepsFailures(Noted(ev, merged, acts, now), work, SettledFlags(work, ev.statuses, acts.deferred), |work|,
                       InvalidTopics(work, ev.statuses) + FailedTopics(merged, acts.failed), t);
  }

  lemma CountsHere(c: Chat, v: Visit, t: Topic)
    ensures var work, ev := WorkIn(c, v), HeardIn(c, v); EvalInv(ev, work, |work|) && CountsInvalid(ev, work, |work|, t)
  {
    var merged, work := FetchedIn(c, v), WorkIn(c, v);
    var ctx := ContextOf(merged, c.cursor, v.now, v.world);
    WorkHasCandidates(merged);
    JudgingFits(work, v.world.decide, ctx);
    var lanes := OpenTopics(c.lanes, c.cursor, FromRows(v.world.rows));
    CountsAll(lanes, v.calls, work, |work|, Judging(work, v.world.decide, ctx), c.cursor, t);
    EvaluationKeeps(c.lanes, c.cursor, v.calls, v.now, v.world);
  }

  lemma RecordOfValid(ev: Eval, work: seq<Batch>, t: Topic)
    requires |ev.statuses| == |work| && CountsInvalid(ev, work, |work|, t) && HasStatus(work, ev.statuses, t, Valid)
    ensures t in InvalidTopics(work, ev.statuses) <==> HasStatus(work, ev.statuses, t, Invalid)
    ensures t in ev.topics && ev.topics[t].failures == if t in InvalidTopics(work, ev.statuses) then 1 else 0
  {
  }

  /**
   * A valid answer starts a topic's record over: the pass leaves one failure for a later bad answer
   * and one for an undelivered reply, so two at most, and quarantines nothing of the topic.
   */
  lemma ValidAnswerCounts(c: Chat, v: Visit, t: Topic)
    requires Ended(c, v, t, Valid)
    ensures t in PassAt(c, v).topics
    ensures PassAt(c, v).topics[t].failures
            == (if BadlyAnswered(c, v, t) then 1 else 0) + (if Undelivered(c, v, t) then 1 else 0)
    ensures !Ended(c, v, t, Quarantined)
  {
    var merged, work, ev := FetchedIn(c, v), WorkIn(c, v), HeardIn(c, v);
    CountsHere(c, v, t);
    NoQuarantineBesideValid(ev, work, t);
    RecordOfValid(ev, work, t);
    WorkFits(ev, c.lanes, c.cursor, v.world, work);
    FinishCounts(GroupsOf(c.lanes, c.cursor, v.world), merged, work, ev, DoneIn(c, v), v.now, t);
  }

  lemma NoQuarantineBesideValid(ev: Eval, work: seq<Batch>, t: Topic)
    requires EvalInv(ev, work, |work|) && HasStatus(work, ev.statuses, t, Valid)
    ensures !HasStatus(work, ev.statuses, t, Quarantined)
  {
    var i :| 0 <= i < |work| && work[i].topic == t && ev.statuses[i] == Valid;
    forall j | 0 <= j < |work| && work[j].topic == t
      ensures ev.statuses[j] != Quarantined
    {
      assert j < i ==> Evaluated(ev.statuses[i]);
    }
  }

  // ----- Sequences of passes -------------------------------------------------------------------

  ghost predicate IsRun(chats: seq<Chat>, visits: seq<Visit>) {
    && |chats| == |visits| + 1
    && (forall i :: 0 <= i < |visits| ==> chats[i + 1] == Visited(chats[i], visits[i]))
    && (forall i :: 0 <= i < |visits| ==> DistinctIds(chats[i], visits[i]))
  }

  /** The passes among the first `n` in which topic `t` got a bad answer. */
  ghost function BadAnswers(chats: seq<Chat>, visits: seq<Visit>, n: nat, t: Topic): nat
    requires n <= |visits| <= |chats|
  {
    if n == 0 then 0
    else BadAnswers(chats, visits, n - 1, t) + if BadlyAnswered(chats[n - 1], visits[n - 1], t) then 1 else 0
  }

  /** Nothing of the topic was settled, and its bad answers are not yet enough to give it up. */
  ghost predicate Standing(chats: seq<Chat>, visits: seq<Visit>, n: nat, t: Topic)
    requires n <= |visits| < |chats|
  {
    && (forall i :: 0 <= i < n ==> !Ended(chats[i], visits[i], t, Valid))
    && BadAnswers(chats, visits, n, t) < StrikesLeft(LaneOfTopic(chats[0], t).failures)
  }

  lemma StandingBefore(chats: seq<Chat>, visits: seq<Visit>, n: nat, t: Topic)
    requires n < |visits| < |chats| && Standing(chats, visits, n + 1, t)
    ensures Standing(chats, visits, n, t) && !Ended(chats[n], visits[n], t, Valid)
    ensures BadAnswers(chats, visits, n + 1, t)
            == BadAnswers(chats, visits, n, t) + if BadlyAnswered(chats[n], visits[n], t) then 1 else 0
  {
  }

  /** Until a topic is given up each bad answer counts, every other pass changes nothing, and its cursor stays. */
  lemma {:induction false} BadAnswersCount(chats: seq<Chat>, visits: seq<Visit>, n: nat, t: Topic)
    requires IsRun(chats, visits) && n <= |visits| && Standing(chats, visits, n, t)
    ensures Counted(chats[0], chats[n], BadAnswers(chats, visits, n, t), t)
  {
    if n > 0 {
      StandingBefore(chats, visits, n - 1, t);
      BadAnswersCount(chats, visits, n - 1, t);
      CountMore(chats[0], chats[n - 1], visits[n - 1], BadAnswers(chats, visits, n - 1, t), t);
    }
  }

  /** Since `from`, `k` bad answers were counted for the topic and its cursor did not move. */
  ghost predicate Counted(from: Chat, c: Chat, k: nat, t: Topic) {
    && LaneOfTopic(c, t).failures == LaneOfTopic(from, t).failures + k
    && (t in from.lanes ==> t in c.lanes && c.lanes[t].cursor == from.lanes[t].cursor)
  }

  lemma CountMore(from: Chat, c: Chat, v: Visit, k: nat, t: Topic)
    requires DistinctIds(c, v) && !Ended(c, v, t, Valid) && Counted(from, c, k, t)
    requires BadlyAnswered(c, v, t) ==> k + 1 < StrikesLeft(LaneOfTopic(from, t).failures)
    ensures Counted(from, Visited(c, v), k + if BadlyAnswered(c, v, t) then 1 else 0, t)
  {
    CountedPass(c, v, t);
  }

  /**
   * Quarantine guarantees progress, from any record: with k failures noted, a topic without a
   * valid answer is given up by exactly its Max(1, 3 - k)-th bad answer, however many passes lie
   * between them, and then its cursor is strictly past the head batch and its record is clean.
   */
  lemma QuarantineProgress(chats: seq<Chat>, visits: seq<Visit>, n: nat, t: Topic) returns (head: seq<Candidate>)
    requires IsRun(chats, visits) && n < |visits| && Standing(chats, visits, n, t)
    requires BadlyAnswered(chats[n], visits[n], t) && !Ended(chats[n], visits[n], t, Valid)
    ensures head != [] && (forall x :: x in head ==> After(x, LaneOfTopic(chats[n], t)))
    ensures var last := BadAnswers(chats, visits, n + 1, t) == StrikesLeft(LaneOfTopic(chats[0], t).failures);
      && (last <==> Ended(chats[n], visits[n], t, Quarantined))
      && (last ==> GivenUp(LaneOfTopic(chats[n + 1], t), head))
      && (!last ==> Standing(chats, visits, n + 1, t))
  {
    BadAnswersCount(chats, visits, n, t);
    head := StrikeMovesLane(chats[n], visits[n], t);
    StrikeOut(LaneOfTopic(chats[n], t), head, visits[n].now);
  }

  /** The lane is past `head` and starts over. */
  ghost predicate GivenUp(e: Entry, head: seq<Candidate>)
    requires head != []
  {
    && e.cursor == Some(MaxSeq(head)) && e.failures == 0 && e.retryAt == None
    && forall x :: x in head ==> !After(x, e)
  }

  /** A pass that neither settles nor gives up anything of the topic only counts. */
  lemma CountedPass(c: Chat, v: Visit, t: Topic)
    requires DistinctIds(c, v) && !Ended(c, v, t, Valid)
    requires BadlyAnswered(c, v, t) ==> StrikesLeft(LaneOfTopic(c, t).failures) > 1
    ensures LaneOfTopic(Visited(c, v), t).failures ==
      LaneOfTopic(c, t).failures + if BadlyAnswered(c, v, t) then 1 else 0
    ensures t in c.lanes ==> t in Visited(c, v).lanes && Visited(c, v).lanes[t].cursor == c.lanes[t].cursor
  {
    if BadlyAnswered(c, v, t) {
      var head := StrikeMovesLane(c, v, t);
      StrikeOut(LaneOfTopic(c, t), head, v.now);
    } else {
      UnheardKeepsLane(c, v, t);
    }
  }

  /**
   * Delivery failures never quarantine a topic: over any sequence of passes without a bad answer,
   * whatever was delivered or not, the record never exceeds one failure, and the first bad answer
   * after it is not a quarantine.
   */
  lemma {:induction false} DeliveryFailuresNeverQuarantine(chats: seq<Chat>, visits: seq<Visit>, n: nat, t: Topic)
    requires IsRun(chats, visits) && n < |visits| && LaneOfTopic(chats[0], t).failures <= 1
    requires forall i :: 0 <= i < n ==> !BadlyAnswered(chats[i], visits[i], t)
    ensures LaneOfTopic(chats[n], t).failures <= 1
    ensures !Ended(chats[n], visits[n], t, Quarantined)
    ensures LaneOfTopic(chats[n + 1], t).failures <= 2
  {
    if n > 0 {
      DeliveryFailuresNeverQuarantine(chats, visits, n - 1, t);
      HarmlessPass(chats[n - 1], visits[n - 1], t);
    }
    HarmlessPass(chats[n], visits[n], t);
  }

  lemma HarmlessPass(c: Chat, v: Visit, t: Topic)
    requires DistinctIds(c, v) && LaneOfTopic(c, t).failures <= 1
    ensures !Ended(c, v, t, Quarantined) && LaneOfTopic(Visited(c, v), t).failures <= 2
    ensures !BadlyAnswered(c, v, t) ==> LaneOfTopic(Visited(c, v), t).failures <= 1
  {
    if Ended(c, v, t, Valid) {
      ValidAnswerCounts(c, v, t);
    } else if BadlyAnswered(c, v, t) {
      var head := StrikeMovesLane(c, v, t);
      CountedPass(c, v, t);
    } else {
      UnheardKeepsLane(c, v, t);
    }
  }
}
