/** Evaluating the batches of one chat pass and moving the topic cursors. */
module TopicLanes {
  import opened Prelude
  import opened Candidates
  import opened Coalescing
  import opened Scheduling
  import opened Plans

  const CALLS_PER_CHAT := 4
  const CALLS_PER_CYCLE := 8
  const INVALID_MAX_ATTEMPTS := 3
  const BACKOFF_BASE := 15
  const BACKOFF_CEILING := 300

  /** The persistent state of one topic lane. */
  datatype Entry = Entry(
    cursor: Option<nat>, failures: nat, retryAt: Option<int>, waitAnchor: Option<nat>, waitCount: nat)

  /** A lane seen for the first time starts where the chat stands. */
  function EntryOf(topics: map<Topic, Entry>, chatCursor: Option<nat>, t: Topic): Entry {
    if t in topics then topics[t] else Entry(chatCursor, 0, None, None, 0)
  }

  predicate After(c: Candidate, e: Entry) { e.cursor.None? || c.spoolSeq > e.cursor.value }

  function Advance(e: Entry, cands: seq<Candidate>, clearFailure: bool): Entry
    requires cands != []
  {
    var moved := e.(cursor := Some(Max(if e.cursor.Some? then e.cursor.value else 0, MaxSeq(cands))));
    if clearFailure then moved.(failures := 0, retryAt := None) else moved
  }

  function Backoff(attempts: nat): int
    requires attempts >= 1
  {
    Min(BACKOFF_CEILING, BACKOFF_BASE * Doubling(attempts - 1))
  }

  function Doubling(n: nat): nat { if n == 0 then 1 else 2 * Doubling(n - 1) }

  /** One more failure of the lane; the flag tells that it is now quarantined. */
  function NoteFailure(e: Entry, now: int): (Entry, bool) {
    var attempts := Min(INVALID_MAX_ATTEMPTS, e.failures + 1);
    if attempts >= INVALID_MAX_ATTEMPTS then (e.(failures := attempts, retryAt := None), true)
    else (e.(failures := attempts, retryAt := Some(now + Backoff(attempts))), false)
  }

  predicate RetryActive(e: Entry, now: int) { e.retryAt.Some? && e.retryAt.value > now }

  // ----- The wait policy ----------------------------------------------------------------

  datatype WaitOutcome = WaitOutcome(kept: seq<Plan>, held: set<int>, entry: Entry)

  function WaitPolicy(plans: seq<Plan>, e: Entry, batch: seq<Candidate>): WaitOutcome
    requires batch != []
  {
    var waits := Filter(plans, (p: Plan) => p.action == Wait);
    var kept := Filter(plans, (p: Plan) => p.action != Wait);
    var quiet := e.(waitAnchor := None, waitCount := 0);
    if waits == [] then WaitOutcome(plans, {}, quiet)
    else
      var anchor := MaxSeq(batch);
      var count := if e.waitAnchor == Some(anchor) then e.waitCount + 1 else 1;
      if count >= WAIT_MAX_ATTEMPTS then WaitOutcome(kept, {}, quiet)
      else WaitOutcome(kept, set p | p in waits :: p.mid, e.(waitAnchor := Some(anchor), waitCount := count))
  }

  /** Another hold of a batch with the same last message counts one up, any other hold starts counting. */
  lemma HoldCounts(plans: seq<Plan>, e: Entry, batch: seq<Candidate>)
    requires batch != [] && WaitPolicy(plans, e, batch).held != {}
    ensures var e' := WaitPolicy(plans, e, batch).entry;
      && e'.waitAnchor == Some(MaxSeq(batch)) && e'.waitCount < WAIT_MAX_ATTEMPTS
      && e'.waitCount == (if e.waitAnchor == Some(MaxSeq(batch)) then e.waitCount else 0) + 1
  {
  }

  // ----- Evaluation ---------------------------------------------------------------------

  datatype Status = Valid | Invalid | Quarantined | Blocked | Backedoff | NoBudget

  predicate Evaluated(s: Status) { s == Valid || s == Invalid || s == Quarantined }

  /** What stays fixed while the batches of one pass are evaluated. */
  datatype Context = Context(
    now: int, chatCursor: Option<nat>, proactiveOk: bool, cands: map<int, Candidate>, completed: set<(int, Action)>)

  datatype Eval = Eval(
    topics: map<Topic, Entry>, blocked: set<Topic>, calls: nat, budget: nat, statuses: seq<Status>,
    held: set<int>, plans: seq<Plan>, demanded: set<int>)

  function Required(b: Batch): set<int> { set c | c in b.cands && !c.fromMe :: c.mid }

  /** Strong transport cues that the decider also reads as aimed at the agent. */
  function Demanded(b: Batch, plans: seq<Plan>): set<int> {
    set c | c in b.cands && (c.kind == Mention || c.kind == ReplyToAgent)
            && (exists p :: p in plans && p.mid == c.mid && p.selfIsAddressee) :: c.mid
  }

  /** The plans a valid answer contributes, after the policies that look at one batch only. */
  function Refined(kept: seq<Plan>, ctx: Context, demanded: set<int>): seq<Plan> {
    DropDone(DepthPolicy(ExpandMemory(kept), ctx.cands, demanded), ctx.completed)
  }

  /** What one batch's turn comes to. `stop` closes the topic for the rest of the pass. */
  datatype Verdict = Verdict(
    status: Status, entry: Entry, stop: bool, held: set<int>, plans: seq<Plan>, demanded: set<int>)

  function Without(status: Status, entry: Entry, stop: bool): Verdict { Verdict(status, entry, stop, {}, [], {}) }

  function Accept(b: Batch, entry: Entry, items: seq<Item>, ctx: Context): Verdict
    requires b.cands != []
  {
    var plans := PlansOf(items);
    var demanded := Demanded(b, plans);
    var w := WaitPolicy(AutonomyBoundary(plans, demanded, ctx.proactiveOk), entry.(failures := 0, retryAt := None),
        b.cands);
    Verdict(Valid, w.entry, w.held != {}, w.held, Refined(w.kept, ctx, demanded), demanded)
  }

  function Reject(entry: Entry, now: int): Verdict {
    var (noted, quarantined) := NoteFailure(entry, now);
    Without(if quarantined then Quarantined else Invalid, noted, true)
  }

  predicate Exhausted(e: Eval) { e.calls >= CALLS_PER_CHAT || e.budget == 0 }

  function Judge(e: Eval, b: Batch, answer: Answer, ctx: Context): Verdict
    requires b.cands != []
  {
    var entry := EntryOf(e.topics, ctx.chatCursor, b.topic);
    if b.topic in e.blocked then Without(Blocked, entry, false)
    else if RetryActive(entry, ctx.now) then Without(Backedoff, entry, true)
    else if Exhausted(e) then Without(NoBudget, entry, false)
    else if AnswerValid(answer, Required(b)) then Accept(b, entry, answer.items, ctx)
    else Reject(entry, ctx.now)
  }

  function Record(e: Eval, t: Topic, v: Verdict): Eval {
    var paid := if Evaluated(v.status) then 1 else 0;
    Eval(e.topics[t := v.entry], if v.stop then e.blocked + {t} else e.blocked,
         e.calls + paid, if e.budget == 0 then 0 else e.budget - paid, e.statuses + [v.status],
         e.held + v.held, e.plans + v.plans, e.demanded + v.demanded)
  }

  /** What a verdict tells about the state it was reached in. */
  ghost predicate VerdictFits(e: Eval, t: Topic, chatCursor: Option<nat>, v: Verdict) {
    var entry := EntryOf(e.topics, chatCursor, t);
    && v.entry.cursor == entry.cursor
    && (v.status == Blocked <==> t in e.blocked)
    && (Evaluated(v.status) ==> !Exhausted(e))
    && (v.status == NoBudget ==> Exhausted(e))
    && (v.status == Invalid || v.status == Quarantined || v.status == Backedoff ==> v.stop)
    && (v.status == NoBudget || v.status == Blocked ==> !v.stop)
    && (!Evaluated(v.status) ==> v.entry == entry)
    && (v.status == Valid ==> v.entry.failures == 0)
    && (v.status == Invalid ==> v.entry.failures == entry.failures + 1)
    && (v.status == Quarantined ==> entry.failures >= INVALID_MAX_ATTEMPTS - 1)
  }

  lemma JudgeFits(e: Eval, b: Batch, answer: Answer, ctx: Context)
    requires b.cands != []
    ensures VerdictFits(e, b.topic, ctx.chatCursor, Judge(e, b, answer, ctx))
  {
  }

  function Start(topics: map<Topic, Entry>, budget: nat): Eval { Eval(topics, {}, 0, budget, [], {}, [], {}) }

  /** How the i-th batch of a pass is judged, `decide` being whatever the decider says. */
  function Judging(work: seq<Batch>, decide: nat -> Answer, ctx: Context): (Eval, nat) -> Verdict {
    (e: Eval, i: nat) =>
      if i < |work| && work[i].cands != [] then Judge(e, work[i], decide(i), ctx)
      else Without(Blocked, Entry(None, 0, None, None, 0), false)
  }

  /** The state after the first `n` batches. */
  function EvalAll(start: Eval, work: seq<Batch>, n: nat, judge: (Eval, nat) -> Verdict): Eval
    requires n <= |work|
  {
    if n == 0 then start
    else
      var e := EvalAll(start, work, n - 1, judge);
      Record(e, work[n - 1].topic, judge(e, n - 1))
  }

  ghost predicate FitJudge(work: seq<Batch>, judge: (Eval, nat) -> Verdict, chatCursor: Option<nat>) {
    forall e, i: nat :: i < |work| ==> VerdictFits(e, work[i].topic, chatCursor, judge(e, i))
  }

  lemma JudgingFits(work: seq<Batch>, decide: nat -> Answer, ctx: Context)
    requires forall i :: 0 <= i < |work| ==> work[i].cands != []
    ensures FitJudge(work, Judging(work, decide, ctx), ctx.chatCursor)
  {
    forall e: Eval, i: nat | i < |work|
      ensures VerdictFits(e, work[i].topic, ctx.chatCursor, Judging(work, decide, ctx)(e, i))
    {
      JudgeFits(e, work[i], decide(i), ctx);
    }
  }

  /** A topic entry keeps its cursor while answers come in. */
  ghost predicate CursorsKept(before: map<Topic, Entry>, after: map<Topic, Entry>, chatCursor: Option<nat>) {
    && before.Keys <= after.Keys
    && forall t :: t in after ==> after[t].cursor == EntryOf(before, chatCursor, t).cursor
  }

  lemma {:induction false} EvalKeepsCursors(
    start: Eval, work: seq<Batch>, n: nat, judge: (Eval, nat) -> Verdict, chatCursor: Option<nat>)
    requires n <= |work| && FitJudge(work, judge, chatCursor)
    ensures var e := EvalAll(start, work, n, judge);
      && CursorsKept(start.topics, e.topics, chatCursor)
      && |e.statuses| == |start.statuses| + n
      && (forall i :: 0 <= i < n ==> work[i].topic in e.topics)
  {
    if n > 0 {
      EvalKeepsCursors(start, work, n - 1, judge, chatCursor);
      var e := EvalAll(start, work, n - 1, judge);
      RecordKeepsCursors(start.topics, e, work[n - 1].topic, judge(e, n - 1), chatCursor);
      assert EvalAll(start, work, n, judge) == Record(e, work[n - 1].topic, judge(e, n - 1));
    }
  }

  lemma RecordKeepsCursors(before: map<Topic, Entry>, e: Eval, t: Topic, v: Verdict, chatCursor: Option<nat>)
    requires CursorsKept(before, e.topics, chatCursor) && VerdictFits(e, t, chatCursor, v)
    ensures CursorsKept(before, Record(e, t, v).topics, chatCursor)
  {
    assert e.topics[t := v.entry].Keys == e.topics.Keys + {t};
  }

  /** How many statuses stand for a decider call. */
  function CountEvaluated(statuses: seq<Status>): nat {
    if statuses == [] then 0
    else CountEvaluated(statuses[..|statuses| - 1]) + (if Evaluated(statuses[|statuses| - 1]) then 1 else 0)
  }

  lemma CountOneMore(ss: seq<Status>, s: Status)
    ensures CountEvaluated(ss + [s]) == CountEvaluated(ss) + (if Evaluated(s) then 1 else 0)
  {
    assert (ss + [s])[..|ss|] == ss;
  }

  /** The decider is asked at most four times a chat, and each call is paid from the cycle budget. */
  lemma {:induction false} CallsBounded(
    topics: map<Topic, Entry>, budget: nat, work: seq<Batch>, n: nat, judge: (Eval, nat) -> Verdict,
        chatCursor: Option<nat>)
    requires n <= |work| && FitJudge(work, judge, chatCursor)
    ensures var e := EvalAll(Start(topics, budget), work, n, judge);
      CountEvaluated(e.statuses) == e.calls <= CALLS_PER_CHAT && e.calls + e.budget == budget
  {
    if n > 0 {
      CallsBounded(topics, budget, work, n - 1, judge, chatCursor);
      var e := EvalAll(Start(topics, budget), work, n - 1, judge);
      CountOneMore(e.statuses, judge(e, n - 1).status);
    }
  }

  // Facts about a partly evaluated work list that every further answer keeps.

  /** A batch that was not answered well stops its topic or finds the budget spent. */
  ghost predicate StopsOrSpent(e: Eval, work: seq<Batch>, n: nat)
    requires n <= |work| && |e.statuses| == n
  {
    forall i :: 0 <= i < n && e.statuses[i] != Valid ==> work[i].topic in e.blocked || Exhausted(e)
  }

  /** Within a topic nothing is evaluated after a batch that was not valid. */
  ghost predicate NothingAfterBad(e: Eval, work: seq<Batch>, n: nat)
    requires n <= |work| && |e.statuses| == n
  {
    forall i, j :: 0 <= i < j < n && work[i].topic == work[j].topic && e.statuses[i] != Valid ==>
      !Evaluated(e.statuses[j])
  }

  /** A topic that is still open after a valid answer has no failures on record. */
  ghost predicate OpenIsClean(e: Eval, work: seq<Batch>, n: nat)
    requires n <= |work| && |e.statuses| == n
  {
    forall i :: 0 <= i < n && e.statuses[i] == Valid && work[i].topic !in e.blocked ==>
      work[i].topic in e.topics && e.topics[work[i].topic].failures == 0
  }

  /** Quarantine never follows a valid answer of the same topic in the same pass. */
  ghost predicate NoQuarantineAfterValid(e: Eval, work: seq<Batch>, n: nat)
    requires n <= |work| && |e.statuses| == n
  {
    forall i, j :: 0 <= i < j < n && work[i].topic == work[j].topic && e.statuses[i] == Valid ==>
      e.statuses[j] != Quarantined
  }

  /** A blocked topic was blocked by one of its own batches. */
  ghost predicate BlockedByOwn(e: Eval, work: seq<Batch>, n: nat)
    requires n <= |work| && |e.statuses| == n
  {
    forall t :: t in e.blocked ==>
      exists i :: 0 <= i < n && work[i].topic == t && (e.statuses[i] != NoBudget && e.statuses[i] != Blocked)
  }

  ghost predicate EvalInv(e: Eval, work: seq<Batch>, n: nat) {
    && n <= |work| && |e.statuses| == n
    && StopsOrSpent(e, work, n) && NothingAfterBad(e, work, n) && OpenIsClean(e, work, n)
    && NoQuarantineAfterValid(e, work, n) && BlockedByOwn(e, work, n)
  }

  lemma RecordStops(e: Eval, work: seq<Batch>, n: nat, v: Verdict, chatCursor: Option<nat>)
    requires n < |work| && EvalInv(e, work, n) && VerdictFits(e, work[n].topic, chatCursor, v)
    ensures StopsOrSpent(Record(e, work[n].topic, v), work, n + 1)
    ensures NothingAfterBad(Record(e, work[n].topic, v), work, n + 1)
  {
    var e' := Record(e, work[n].topic, v);
    assert forall i :: 0 <= i < n ==> e'.statuses[i] == e.statuses[i];
    assert Exhausted(e) ==> Exhausted(e');
  }

  lemma RecordKeepsClean(e: Eval, work: seq<Batch>, n: nat, v: Verdict, chatCursor: Option<nat>)
    requires n < |work| && EvalInv(e, work, n) && VerdictFits(e, work[n].topic, chatCursor, v)
    ensures OpenIsClean(Record(e, work[n].topic, v), work, n + 1)
    ensures NoQuarantineAfterValid(Record(e, work[n].topic, v), work, n + 1)
  {
    var e' := Record(e, work[n].topic, v);
    assert forall i :: 0 <= i < n ==> e'.statuses[i] == e.statuses[i];
    forall i | 0 <= i < n && work[i].topic == work[n].topic && e'.statuses[i] == Valid ensures v.status != Quarantined {
      assert e.statuses[i] == Valid;
    }
  }

  lemma RecordKeepsBlockers(e: Eval, work: seq<Batch>, n: nat, v: Verdict, chatCursor: Option<nat>)
    requires n < |work| && EvalInv(e, work, n) && VerdictFits(e, work[n].topic, chatCursor, v)
    ensures BlockedByOwn(Record(e, work[n].topic, v), work, n + 1)
  {
    var s := Record(e, work[n].topic, v).statuses;
    forall t | t in Record(e, work[n].topic, v).blocked
      ensures exists i :: 0 <= i < n + 1 && work[i].topic == t && (s[i] != NoBudget && s[i] != Blocked)
    {
      if t in e.blocked {
        var i :| 0 <= i < n && work[i].topic == t && (e.statuses[i] != NoBudget && e.statuses[i] != Blocked);
        assert s[i] == e.statuses[i];
      } else {
        assert work[n].topic == t && s[n] == v.status;
      }
    }
  }

  lemma RecordKeepsInv(e: Eval, work: seq<Batch>, n: nat, v: Verdict, chatCursor: Option<nat>)
    requires n < |work| && EvalInv(e, work, n) && VerdictFits(e, work[n].topic, chatCursor, v)
    ensures EvalInv(Record(e, work[n].topic, v), work, n + 1)
  {
    RecordStops(e, work, n, v, chatCursor);
    RecordKeepsClean(e, work, n, v, chatCursor);
    RecordKeepsBlockers(e, work, n, v, chatCursor);
  }

  lemma {:induction false} EvalAllInv(
    topics: map<Topic, Entry>, budget: nat, work: seq<Batch>, n: nat, judge: (Eval, nat) -> Verdict,
        chatCursor: Option<nat>)
    requires n <= |work| && FitJudge(work, judge, chatCursor)
    ensures EvalInv(EvalAll(Start(topics, budget), work, n, judge), work, n)
  {
    if n > 0 {
      EvalAllInv(topics, budget, work, n - 1, judge, chatCursor);
      var e := EvalAll(Start(topics, budget), work, n - 1, judge);
      RecordKeepsInv(e, work, n - 1, judge(e, n - 1), chatCursor);
    }
  }

  // ----- Moving the cursors ----------------------------------------------------------------

  datatype Drain = Drain(topics: map<Topic, Entry>, closed: set<Topic>)

  predicate BatchDeferred(b: Batch, deferred: set<int>) {
    exists c :: c in b.cands && c.mid in deferred
  }

  /** The batch was answered with nothing left over, or given up on. */
  predicate Settled(b: Batch, s: Status, deferred: set<int>) {
    (s == Valid || s == Quarantined) && !BatchDeferred(b, deferred)
  }

  function SettledFlags(work: seq<Batch>, statuses: seq<Status>, deferred: set<int>): (good: seq<bool>)
    requires |work| == |statuses|
    ensures |good| == |work|
    ensures forall i :: 0 <= i < |work| ==> good[i] == Settled(work[i], statuses[i], deferred)
  {
    if work == [] then [] else [Settled(work[0], statuses[0], deferred)] + SettledFlags(work[1..], statuses[1..],
        deferred)
  }

  function DrainOne(d: Drain, b: Batch, good: bool, failing: set<Topic>): Drain
    requires b.cands != [] && b.topic in d.topics
  {
    if b.topic !in d.closed && good then
      d.(topics := d.topics[b.topic := Advance(d.topics[b.topic], b.cands, b.topic !in failing)])
    else d.(closed := d.closed + {b.topic})
  }

  /** The cursor loop over the first `n` batches; `good` flags the settled ones. */
  function DrainAll(topics: map<Topic, Entry>, work: seq<Batch>, good: seq<bool>, n: nat,
      failing: set<Topic>): (d: Drain)
    requires n <= |work| == |good|
    requires forall i :: 0 <= i < |work| ==> work[i].cands != [] && work[i].topic in topics
    ensures d.topics.Keys == topics.Keys
  {
    if n == 0 then Drain(topics, {})
    else DrainOne(DrainAll(topics, work, good, n - 1, failing), work[n - 1], good[n - 1], failing)
  }

  /** Later batches of a topic lie strictly ahead of earlier ones. */
  ghost predicate WorkOrdered(work: seq<Batch>) {
    forall i, j, x, y :: 0 <= i < j < |work| && work[i].topic == work[j].topic && x in work[i].cands
      && y in work[j].cands
      ==> x.spoolSeq < y.spoolSeq
  }

  /** Whatever of a topic lies at or below the cursor now did so before, or is in a settled batch. */
  ghost predicate OnlySettledPassed(
    before: map<Topic, Entry>, after: map<Topic, Entry>, work: seq<Batch>, good: seq<bool>, n: nat)
    requires n <= |work| == |good| && before.Keys == after.Keys
  {
    forall m, x :: 0 <= m < |work| && x in work[m].cands && work[m].topic in after && !After(x,
        after[work[m].topic]) ==>
      !After(x, before[work[m].topic]) || (m < n && good[m])
  }

  /** Everything known about the first `n` batches after their turn in the cursor loop. */
  ghost predicate DrainInv(before: map<Topic, Entry>, d: Drain, work: seq<Batch>, good: seq<bool>, n: nat)
    requires n <= |work| == |good|
  {
    && before.Keys == d.topics.Keys
    && OnlySettledPassed(before, d.topics, work, good, n)
    && (forall i :: 0 <= i < n && work[i].topic !in d.closed ==> good[i])
    && (forall t :: t in d.closed ==> exists i :: 0 <= i < n && work[i].topic == t)
  }

  lemma AdvancePassesBatch(e: Entry, cands: seq<Candidate>, clear: bool, x: Candidate)
    requires cands != [] && After(x, e) && !After(x, Advance(e, cands, clear))
    ensures exists y :: y in cands && x.spoolSeq <= y.spoolSeq
  {
  }

  lemma DrainStepKeepsInv(
    before: map<Topic, Entry>, d: Drain, d': Drain, work: seq<Batch>, good: seq<bool>, n: nat, failing: set<Topic>)
    requires n < |work| == |good| && WorkOrdered(work)
    requires work[n].cands != [] && work[n].topic in d.topics
    requires DrainInv(before, d, work, good, n)
    requires d' == DrainOne(d, work[n], good[n], failing)
    ensures DrainInv(before, d', work, good, n + 1)
  {
    var b := work[n];
    assert d'.topics.Keys == d.topics.Keys;
    forall m, x | 0 <= m < |work| && x in work[m].cands && work[m].topic in d'.topics && !After(x,
        d'.topics[work[m].topic])
      ensures !After(x, before[work[m].topic]) || (m <= n && good[m])
    {
      if After(x, d.topics[work[m].topic]) {
        assert work[m].topic == b.topic;
        AdvancePassesBatch(d.topics[b.topic], b.cands, b.topic !in failing, x);
        var y :| y in b.cands && x.spoolSeq <= y.spoolSeq;
        assert m <= n;
      }
    }
    forall t | t in d'.closed
      ensures exists i :: 0 <= i < n + 1 && work[i].topic == t
    {
      if t in d.closed {
        var i :| 0 <= i < n && work[i].topic == t;
      } else {
        assert work[n].topic == t;
      }
    }
  }

  lemma DrainedOneMore(topics: map<Topic, Entry>, work: seq<Batch>, good: seq<bool>, n: nat, failing: set<Topic>)
    requires n < |work| == |good| && WorkOrdered(work)
    requires forall i :: 0 <= i < |work| ==> work[i].cands != [] && work[i].topic in topics
    requires DrainInv(topics, DrainAll(topics, work, good, n, failing), work, good, n)
    ensures DrainInv(topics, DrainAll(topics, work, good, n + 1, failing), work, good, n + 1)
  {
    var d := DrainAll(topics, work, good, n, failing);
    DrainStepKeepsInv(topics, d, DrainOne(d, work[n], good[n], failing), work, good, n, failing);
  }

  /** What holds at the start and is kept by each step holds after all of them. */
  lemma {:induction false} StepByStep(holds: nat -> bool, n: nat)
    requires holds(0) && forall i: nat :: i < n && holds(i) ==> holds(i + 1)
    ensures holds(n)
  {
    if n > 0 {
      StepByStep(holds, n - 1);
      assert holds(n - 1 + 1);
    }
  }

  ghost function DrainedOk(topics: map<Topic, Entry>, work: seq<Batch>, good: seq<bool>, failing: set<Topic>)
    : nat -> bool
    requires |work| == |good|
    requires forall i :: 0 <= i < |work| ==> work[i].cands != [] && work[i].topic in topics
  {
    (n: nat) => n <= |work| && DrainInv(topics, DrainAll(topics, work, good, n, failing), work, good, n)
  }

  lemma DrainedNext(topics: map<Topic, Entry>, work: seq<Batch>, good: seq<bool>, n: nat, failing: set<Topic>)
    requires n < |work| == |good| && WorkOrdered(work)
    requires forall i :: 0 <= i < |work| ==> work[i].cands != [] && work[i].topic in topics
    ensures DrainedOk(topics, work, good, failing)(n) ==> DrainedOk(topics, work, good, failing)(n + 1)
  {
    if DrainedOk(topics, work, good, failing)(n) { DrainedOneMore(topics, work, good, n, failing); }
  }

  /** A cursor only ever passes candidates of settled batches. */
  lemma DrainPassesOnlySettled(
    topics: map<Topic, Entry>, work: seq<Batch>, good: seq<bool>, n: nat, failing: set<Topic>)
    requires n <= |work| == |good| && WorkOrdered(work)
    requires forall i :: 0 <= i < |work| ==> work[i].cands != [] && work[i].topic in topics
    ensures DrainInv(topics, DrainAll(topics, work, good, n, failing), work, good, n)
  {
    NothingDrained(topics, work, good);
    forall i: nat | i < n
      ensures DrainedOk(topics, work, good, failing)(i) ==> DrainedOk(topics, work, good, failing)(i + 1)
    {
      DrainedNext(topics, work, good, i, failing);
    }
    StepByStep(DrainedOk(topics, work, good, failing), n);
  }

  lemma NothingDrained(topics: map<Topic, Entry>, work: seq<Batch>, good: seq<bool>)
    requires |work| == |good| && forall i :: 0 <= i < |work| ==> work[i].topic in topics
    ensures DrainInv(topics, Drain(topics, {}), work, good, 0)
  {
  }

  ghost predicate NotBehind(e: Entry, e': Entry) {
    e.cursor.Some? ==> e'.cursor.Some? && e'.cursor.value >= e.cursor.value
  }

  /** The cursor loop never moves a cursor back, and leaves alone the lanes without a batch. */
  lemma {:induction false} DrainMovesForward(
    topics: map<Topic, Entry>, work: seq<Batch>, good: seq<bool>, n: nat, failing: set<Topic>, t: Topic)
    requires n <= |work| == |good| && t in topics
    requires forall i :: 0 <= i < |work| ==> work[i].cands != [] && work[i].topic in topics
    ensures NotBehind(topics[t], DrainAll(topics, work, good, n, failing).topics[t])
    ensures (forall i :: 0 <= i < n ==> work[i].topic != t) ==>
      DrainAll(topics, work, good, n, failing).topics[t] == topics[t]
  {
    if n > 0 {
      DrainMovesForward(topics, work, good, n - 1, failing, t);
      var d := DrainAll(topics, work, good, n - 1, failing);
      var d' := DrainOne(d, work[n - 1], good[n - 1], failing);
      assert d'.topics[t] == d.topics[t] || (work[n - 1].topic == t && NotBehind(d.topics[t], d'.topics[t]));
    }
  }

  lemma AdvanceSource(e: Entry, cands: seq<Candidate>, clear: bool)
    requires cands != []
    ensures var e' := Advance(e, cands, clear);
      e'.cursor == e.cursor || exists y :: y in cands && e'.cursor == Some(y.spoolSeq)
  {
    var m := MaxSeq(cands);
    var y :| y in cands && y.spoolSeq == m;
    assert Advance(e, cands, clear).cursor == e.cursor || Advance(e, cands, clear).cursor == Some(y.spoolSeq);
  }

  /** A cursor that moved stands on a candidate of a batch of its topic. */
  ghost predicate StandsOnBatch(e: Entry, e': Entry, t: Topic, work: seq<Batch>) {
    e'.cursor == e.cursor || exists n, y ::
      0 <= n < |work| && work[n].topic == t && y in work[n].cands && e'.cursor == Some(y.spoolSeq)
  }

  lemma {:induction false} DrainCursorSource(
    topics: map<Topic, Entry>, work: seq<Batch>, good: seq<bool>, n: nat, failing: set<Topic>, t: Topic)
    requires n <= |work| == |good| && t in topics
    requires forall i :: 0 <= i < |work| ==> work[i].cands != [] && work[i].topic in topics
    ensures StandsOnBatch(topics[t], DrainAll(topics, work, good, n, failing).topics[t], t, work)
  {
    if n > 0 {
      DrainCursorSource(topics, work, good, n - 1, failing, t);
      var b := work[n - 1];
      var e := DrainAll(topics, work, good, n - 1, failing).topics[t];
      AdvanceSource(e, b.cands, b.topic !in failing);
      if b.topic == t && Advance(e, b.cands, b.topic !in failing).cursor != e.cursor {
        var y :| y in b.cands && Advance(e, b.cands, b.topic !in failing).cursor == Some(y.spoolSeq);
        assert work[n - 1].topic == t && y in work[n - 1].cands;
      }
    }
  }
}
