/** The mutable side of an engage cycle: the loops that change lanes, counters and the ledger in place. */
module EngageStore {
  import opened Prelude
  import opened Peers
  import opened Candidates
  import opened Coalescing
  import opened Scheduling
  import opened Plans
  import opened Ceilings
  import opened TopicLanes
  import opened CarryOut
  import opened ChatPass
  import opened Ledger

  /** The lanes and the collected answers of one chat's pass. */
  class LaneRun {
    var topics: map<Topic, Entry>
    var blocked: set<Topic>
    var calls: nat
    var remaining: nat
    var statuses: seq<Status>
    var held: set<int>
    var plans: seq<Plan>
    var demanded: set<int>

    ghost function Value(): Eval
      reads this
    {
      Eval(topics, blocked, calls, remaining, statuses, held, plans, demanded)
    }

    constructor (topics: map<Topic, Entry>, remaining: nat)
      ensures Value() == Start(topics, remaining)
    {
      this.topics, this.remaining := topics, remaining;
      blocked, calls, statuses, held, plans, demanded := {}, 0, [], {}, [], {};
    }

    /** Give every topic of the packet its lane. */
    method OpenLanes(cands: seq<Candidate>, chatCursor: Option<nat>)
      modifies this`topics
      ensures topics == OpenTopics(old(topics), chatCursor, cands)
    {
      ghost var before := topics;
      for i := 0 to |cands|
        invariant topics == OpenTopics(before, chatCursor, cands[..i])
      {
        assert cands[..i + 1][..i] == cands[..i];
        if cands[i].topic in topics {
          SameEntry(topics, cands[i].topic);
        } else {
          topics := topics[cands[i].topic := Entry(chatCursor, 0, None, None, 0)];
        }
      }
      assert cands[..|cands|] == cands;
    }

    /** Note what a batch's turn came to; a turn that asked the decider is paid for. */
    method Note(t: Topic, v: Verdict)
      modifies this
      ensures Value() == Record(old(Value()), t, v)
    {
      topics := topics[t := v.entry];
      if v.stop { blocked := blocked + {t}; }
      if Evaluated(v.status) {
        calls := calls + 1;
        if remaining > 0 { remaining := remaining - 1; }
      }
      statuses := statuses + [v.status];
      held, plans, demanded := held + v.held, plans + v.plans, demanded + v.demanded;
    }

    /** One batch: skip it, or ask the decider and take in the answer. */
    method EvaluateBatch(b: Batch, answer: Answer, ctx: Context)
      requires b.cands != []
      modifies this
      ensures Value() == Record(old(Value()), b.topic, Judge(old(Value()), b, answer, ctx))
    {
      var entry := EntryOf(topics, ctx.chatCursor, b.topic);
      if b.topic in blocked {
        Note(b.topic, Without(Blocked, entry, false));
      } else if RetryActive(entry, ctx.now) {
        Note(b.topic, Without(Backedoff, entry, true));
      } else if calls >= CALLS_PER_CHAT || remaining == 0 {
        Note(b.topic, Without(NoBudget, entry, false));
      } else if AnswerValid(answer, Required(b)) {
        Note(b.topic, Accept(b, entry, answer.items, ctx));
      } else {
        Note(b.topic, Reject(entry, ctx.now));
      }
    }

    method EvaluateBatches(work: seq<Batch>, decide: nat -> Answer, ctx: Context)
      requires forall i :: 0 <= i < |work| ==> work[i].cands != []
      modifies this
      ensures Value() == EvalAll(old(Value()), work, |work|, Judging(work, decide, ctx))
    {
      ghost var start, judge := Value(), Judging(work, decide, ctx);
      for i := 0 to |work|
        invariant Value() == EvalAll(start, work, i, judge)
      {
        ghost var before := Value();
        EvaluateBatch(work[i], decide(i), ctx);
        assert judge(before, i) == Judge(before, work[i], decide(i), ctx);
      }
    }

    /** One more failure for every lane a delivery failed in. */
    method NoteFailures(failed: set<Topic>, now: int)
      modifies this`topics
      ensures topics == FailTopics(old(topics), failed, now)
    {
      ghost var before := topics;
      var todo := failed;
      while todo != {}
        invariant todo <= failed
        invariant topics == FailTopics(before, failed - todo, now)
        decreases |todo|
      {
        var t :| t in todo;
        if t in topics { topics := topics[t := NoteFailure(topics[t], now).0]; }
        assert failed - (todo - {t}) == failed - todo + {t};
        todo := todo - {t};
      }
      assert failed - todo == failed;
    }

    /** One batch's turn: the lane moves over a settled batch, any other one closes it. */
    method DrainCursor(b: Batch, settled: bool, failing: set<Topic>, pending: set<Topic>) returns (after: set<Topic>)
      requires b.cands != [] && b.topic in topics
      modifies this`topics
      ensures Drain(topics, after) == DrainOne(Drain(old(topics), pending), b, settled, failing)
    {
      after := pending;
      if b.topic !in pending && settled {
        topics := topics[b.topic := Advance(topics[b.topic], b.cands, b.topic !in failing)];
      } else {
        after := after + {b.topic};
      }
    }

    /** Advance lane by lane while a lane's batches were all settled; the rest stays pending. */
    method DrainCursors(work: seq<Batch>, deferred: set<int>, failing: set<Topic>) returns (pending: set<Topic>)
      requires |statuses| == |work|
      requires forall i :: 0 <= i < |work| ==> work[i].cands != [] && work[i].topic in topics
      modifies this`topics
      ensures Drain(topics, pending) ==
        DrainAll(old(topics), work, SettledFlags(work, statuses, deferred), |work|, failing)
    {
      ghost var before, good := topics, SettledFlags(work, statuses, deferred);
      pending := {};
      for i := 0 to |work|
        invariant Drain(topics, pending) == DrainAll(before, work, good, i, failing)
      {
        pending := DrainCursor(work[i], Settled(work[i], statuses[i], deferred), failing, pending);
      }
    }
  }

  lemma SameEntry(topics: map<Topic, Entry>, t: Topic)
    requires t in topics
    ensures topics[t := topics[t]] == topics
  {
  }

  /** The counters and outcomes of the plans being applied. */
  class ActionRun {
    var budget: Budget
    var completed: set<(int, Action)>
    var buried: set<(int, Action)>
    var deferred: set<int>
    var failed: set<int>
    var acted: nat

    ghost function Value(): Applied
      reads this
    {
      Applied(budget, completed, buried, deferred, failed, acted)
    }

    constructor (budget: Budget, completed: set<(int, Action)>)
      ensures Value() == Applied(budget, completed, {}, {}, {}, 0)
    {
      this.budget, this.completed := budget, completed;
      buried, deferred, failed, acted := {}, {}, {}, 0;
    }

    /** One plan: skip it, put it off, or act and book what came of it. */
    method ApplyPlan(p: Plan, desk: Desk, o: Outcome)
      modifies this
      ensures Value() == Book(old(Value()), p, DidOf(old(Value()), p, desk, o), p.mid in desk.demanded)
    {
      var isAddressed := p.mid in desk.demanded;
      var did := DidOf(Applied(budget, completed, buried, deferred, failed, acted), p, desk, o);
      match did {
        case AsIs =>
        case Unkept =>
        case Done =>
          completed := completed + {(p.mid, p.action)};
          budget := Count(budget, p.action, isAddressed);
          if p.action == Reply || p.action == React { acted := acted + 1; }
        case PutOffCap => deferred := deferred + {p.mid};
        case Failed => failed := failed + {p.mid};
        case Buried => buried := buried + {(p.mid, p.action)};
      }
    }

    method ApplyPlans(plans: seq<Plan>, desk: Desk)
      modifies this
      ensures Value() == ApplyAll(old(Value()), plans, |plans|, desk)
    {
      ghost var start := Value();
      for i := 0 to |plans|
        invariant Value() == ApplyAll(start, plans, i, desk)
      {
        ApplyPlan(plans[i], desk, desk.outcome(i));
      }
    }
  }

  /** From the collected answers to the actions: ceilings, composer, scene, delivery. */
  method ActOn(ev: Eval, merged: seq<Candidate>, budget: Budget, w: World) returns (acts: Acts)
    ensures acts == Act(ev, merged, budget, w)
  {
    var cands := ById(merged);
    var allowed := set c | c in merged && !c.fromMe :: c.mid;
    var admitted, deferred := ValidateActions(ev.plans, ev.demanded, _ => false);
    var kept := Filter(admitted, (p: Plan) => p.mid in allowed);
    var resolved, postponed := ResolveDelegates(kept, cands.Keys, w.completed, w.compose);
    var plans := InScene(resolved, w.scene, cands);
    var run := new ActionRun(budget, w.completed);
    run.ApplyPlans(plans, Desk(CapsOf(w.overrides), ev.demanded, w.hasOwner, w.hasHandle, w.outcome));
    acts := Acts(run.budget,
                 deferred + ev.held + postponed + OutOfScene(resolved, w.scene, cands) + run.deferred + run.failed,
                 run.failed, run.completed, run.buried);
  }

  /** Fetch, coalesce, cut into batches and ask the decider. */
  method Evaluate(topics: map<Topic, Entry>, chatCursor: Option<nat>, calls: nat, now: int, w: World)
    returns (run: LaneRun, merged: seq<Candidate>, work: seq<Batch>)
    ensures fresh(run) && merged == MergedOf(topics, chatCursor, w) && work == WorkBatches(LanesOf(merged))
    ensures run.Value() == Evaluation(topics, chatCursor, calls, now, w)
  {
    var rows := FromRows(w.rows);
    run := new LaneRun(topics, calls);
    run.OpenLanes(rows, chatCursor);
    var unread := Filter(rows, (c: Candidate) => After(c, EntryOf(topics, chatCursor, c.topic)));
    merged := Coalesce(unread, MAX_GAP, MAX_JOIN);
    GroupsAreBursts(unread);
    assert merged == MergedOf(topics, chatCursor, w);
    work := BuildWork(LanesOf(merged));
    WorkHasCandidates(merged);
    run.EvaluateBatches(work, w.decide, ContextOf(merged, chatCursor, now, w));
  }

  /** Note the failed deliveries and move the cursors. */
  method SettleLanes(run: LaneRun, merged: seq<Candidate>, work: seq<Batch>, acts: Acts, now: int)
      returns (pending: set<Topic>)
    requires |run.statuses| == |work| && forall i :: 0 <= i < |work| ==>
      work[i].cands != [] && work[i].topic in run.topics
    modifies run
    ensures run.calls == old(run.calls)
    ensures var ev := old(run.Value());
      Drain(run.topics, pending) ==
        DrainAll(Noted(ev, merged, acts, now), work, SettledFlags(work, ev.statuses, acts.deferred), |work|,
                                             InvalidTopics(work, ev.statuses) + FailedTopics(merged, acts.failed))
  {
    var failedTopics := set c | c in merged && c.mid in acts.failed :: c.topic;
    assert failedTopics == FailedTopics(merged, acts.failed);
    run.NoteFailures(failedTopics, now);
    pending := run.DrainCursors(work, acts.deferred, InvalidTopics(work, run.statuses) + failedTopics);
  }

  /** What a pass leaves behind, given its evaluation and actions. */
  lemma PassLeaves(topics: map<Topic, Entry>, chatCursor: Option<nat>, w: World, ev: Eval, acts: Acts, now: int,
      work: seq<Batch>)
    requires Fits(ev, topics, chatCursor, w) && work == WorkBatches(LanesOf(MergedOf(topics, chatCursor, w)))
    ensures forall i :: 0 <= i < |work| ==> work[i].cands != [] && work[i].topic in ev.topics
    ensures var merged, p := MergedOf(topics, chatCursor, w), PassWith(topics, chatCursor, w, ev, acts, now);
      && p.budget == acts.budget && p.calls == ev.calls
      && Drain(p.topics, p.pending) ==
        DrainAll(Noted(ev, merged, acts, now), work, SettledFlags(work, ev.statuses, acts.deferred), |work|,
                                                InvalidTopics(work, ev.statuses) + FailedTopics(merged, acts.failed))
  {
    WorkFits(ev, topics, chatCursor, w, work);
  }

  /** One pass over one chat; what it leaves in the lanes, the counters and the cycle's purse. */
  method RunChatPass(topics: map<Topic, Entry>, chatCursor: Option<nat>, budget: Budget, calls: nat, now: int, w: World)
    returns (done: Brief)
    ensures done == BriefOf(RunPass(topics, chatCursor, budget, calls, now, w))
  {
    var run, merged, work := Evaluate(topics, chatCursor, calls, now, w);
    var ev := Eval(run.topics, run.blocked, run.calls, run.remaining, run.statuses, run.held, run.plans, run.demanded);
    var acts := ActOn(ev, merged, budget, w);
    PassLeaves(topics, chatCursor, w, ev, acts, now, work);
    var pending := SettleLanes(run, merged, work, acts, now);
    done := Brief(run.topics, acts.budget, run.calls, pending);
  }

  /** The lasting results of a pass. */
  datatype Brief = Brief(lanes: map<Topic, Entry>, budget: Budget, calls: nat, pending: set<Topic>)

  function BriefOf(p: Pass): Brief { Brief(p.topics, p.budget, p.calls, p.pending) }

  lemma StoreBrief(l: Led, chat: string, calls: nat, maxSeq: nat, p: Pass, done: Brief)
    requires done == BriefOf(p)
    ensures var e := EntryFor(l, chat);
      var cursor := if done.pending == {} && maxSeq > 0 then Further(Some(maxSeq), e.cursor) else e.cursor;
      AfterPass(l, chat, calls, maxSeq, p) ==
        (Store(l, chat, e.(topics := done.lanes, cursor := cursor, retries := 0, retryAt := None), done.budget),
         if done.calls <= calls then calls - done.calls else 0)
  {
  }

  // ----- The ledger -------------------------------------------------------------------------------

  class EngageLedger {
    var day: int
    var reply: nat
    var react: nat
    var addressed: nat
    var chats: map<string, ChatEntry>
    var legacy: Option<nat>

    ghost function Value(): Led
      reads this
    {
      Led(day, reply, react, addressed, chats, legacy)
    }

    constructor (l: Led)
      ensures Value() == l
    {
      day, reply, react, addressed, chats, legacy := l.day, l.reply, l.react, l.addressed, l.chats, l.legacy;
    }

    /** Fold the alias spellings of each chat into one entry. */
    method NormalizePerChat(order: seq<string>)
      requires forall k :: k in order ==> k in chats
      modifies this`chats
      ensures chats == Normalized(old(chats), order)
    {
      var raw := chats;
      var merged: map<string, ChatEntry> := map[];
      for i := 0 to |order|
        invariant merged == Normalized(raw, order[..i])
      {
        assert order[..i + 1][..i] == order[..i];
        var chat := KeyOf(order[i]);
        merged := merged[chat := if chat in merged then MergeChats(merged[chat], raw[order[i]]) else raw[order[i]]];
      }
      assert order[..|order|] == order;
      chats := merged;
    }

    /** A new day: counters start over, cursors, deadlines and lanes stay. */
    method RollDay(today: int)
      modifies this
      ensures Value() == Rolled(old(Value()), today)
    {
      if day == today { return; }
      var kept: map<string, ChatEntry> := map[];
      var todo := chats.Keys;
      while todo != {}
        invariant todo <= chats.Keys && chats == old(chats) && legacy == old(legacy) && day == old(day)
        invariant kept == map k | k in chats && k !in todo && Kept(chats[k]) :: RollChat(chats[k], today)
        decreases |todo|
      {
        var k :| k in todo;
        if Kept(chats[k]) { kept := kept[k := RollChat(chats[k], today)]; }
        todo := todo - {k};
      }
      day, reply, react, addressed, chats := today, 0, 0, 0, kept;
    }

    /** A pass that ran to its end; the chat cursor follows the packet only if nothing is pending. */
    method RunTurn(chat: string, calls: nat, now: int, w: World) returns (left: nat)
      modifies this
      ensures (Value(), left) == AfterPass(old(Value()), chat, calls, w.maxSeq,
          PassOf(old(Value()), chat, calls, now, w))
    {
      var e := if chat in chats then chats[chat] else EMPTY_CHAT.(day := day);
      var done := RunChatPass(e.topics, e.cursor, Budget(reply, addressed, react, e.replies, e.addressed), calls,
          now, w);
      StoreBrief(Value(), chat, calls, w.maxSeq, PassOf(Value(), chat, calls, now, w), done);
      var cursor := if done.pending == {} && w.maxSeq > 0 then Further(Some(w.maxSeq), e.cursor) else e.cursor;
      Book(chat, e.(topics := done.lanes, cursor := cursor, retries := 0, retryAt := None), done.budget);
      left := if done.calls <= calls then calls - done.calls else 0;
    }

    /** A pass that broke off: its lanes and counters count, and the chat waits. */
    method BreakTurn(chat: string, now: int, topics: map<Topic, Entry>, spent: Budget)
      modifies this
      ensures Value() == AfterBreak(old(Value()), chat, now, topics, spent)
    {
      var e := if chat in chats then chats[chat] else EMPTY_CHAT.(day := day);
      var retries := Min(RETRY_LIMIT, e.retries + 1);
      Book(chat, e.(topics := topics, retries := retries, retryAt := Some(now + ChatBackoff(retries))), spent);
    }

    /** One chat's turn in the cycle. */
    method Turn(chat: string, calls: nat, now: int, turn: Turn) returns (left: nat)
      modifies this
      ensures (Value(), left) == TakeTurn(old(Value()), chat, calls, now, turn)
    {
      var e := if chat in chats then chats[chat] else EMPTY_CHAT.(day := day);
      left := calls;
      if e.retryAt.Some? && now < e.retryAt.value {
        chats := chats[chat := e];
        return;
      }
      match turn {
        case Idle => chats := chats[chat := e.(retries := 0, retryAt := None)];
        case Broken(topics, spent, remaining) =>
          BreakTurn(chat, now, topics, spent);
          left := remaining;
        case Ran(w) => left := RunTurn(chat, calls, now, w);
      }
    }

    method Book(chat: string, e: ChatEntry, b: Budget)
      modifies this
      ensures Value() == Store(old(Value()), chat, e, b)
    {
      reply, addressed, react := b.reply, b.addressed, b.react;
      chats := chats[chat := e.(replies := b.chatReply, addressed := b.chatAddressed)];
    }

    /** One cycle over the configured chats, all paid from one purse of decider calls. */
    method RunCycle(order: seq<string>, today: int, names: seq<string>, now: int, turns: nat -> Turn)
        returns (left: nat)
      requires Lists(order, chats)
      modifies this
      ensures (Value(), left) ==
        Cycle(Rolled(old(Value()).(chats := Normalized(old(chats), order)), today), |names|, Taking(names, now, turns))
    {
      NormalizePerChat(order);
      RollDay(today);
      ghost var start, take := Value(), Taking(names, now, turns);
      left := CALLS_PER_CYCLE;
      for i := 0 to |names|
        invariant (Value(), left) == Cycle(start, i, take)
      {
        left := Turn(names[i], left, now, turns(i));
      }
    }
  }

  function Taking(names: seq<string>, now: int, turns: nat -> Turn): (Led, nat, nat) -> (Led, nat) {
    (l: Led, left: nat, i: nat) => if i < |names| then TakeTurn(l, names[i], left, now, turns(i)) else (l, left)
  }

  /** The ledger and the remaining decider calls after the first `n` chats. */
  function Cycle(l: Led, n: nat, take: (Led, nat, nat) -> (Led, nat)): (Led, nat) {
    if n == 0 then (l, CALLS_PER_CYCLE)
    else
      var (before, left) := Cycle(l, n - 1, take);
      take(before, left, n - 1)
  }

  /** No broken turn of the cycle spent more than it could. */
  ghost predicate TurnsOk(l: Led, names: seq<string>, now: int, turns: nat -> Turn) {
    var take := Taking(names, now, turns);
    forall i :: 0 <= i < |names| ==> TurnOk(Cycle(l, i, take).0, names[i], Cycle(l, i, take).1, turns(i))
  }

  function Costing(names: seq<string>, now: int, turns: nat -> Turn): (Led, nat, nat) -> nat {
    (l: Led, left: nat, i: nat) => if i < |names| then CallsOf(l, names[i], left, now, turns(i)) else 0
  }

  /** The decider calls made by the first `n` chats of a cycle. */
  function CallsMade(l: Led, n: nat, take: (Led, nat, nat) -> (Led, nat), cost: (Led, nat, nat) -> nat): nat {
    if n == 0 then 0
    else
      var (before, left) := Cycle(l, n - 1, take);
      CallsMade(l, n - 1, take, cost) + cost(before, left, n - 1)
  }

  lemma TurnStep(l: Led, left: nat, names: seq<string>, i: nat, now: int, turns: nat -> Turn)
    requires i < |names| && BooksOk(l) && TurnOk(l, names[i], left, turns(i))
    ensures var (l', left') := Taking(names, now, turns)(l, left, i);
      BooksOk(l') && left' + Costing(names, now, turns)(l, left, i) == left
  {
    TurnKeepsBooks(l, names[i], left, now, turns(i));
  }

  lemma {:induction false} CycleSteps(
    l: Led, n: nat, take: (Led, nat, nat) -> (Led, nat), cost: (Led, nat, nat) -> nat)
    requires BooksOk(l)
    requires forall i: nat :: i < n && BooksOk(Cycle(l, i, take).0) ==>
      PaidStep(Cycle(l, i, take), Cycle(l, i + 1, take), cost(Cycle(l, i, take).0, Cycle(l, i, take).1, i))
    ensures BooksOk(Cycle(l, n, take).0) && Cycle(l, n, take).1 + CallsMade(l, n, take, cost) == 8
  {
    if n > 0 {
      CycleSteps(l, n - 1, take, cost);
      assert BooksOk(Cycle(l, n - 1, take).0);
    }
  }

  /** A turn that leaves good books and paid for its calls. */
  ghost predicate PaidStep(before: (Led, nat), after: (Led, nat), calls: nat) {
    BooksOk(after.0) && after.1 + calls == before.1
  }

  /**
   * However its turns go, a cycle keeps the books, and what is left in its purse and the decider
   * calls its chats made are together the eight it started with.
   */
  lemma CycleKeepsBooks(l: Led, names: seq<string>, now: int, turns: nat -> Turn)
    requires BooksOk(l) && TurnsOk(l, names, now, turns)
    ensures var take, cost := Taking(names, now, turns), Costing(names, now, turns);
      && BooksOk(Cycle(l, |names|, take).0)
      && Cycle(l, |names|, take).1 + CallsMade(l, |names|, take, cost) == 8
  {
    var take, cost := Taking(names, now, turns), Costing(names, now, turns);
    forall i: nat | i < |names| && BooksOk(Cycle(l, i, take).0)
      ensures PaidStep(Cycle(l, i, take), Cycle(l, i + 1, take), cost(Cycle(l, i, take).0, Cycle(l, i, take).1, i))
    {
      TurnStep(Cycle(l, i, take).0, Cycle(l, i, take).1, names, i, now, turns);
      assert Cycle(l, i + 1, take) == take(Cycle(l, i, take).0, Cycle(l, i, take).1, i);
    }
    CycleSteps(l, |names|, take, cost);
  }
}
