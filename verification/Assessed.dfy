/** Which answers of the decider count: every message assessed once and nothing else, or the batch is refused. */
module Assessed {
  import opened Prelude
  import opened Text
  import opened Candidates
  import opened Coalescing
  import opened Scheduling
  import opened Plans
  import opened TopicLanes
  import opened CarryOut
  import opened ChatPass
  import opened Quarantine

  // ----- What an answer has to be ----------------------------------------------------------------

  predicate Says(text: string) { Strip(text) != "" }

  predicate OnOffer(emoji: string) {
    emoji in {"\U{1F44D}", "\U{1F525}", "\U{2764}\U{FE0F}", "\U{1F601}", "\U{1F914}", "\U{1F440}", "\U{1F64F}"}
  }

  /** An item that says what its action needs, action by action. */
  predicate WellFormed(i: Item) {
    var p := i.plan;
    && i.socialRead && (p.want == WantYes || p.want == WantNo)
    && (match p.action
        case Ignore => p.want == WantNo
        case Wait => true
        case Reply => p.want == WantYes && Says(i.rawText) && |Strip(i.rawText)| <= 600
        case Delegate => p.want == WantYes
        case React => p.want == WantYes && OnOffer(p.emoji)
        case NotifyOwner => p.want == WantYes && (Says(i.rawText) || Says(p.reason))
        case Remember => Says(p.note)
        case RememberEntity => Says(p.note) && Says(p.entity))
    && (match p.memory
        case NoMemory => true
        case SenderMemory => Says(p.note)
        case EntityMemory => Says(p.note) && Says(p.entity))
  }

  /** One well-formed item is about this message, and no other item is. */
  ghost predicate AssessedOnce(items: seq<Item>, mid: int) {
    exists i :: 0 <= i < |items| && items[i].plan.mid == mid && WellFormed(items[i])
      && forall j :: 0 <= j < |items| && j != i ==> items[j].plan.mid != mid
  }

  /** Somebody else's message among `cands` has this id. */
  predicate AskedAbout(cands: seq<Candidate>, mid: int) { exists c :: c in cands && !c.fromMe && c.mid == mid }

  predicate LeftOut(items: seq<Item>, mid: int) { forall i :: 0 <= i < |items| ==> items[i].plan.mid != mid }

  /** What is wrong with an answer: no list, a message left out, named twice, or not asked about, or a bad item. */
  ghost predicate Flawed(answer: Answer, cands: seq<Candidate>) {
    || answer.Undecodable?
    || (exists c :: c in cands && !c.fromMe && LeftOut(answer.items, c.mid))
    || (exists i, j :: 0 <= i < j < |answer.items| && answer.items[i].plan.mid == answer.items[j].plan.mid)
    || (exists i :: 0 <= i < |answer.items| && !AskedAbout(cands, answer.items[i].plan.mid))
    || (exists i :: 0 <= i < |answer.items| && !WellFormed(answer.items[i]))
  }

  lemma ItemValidIsWellFormed(i: Item)
    ensures ItemValid(i) <==> WellFormed(i)
  {
  }

  lemma AllItemsWellFormed(items: seq<Item>)
    ensures (forall i :: i in items ==> ItemValid(i)) <==> forall i :: 0 <= i < |items| ==> WellFormed(items[i])
  {
    forall i | 0 <= i < |items| ensures ItemValid(items[i]) <==> WellFormed(items[i]) {
      ItemValidIsWellFormed(items[i]);
    }
  }

  lemma NamesAreRequired(items: seq<Item>, b: Batch)
    ensures MidsOf(items) == Required(b) <==>
      && (forall i :: 0 <= i < |items| ==> AskedAbout(b.cands, items[i].plan.mid))
      && (forall c :: c in b.cands && !c.fromMe ==> exists i :: 0 <= i < |items| && items[i].plan.mid == c.mid)
  {
    assert forall i :: 0 <= i < |items| ==> items[i].plan.mid in MidsOf(items);
    assert forall c :: c in b.cands && !c.fromMe ==> c.mid in Required(b);
    forall m ensures m in MidsOf(items) <==> exists i :: 0 <= i < |items| && items[i].plan.mid == m {
      if x :| x in items && x.plan.mid == m { var i :| 0 <= i < |items| && items[i] == x; }
    }
    forall m ensures m in Required(b) <==> AskedAbout(b.cands, m) { }
  }

  lemma ValidIsFlawless(answer: Answer, b: Batch)
    ensures AnswerValid(answer, Required(b)) <==> !Flawed(answer, b.cands)
  {
    if answer.Items? {
      AllItemsWellFormed(answer.items);
      NamesAreRequired(answer.items, b);
    }
  }

  lemma FlawlessAssesses(items: seq<Item>, cands: seq<Candidate>, c: Candidate)
    requires !Flawed(Items(items), cands) && c in cands && !c.fromMe
    ensures AssessedOnce(items, c.mid)
  {
    var i :| 0 <= i < |items| && items[i].plan.mid == c.mid;
    assert WellFormed(items[i]);
  }

  // ----- What it does to its batch ---------------------------------------------------------------

  lemma JudgedByFlaws(e: Eval, b: Batch, answer: Answer, ctx: Context)
    requires b.cands != [] && Evaluated(Judge(e, b, answer, ctx).status)
    ensures Judge(e, b, answer, ctx).status == Valid <==> !Flawed(answer, b.cands)
  {
    ValidIsFlawless(answer, b);
  }

  /**
   * A batch for which the decider was asked counts as answered exactly when each message of it that
   * somebody else wrote got one well-formed item, and no item is about anything else; otherwise the
   * answer is a strike.
   */
  lemma ValidExactlyWhen(topics: map<Topic, Entry>, chatCursor: Option<nat>, calls: nat, now: int, w: World, k: nat)
    requires k < |WorkBatches(LanesOf(MergedOf(topics, chatCursor, w)))|
    requires Evaluated(Evaluation(topics, chatCursor, calls, now, w).statuses[k])
    ensures var cands, s := WorkBatches(LanesOf(MergedOf(topics, chatCursor, w)))[k].cands,
        Evaluation(topics, chatCursor, calls, now, w).statuses[k];
      && (s == Valid <==> !Flawed(w.decide(k), cands))
      && (s == Invalid || s == Quarantined <==> Flawed(w.decide(k), cands))
      && (s == Valid ==>
            && (forall c :: c in cands && !c.fromMe ==> AssessedOnce(w.decide(k).items, c.mid))
            && (forall i :: 0 <= i < |w.decide(k).items| ==> AskedAbout(cands, w.decide(k).items[i].plan.mid)))
  {
    var merged := MergedOf(topics, chatCursor, w);
    var work, ctx := WorkBatches(LanesOf(merged)), ContextOf(merged, chatCursor, now, w);
    var judge, start := Judging(work, w.decide, ctx), Start(OpenTopics(topics, chatCursor, FromRows(w.rows)), calls);
    WorkHasCandidates(merged);
    StatusOf(start, work, |work|, judge, k);
    JudgedByFlaws(EvalAll(start, work, k, judge), work[k], w.decide(k), ctx);
    if Evaluation(topics, chatCursor, calls, now, w).statuses[k] == Valid {
      forall c | c in work[k].cands && !c.fromMe ensures AssessedOnce(w.decide(k).items, c.mid) {
        FlawlessAssesses(w.decide(k).items, work[k].cands, c);
      }
    }
  }

  /**
   * The row's message was assessed, or given up: the candidate its burst became is in a batch that
   * was quarantined, or whose answer has one well-formed item about it.
   */
  ghost predicate Weighed(topics: map<Topic, Entry>, chatCursor: Option<nat>, calls: nat, now: int, w: World,
      c: Candidate) {
    WeighedAmong(GroupsOf(topics, chatCursor, w), WorkBatches(LanesOf(MergedOf(topics, chatCursor, w))),
                 Evaluation(topics, chatCursor, calls, now, w).statuses, w.decide, c)
  }

  ghost predicate WeighedAmong(groups: seq<seq<Candidate>>, work: seq<Batch>, statuses: seq<Status>,
      decide: nat -> Answer, c: Candidate) {
    exists i: nat, k: nat ::
      i < |groups| && groups[i] != [] && c in groups[i] && k < |work| && k < |statuses|
      && Merge(groups[i]) in work[k].cands
      && (statuses[k] == Quarantined || (statuses[k] == Valid && Covered(decide(k), Merge(groups[i]))))
  }

  /** The agent's own messages are context and need no item. */
  ghost predicate Covered(answer: Answer, m: Candidate) {
    m.fromMe || (answer.Items? && AssessedOnce(answer.items, m.mid))
  }

  /** A batch the cursor may pass was answered or given up. */
  lemma PassedBatch(topics: map<Topic, Entry>, chatCursor: Option<nat>, budget: Budget, calls: nat, now: int, w: World,
      k: nat)
    requires k < |RunPass(topics, chatCursor, budget, calls, now, w).work|
    requires RunPass(topics, chatCursor, budget, calls, now, w).good[k]
    ensures k < |Evaluation(topics, chatCursor, calls, now, w).statuses|
    ensures var s := Evaluation(topics, chatCursor, calls, now, w).statuses[k]; s == Valid || s == Quarantined
  {
  }

  lemma BatchWeighs(topics: map<Topic, Entry>, chatCursor: Option<nat>, calls: nat, now: int, w: World, c: Candidate,
      i: nat, k: nat)
    requires i < |GroupsOf(topics, chatCursor, w)| && GroupsOf(topics, chatCursor, w)[i] != []
    requires c in GroupsOf(topics, chatCursor, w)[i] && k < |WorkBatches(LanesOf(MergedOf(topics, chatCursor, w)))|
    requires Merge(GroupsOf(topics, chatCursor, w)[i]) in WorkBatches(LanesOf(MergedOf(topics, chatCursor, w)))[k].cands
    requires var s := Evaluation(topics, chatCursor, calls, now, w).statuses[k]; s == Valid || s == Quarantined
    ensures Weighed(topics, chatCursor, calls, now, w, c)
  {
    ValidCovers(topics, chatCursor, calls, now, w, Merge(GroupsOf(topics, chatCursor, w)[i]), k);
    WeighsAt(GroupsOf(topics, chatCursor, w), WorkBatches(LanesOf(MergedOf(topics, chatCursor, w))),
             Evaluation(topics, chatCursor, calls, now, w).statuses, w.decide, c, i, k);
  }

  lemma WeighsAt(groups: seq<seq<Candidate>>, work: seq<Batch>, statuses: seq<Status>, decide: nat -> Answer,
      c: Candidate, i: nat, k: nat)
    requires i < |groups| && groups[i] != [] && c in groups[i] && k < |work| && k < |statuses|
    requires Merge(groups[i]) in work[k].cands && (statuses[k] == Valid || statuses[k] == Quarantined)
    requires statuses[k] == Valid ==> Covered(decide(k), Merge(groups[i]))
    ensures WeighedAmong(groups, work, statuses, decide, c)
  {
  }

  lemma ValidCovers(topics: map<Topic, Entry>, chatCursor: Option<nat>, calls: nat, now: int, w: World, m: Candidate,
      k: nat)
    requires k < |WorkBatches(LanesOf(MergedOf(topics, chatCursor, w)))|
    requires m in WorkBatches(LanesOf(MergedOf(topics, chatCursor, w)))[k].cands
    ensures Evaluation(topics, chatCursor, calls, now, w).statuses[k] == Valid ==> Covered(w.decide(k), m)
  {
    if Evaluation(topics, chatCursor, calls, now, w).statuses[k] == Valid {
      ValidExactlyWhen(topics, chatCursor, calls, now, w, k);
      AnsweredIsList(topics, chatCursor, calls, now, w, k);
    }
  }

  lemma AnsweredIsList(topics: map<Topic, Entry>, chatCursor: Option<nat>, calls: nat, now: int, w: World, k: nat)
    requires k < |WorkBatches(LanesOf(MergedOf(topics, chatCursor, w)))|
    requires Evaluation(topics, chatCursor, calls, now, w).statuses[k] == Valid
    ensures w.decide(k).Items?
  {
    ValidExactlyWhen(topics, chatCursor, calls, now, w, k);
  }

  /** Whatever a pass counts as judged was weighed. */
  lemma JudgedIsWeighed(topics: map<Topic, Entry>, chatCursor: Option<nat>, budget: Budget, calls: nat, now: int,
      w: World, c: Candidate)
    requires JudgedIn(RunPass(topics, chatCursor, budget, calls, now, w), c)
    ensures Weighed(topics, chatCursor, calls, now, w, c)
  {
    var p := RunPass(topics, chatCursor, budget, calls, now, w);
    var i: nat, k: nat :| i < |p.groups| && p.groups[i] != [] && c in p.groups[i]
      && k < |p.work| && Merge(p.groups[i]) in p.work[k].cands && p.good[k];
    PassedBatch(topics, chatCursor, budget, calls, now, w, k);
    BatchWeighs(topics, chatCursor, calls, now, w, c, i, k);
  }
}
