/** Plans of the decider and the per-pass rules that decide which of them are carried out. */
module Plans {
  import opened Prelude
  import opened Text
  import opened Candidates

  datatype Action = Reply | React | NotifyOwner | Ignore | Wait | Remember | RememberEntity | Delegate

  datatype Want = WantUnset | WantYes | WantNo

  datatype Depth = DepthUnset | Quick | Deep

  datatype MemoryKind = NoMemory | SenderMemory | EntityMemory

  datatype Plan = Plan(
    mid: int, action: Action, text: string, emoji: string, reason: string, note: string, entity: string,
    want: Want, depth: Depth, selfIsAddressee: bool, memory: MemoryKind, chatId: string, delegated: bool)

  /**
   * One array item of the decider: the parsed plan, its text before sanitizing, and whether every
   * social label is there.
   */
  datatype Item = Item(plan: Plan, rawText: string, socialRead: bool)

  /** What one decider call returned. */
  datatype Answer = Undecodable | Items(items: seq<Item>)

  const MAX_REPLY_CHARS := 600
  const ADDRESSED_REPLIES_PER_CYCLE := 3
  const REMEMBER_PER_CYCLE := 2
  const DELEGATE_PER_CYCLE := 2
  const WAIT_MAX_ATTEMPTS := 3

  predicate AllowedEmoji(e: string) {
    || e == "\U{1F44D}" || e == "\U{1F525}" || e == "\U{2764}\U{FE0F}" || e == "\U{1F601}"
    || e == "\U{1F914}" || e == "\U{1F440}" || e == "\U{1F64F}"
  }

  predicate Blank(s: string) { Strip(s) == "" }

  predicate IsMemory(a: Action) { a == Remember || a == RememberEntity }

  /** Actions that say or show something outside the agent. */
  predicate Speaks(a: Action) { a == Reply || a == Delegate || a == React || a == NotifyOwner }

  /** Under which action a plan is logged once done: a delegated answer ends as a reply. */
  function Terminal(a: Action): Action { if a == Delegate then Reply else a }

  // ----- The contract a decider answer must meet ---------------------------------------

  predicate ItemValid(i: Item) {
    var p := i.plan;
    && i.socialRead
    && p.want != WantUnset
    && (p.action == Ignore ==> p.want == WantNo)
    && (Speaks(p.action) ==> p.want == WantYes)
    && (p.action == Reply ==> !Blank(i.rawText) && |Strip(i.rawText)| <= MAX_REPLY_CHARS)
    && (p.action == React ==> AllowedEmoji(p.emoji))
    && (p.action == NotifyOwner ==> !Blank(i.rawText) || !Blank(p.reason))
    && (p.action == Remember ==> !Blank(p.note))
    && (p.action == RememberEntity ==> !Blank(p.note) && !Blank(p.entity))
    && (p.memory == SenderMemory ==> !Blank(p.note))
    && (p.memory == EntityMemory ==> !Blank(p.note) && !Blank(p.entity))
  }

  function MidsOf(items: seq<Item>): set<int> { set i | i in items :: i.plan.mid }

  /** Exactly one well-formed assessment for each required message, and for nothing else. */
  predicate AnswerValid(a: Answer, required: set<int>) {
    && a.Items?
    && (forall i :: i in a.items ==> ItemValid(i))
    && (forall i, j :: 0 <= i < j < |a.items| ==> a.items[i].plan.mid != a.items[j].plan.mid)
    && MidsOf(a.items) == required
  }

  /** The parsed plans. Candidates of a pass carry no chat name, so neither do their plans. */
  function PlansOf(items: seq<Item>): seq<Plan> { Map((i: Item) => i.plan.(chatId := ""), items) }

  // ----- Per-batch policies ---------------------------------------------------------------

  /** With proactive presence paused only confirmed demand may lead to an action. */
  function AutonomyBoundary(plans: seq<Plan>, demanded: set<int>, proactiveOk: bool): seq<Plan> {
    Filter(plans, (p: Plan) => proactiveOk || !(Speaks(p.action) || IsMemory(p.action)) || p.mid in demanded)
  }

  /** The memory companion of a plan, if it asks for one. */
  function Companion(p: Plan): seq<Plan> {
    if p.memory == SenderMemory && p.note != "" && p.action != Remember then
      [p.(action := Remember, text := "", emoji := "", memory := NoMemory)]
    else if p.memory == EntityMemory && p.entity != "" && p.note != "" && p.action != RememberEntity then
      [p.(action := RememberEntity, text := "", emoji := "", memory := NoMemory)]
    else []
  }

  function ExpandMemory(plans: seq<Plan>): seq<Plan> {
    if plans == [] then [] else [plans[0]] + Companion(plans[0]) + ExpandMemory(plans[1..])
  }

  predicate Substantive(text: string) {
    var t := Strip(text);
    |t| >= 180 || ('?' in t && |t| >= 60)
  }

  /** A reply that deserves the deep composer is turned into a delegate plan. */
  function Deepen(p: Plan, cands: map<int, Candidate>, demanded: set<int>): Plan {
    if p.action == Reply
       && (p.depth == Deep
           || (p.mid in demanded && p.mid in cands
               && (cands[p.mid].truncated || Substantive(cands[p.mid].snippet))))
    then p.(action := Delegate)
    else p
  }

  function DepthPolicy(plans: seq<Plan>, cands: map<int, Candidate>, demanded: set<int>): seq<Plan> {
    Map((p: Plan) => Deepen(p, cands, demanded), Filter(plans, (p: Plan) => !(Speaks(p.action) && p.want == WantNo)))
  }

  /** A finished action is not done twice. */
  predicate AlreadyDone(p: Plan, completed: set<(int, Action)>) {
    p.action != Ignore && p.action != Wait && (p.mid, Terminal(p.action)) in completed
  }

  function DropDone(plans: seq<Plan>, completed: set<(int, Action)>): seq<Plan> {
    Filter(plans, (p: Plan) => !AlreadyDone(p, completed))
  }
}
