/** Per-pass action ceilings. */
module Ceilings {
  import opened Prelude
  import opened Text
  import opened Plans

  /** The plans let through so far and the messages put off to a later pass. */
  datatype Admission = Admission(out: seq<Plan>, deferred: set<int>)

  function CountMemory(ps: seq<Plan>): nat {
    if ps == [] then 0 else CountMemory(ps[..|ps| - 1]) + (if IsMemory(ps[|ps| - 1].action) then 1 else 0)
  }

  function CountDelegate(ps: seq<Plan>): nat {
    if ps == [] then 0 else CountDelegate(ps[..|ps| - 1]) + (if ps[|ps| - 1].action == Delegate then 1 else 0)
  }

  function CountReplies(ps: seq<Plan>, addressed: set<int>, wanted: bool): nat {
    if ps == [] then 0
    else
      var p := ps[|ps| - 1];
      CountReplies(ps[..|ps| - 1], addressed, wanted)
      + (if p.action == Reply && (p.mid in addressed) == wanted then 1 else 0)
  }

  /** A draft as the reply rule sees it: sendable in one message, empty, or too long. */
  datatype Draft = FitDraft(text: string) | BlankDraft | LongDraft

  function DraftOf(text: string): Draft {
    var t := Strip(text);
    if t == "" then BlankDraft else if |t| > MAX_REPLY_CHARS then LongDraft else FitDraft(t)
  }

  function Prefix600(s: string): string { if |s| <= MAX_REPLY_CHARS then s else s[..MAX_REPLY_CHARS] }

  predicate PlanPaused(p: Plan, paused: string -> bool) { p.chatId != "" && paused(p.chatId) }

  /** What a plan asks of the pass, content already judged. */
  datatype Need = Nothing | Free(entry: Plan) | ReplySlot(text: string) | MemorySlot | DelegateSlot(draft: Draft)

  function NeedOf(p: Plan, paused: string -> bool): Need {
    if PlanPaused(p, paused) then Nothing
    else match p.action
      case Ignore => Nothing
      case Wait => Nothing
      case Reply => if DraftOf(p.text).FitDraft? then ReplySlot(DraftOf(p.text).text) else Nothing
      case React => if AllowedEmoji(p.emoji) then Free(p) else Nothing
      case NotifyOwner => Free(p.(text := Prefix600(p.text)))
      case Remember => if Blank(p.note) then Nothing else MemorySlot
      case RememberEntity => if Blank(p.note) || Blank(p.entity) then Nothing else MemorySlot
      case Delegate => DelegateSlot(DraftOf(p.text))
  }

  /** What the pass does with one plan. */
  datatype Effect = Skip | PutOff | Enter(entry: Plan)

  function ReplyCeiling(isAddressed: bool): nat { if isAddressed then ADDRESSED_REPLIES_PER_CYCLE else 1 }

  function ReplyEffect(out: seq<Plan>, p: Plan, text: string, addressed: set<int>): Effect {
    if CountReplies(out, addressed, p.mid in addressed) >= ReplyCeiling(p.mid in addressed) then PutOff
    else Enter(p.(action := Reply, text := text))
  }

  function EffectOf(out: seq<Plan>, p: Plan, need: Need, addressed: set<int>): Effect {
    match need
    case Nothing => Skip
    case Free(entry) => Enter(entry)
    case ReplySlot(text) => ReplyEffect(out, p, text, addressed)
    case MemorySlot => if CountMemory(out) >= REMEMBER_PER_CYCLE then PutOff else Enter(p)
    case DelegateSlot(draft) =>
      if CountDelegate(out) < DELEGATE_PER_CYCLE then Enter(p)
      else match draft
        case FitDraft(text) => ReplyEffect(out, p, text, addressed)
        case BlankDraft => PutOff
        case LongDraft => Skip
  }

  function Apply(st: Admission, mid: int, e: Effect): Admission {
    match e
    case Skip => st
    case PutOff => st.(deferred := st.deferred + {mid})
    case Enter(q) => st.(out := st.out + [q])
  }

  function Admit(st: Admission, p: Plan, addressed: set<int>, paused: string -> bool): Admission {
    Apply(st, p.mid, EffectOf(st.out, p, NeedOf(p, paused), addressed))
  }

  function AdmitAll(plans: seq<Plan>, addressed: set<int>, paused: string -> bool): Admission {
    if plans == [] then Admission([], {})
    else Admit(AdmitAll(plans[..|plans| - 1], addressed, paused), plans[|plans| - 1], addressed, paused)
  }

  /** The pass keeps running counters instead of counting the output again for each plan. */
  method ValidateActions(plans: seq<Plan>, addressed: set<int>, paused: string -> bool)
    returns (out: seq<Plan>, deferred: set<int>)
    ensures AdmitAll(plans, addressed, paused) == Admission(out, deferred)
  {
    out, deferred := [], {};
    var addressedReplies: nat, unaddressedReplies: nat, memory: nat, delegates: nat := 0, 0, 0, 0;
    for i := 0 to |plans|
      invariant AdmitAll(plans[..i], addressed, paused) == Admission(out, deferred)
      invariant addressedReplies == CountReplies(out, addressed, true)
      invariant unaddressedReplies == CountReplies(out, addressed, false)
      invariant memory == CountMemory(out) && delegates == CountDelegate(out)
    {
      var p := plans[i];
      assert plans[..i + 1][..i] == plans[..i];
      var used := if p.mid in addressed then addressedReplies else unaddressedReplies;
      var effect := Decide(out, p, NeedOf(p, paused), addressed, used, memory, delegates);
      match effect {
        case Skip =>
        case PutOff => deferred := deferred + {p.mid};
        case Enter(q) =>
          OneMore(out, q, addressed, true);
          OneMore(out, q, addressed, false);
          out := out + [q];
          if q.action == Reply {
            if q.mid in addressed {
              addressedReplies := addressedReplies + 1;
            } else {
              unaddressedReplies := unaddressedReplies + 1;
            }
          }
          if IsMemory(q.action) { memory := memory + 1; }
          if q.action == Delegate { delegates := delegates + 1; }
      }
    }
    assert plans[..|plans|] == plans;
  }

  method Decide(ghost out: seq<Plan>, p: Plan, need: Need, addressed: set<int>, used: nat, memory: nat, delegates: nat)
    returns (e: Effect)
    requires used == CountReplies(out, addressed, p.mid in addressed)
    requires memory == CountMemory(out) && delegates == CountDelegate(out)
    ensures e == EffectOf(out, p, need, addressed)
  {
    var reply: Option<string> := None;
    match need {
      case Nothing => e := Skip;
      case Free(entry) => e := Enter(entry);
      case ReplySlot(text) => e, reply := Skip, Some(text);
      case MemorySlot => e := if memory >= REMEMBER_PER_CYCLE then PutOff else Enter(p);
      case DelegateSlot(draft) =>
        if delegates < DELEGATE_PER_CYCLE {
          e := Enter(p);
        } else {
          e := if draft.BlankDraft? then PutOff else Skip;
          if draft.FitDraft? { reply := Some(draft.text); }
        }
    }
    if reply.Some? {
      e := if used >= ReplyCeiling(p.mid in addressed) then PutOff else Enter(p.(action := Reply, text := reply.value));
    }
  }

  lemma OneMore(ps: seq<Plan>, p: Plan, addressed: set<int>, wanted: bool)
    ensures CountMemory(ps + [p]) == CountMemory(ps) + (if IsMemory(p.action) then 1 else 0)
    ensures CountDelegate(ps + [p]) == CountDelegate(ps) + (if p.action == Delegate then 1 else 0)
    ensures CountReplies(ps + [p], addressed, wanted)
            == CountReplies(ps, addressed, wanted)
               + (if p.action == Reply && (p.mid in addressed) == wanted then 1 else 0)
  {
    assert (ps + [p])[..|ps|] == ps;
  }

  ghost predicate WithinCeilings(out: seq<Plan>, addressed: set<int>) {
    && CountReplies(out, addressed, true) <= ADDRESSED_REPLIES_PER_CYCLE
    && CountReplies(out, addressed, false) <= 1
    && CountDelegate(out) <= DELEGATE_PER_CYCLE
    && CountMemory(out) <= REMEMBER_PER_CYCLE
  }

  /** A need only ever leads to an entry of its own kind. */
  ghost predicate NeedFits(p: Plan, need: Need) {
    && (need.Free? ==> need.entry.action == React || need.entry.action == NotifyOwner)
    && (need.MemorySlot? ==> IsMemory(p.action))
    && (need.DelegateSlot? ==> p.action == Delegate)
  }

  lemma NeedOfFits(p: Plan, paused: string -> bool)
    ensures NeedFits(p, NeedOf(p, paused))
  {
  }

  lemma EnterKeepsCeilings(out: seq<Plan>, p: Plan, need: Need, addressed: set<int>)
    requires WithinCeilings(out, addressed) && NeedFits(p, need) && EffectOf(out, p, need, addressed).Enter?
    ensures WithinCeilings(out + [EffectOf(out, p, need, addressed).entry], addressed)
  {
    var q := EffectOf(out, p, need, addressed).entry;
    OneMore(out, q, addressed, true);
    OneMore(out, q, addressed, false);
  }

  /** The ceilings of one pass, for any plan list. */
  lemma {:induction false} CeilingsHold(plans: seq<Plan>, addressed: set<int>, paused: string -> bool)
    ensures WithinCeilings(AdmitAll(plans, addressed, paused).out, addressed)
  {
    if plans != [] {
      var last := plans[|plans| - 1];
      CeilingsHold(plans[..|plans| - 1], addressed, paused);
      NeedOfFits(last, paused);
      var out := AdmitAll(plans[..|plans| - 1], addressed, paused).out;
      if EffectOf(out, last, NeedOf(last, paused), addressed).Enter? {
        EnterKeepsCeilings(out, last, NeedOf(last, paused), addressed);
      }
    }
  }

  /** What may happen to a speaking plan without leaving a trace: its content was unusable. */
  predicate Unusable(delegatesBefore: nat, p: Plan) {
    match p.action
    case Reply => !DraftOf(p.text).FitDraft?
    case React => !AllowedEmoji(p.emoji)
    case Delegate => delegatesBefore >= DELEGATE_PER_CYCLE && DraftOf(p.text).LongDraft?
    case _ => false
  }

  lemma UnusableNeed(n: nat, p: Plan, paused: string -> bool)
    requires Speaks(p.action) && !PlanPaused(p, paused)
    ensures var need := NeedOf(p, paused);
      && (Unusable(n, p) <==> need.Nothing? || (need == DelegateSlot(LongDraft) && n >= DELEGATE_PER_CYCLE))
      && (need.Free? ==> need.entry.mid == p.mid && need.entry.action == p.action)
      && (need.ReplySlot? ==> p.action == Reply)
      && (need.DelegateSlot? ==> p.action == Delegate)
      && !need.MemorySlot?
  {
  }

  /**
   * A speaking plan of an unpaused chat is output or deferred, or its content was unusable.
   * It vanishes exactly when it is unusable; in particular an over-budget delegate plan
   * vanishes if and only if its draft is longer than a reply may be.
   */
  lemma SpeakingPlanFate(st: Admission, p: Plan, addressed: set<int>, paused: string -> bool)
    requires Speaks(p.action) && !PlanPaused(p, paused)
    ensures var st' := Admit(st, p, addressed, paused);
      && (Unusable(CountDelegate(st.out), p) ==> st' == st)
      && (!Unusable(CountDelegate(st.out), p) ==>
            || (st'.out == st.out && st'.deferred == st.deferred + {p.mid})
            || (|st'.out| == |st.out| + 1 && st'.deferred == st.deferred
                && var q := st'.out[|st.out|];
                   q.mid == p.mid && Speaks(q.action) && Terminal(q.action) == Terminal(p.action)))
  {
    UnusableNeed(CountDelegate(st.out), p, paused);
  }

  /** Later plans only add: nothing admitted or deferred is taken back. */
  lemma {:induction false} AdmissionGrows(plans: seq<Plan>, i: nat, addressed: set<int>, paused: string -> bool)
    requires i <= |plans|
    ensures AdmitAll(plans[..i], addressed, paused).out <= AdmitAll(plans, addressed, paused).out
    ensures AdmitAll(plans[..i], addressed, paused).deferred <= AdmitAll(plans, addressed, paused).deferred
    decreases |plans| - i
  {
    if i == |plans| {
      assert plans[..i] == plans;
    } else {
      AdmissionGrows(plans, i + 1, addressed, paused);
      assert plans[..i + 1][..i] == plans[..i];
    }
  }

  /** Ceilings conserve work: each speaking plan is in the output, deferred, or was unusable. */
  lemma CeilingsConserveWork(plans: seq<Plan>, i: nat, addressed: set<int>, paused: string -> bool)
    requires i < |plans| && Speaks(plans[i].action) && !PlanPaused(plans[i], paused)
    ensures var st := AdmitAll(plans, addressed, paused);
      || (exists q :: q in st.out && q.mid == plans[i].mid && Speaks(q.action)
                      && Terminal(q.action) == Terminal(plans[i].action))
      || plans[i].mid in st.deferred
      || Unusable(CountDelegate(AdmitAll(plans[..i], addressed, paused).out), plans[i])
  {
    var before, after := AdmitAll(plans[..i], addressed, paused), AdmitAll(plans[..i + 1], addressed, paused);
    assert plans[..i + 1][..i] == plans[..i];
    SpeakingPlanFate(before, plans[i], addressed, paused);
    AdmissionGrows(plans, i + 1, addressed, paused);
    if |after.out| == |before.out| + 1 {
      var q := after.out[|before.out|];
      assert q == AdmitAll(plans, addressed, paused).out[|before.out|];
    }
  }

  /** A delegate plan of an unnamed chat with a draft over 600 characters. */
  predicate LongDelegate(p: Plan) { p.action == Delegate && p.chatId == "" && DraftOf(p.text).LongDraft? }

  /** Such a plan enters while there is a slot and vanishes after that. */
  lemma LongDraftEffect(st: Admission, p: Plan, addressed: set<int>, paused: string -> bool)
    requires LongDelegate(p)
    ensures Admit(st, p, addressed, paused)
         == if CountDelegate(st.out) < DELEGATE_PER_CYCLE then st.(out := st.out + [p]) else st
  {
    assert NeedOf(p, paused) == DelegateSlot(LongDraft);
  }

  lemma AdmitOneMore(plans: seq<Plan>, p: Plan, addressed: set<int>, paused: string -> bool)
    ensures AdmitAll(plans + [p], addressed, paused) == Admit(AdmitAll(plans, addressed, paused), p, addressed, paused)
  {
    assert (plans + [p])[..|plans|] == plans;
  }

  lemma CountTwo(p1: Plan, p2: Plan)
    requires p1.action == Delegate && p2.action == Delegate
    ensures CountDelegate([p1]) == 1 && CountDelegate([p1, p2]) == 2
  {
    OneMore([], p1, {}, true);
    OneMore([p1], p2, {}, true);
    assert [] + [p1] == [p1] && [p1] + [p2] == [p1, p2];
  }

  /** The carve-out is real: the third of any three such delegate plans leaves neither output nor deferral. */
  lemma LongDraftVanishes(p1: Plan, p2: Plan, p3: Plan, addressed: set<int>, paused: string -> bool)
    requires LongDelegate(p1) && LongDelegate(p2) && LongDelegate(p3)
    ensures AdmitAll([p1, p2, p3], addressed, paused) == Admission([p1, p2], {})
  {
    CountTwo(p1, p2);
    LongDraftEffect(Admission([], {}), p1, addressed, paused);
    LongDraftEffect(Admission([p1], {}), p2, addressed, paused);
    LongDraftEffect(Admission([p1, p2], {}), p3, addressed, paused);
    AdmitThree(p1, p2, p3, addressed, paused);
    assert [] + [p1] == [p1] && [p1] + [p2] == [p1, p2];
  }

  lemma AdmitThree(p1: Plan, p2: Plan, p3: Plan, addressed: set<int>, paused: string -> bool)
    ensures AdmitAll([p1, p2, p3], addressed, paused) ==
      Admit(Admit(Admit(Admission([], {}), p1, addressed, paused), p2, addressed, paused), p3, addressed, paused)
  {
    AdmitOneMore([], p1, addressed, paused);
    AdmitOneMore([p1], p2, addressed, paused);
    AdmitOneMore([p1, p2], p3, addressed, paused);
    assert [] + [p1] == [p1] && [p1] + [p2] == [p1, p2] && [p1, p2] + [p3] == [p1, p2, p3];
  }
}
