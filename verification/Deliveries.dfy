/** That plans are carried out: what admits, composes, sends and puts off a plan, case by case and in numbers. */
module Deliveries {
  import opened Prelude
  import opened Text
  import opened Candidates
  import opened Plans
  import opened Ceilings
  import opened CarryOut

  // ----- Ceilings --------------------------------------------------------------------------------

  predicate IsNote(p: Plan) { p.action == Remember || p.action == RememberEntity }

  /** How many plans of the list are of this kind. */
  ghost function HowMany(out: seq<Plan>, kind: Plan -> bool): nat { |set i | 0 <= i < |out| && kind(out[i])| }

  lemma OneMoreOf(out: seq<Plan>, p: Plan, kind: Plan -> bool)
    ensures HowMany(out + [p], kind) == HowMany(out, kind) + if kind(p) then 1 else 0
  {
    var more := out + [p];
    assert (set i | 0 <= i < |more| && kind(more[i]))
        == (set i | 0 <= i < |out| && kind(out[i])) + if kind(p) then {|out|} else {};
  }

  function ReplyKind(addressed: set<int>, wanted: bool): Plan -> bool {
    (p: Plan) => p.action == Reply && (p.mid in addressed) == wanted
  }

  function NoteKind(): Plan -> bool { (p: Plan) => IsNote(p) }

  function DelegateKind(): Plan -> bool { (p: Plan) => p.action == Delegate }

  lemma {:induction false} CountsAreSizes(out: seq<Plan>, addressed: set<int>, wanted: bool)
    ensures CountReplies(out, addressed, wanted) == HowMany(out, ReplyKind(addressed, wanted))
    ensures CountMemory(out) == HowMany(out, NoteKind())
    ensures CountDelegate(out) == HowMany(out, DelegateKind())
  {
    if out != [] {
      var init, p := out[..|out| - 1], out[|out| - 1];
      CountsAreSizes(init, addressed, wanted);
      OneMore(init, p, addressed, wanted);
      OneMoreOf(init, p, ReplyKind(addressed, wanted));
      OneMoreOf(init, p, NoteKind());
      OneMoreOf(init, p, DelegateKind());
      assert out == init + [p];
    }
  }

  /** Three replies to messages that address the agent, one other reply. */
  ghost predicate ReplyRoom(out: seq<Plan>, addressed: set<int>, mid: int) {
    HowMany(out, ReplyKind(addressed, mid in addressed)) < if mid in addressed then 3 else 1
  }

  ghost predicate NoteRoom(out: seq<Plan>) { HowMany(out, NoteKind()) < 2 }

  ghost predicate DelegateRoom(out: seq<Plan>) { HowMany(out, DelegateKind()) < 2 }

  predicate Sendable(text: string) { 1 <= |Strip(text)| <= 600 }

  /** The draft is sent as a reply if one more reply fits, and put off if not. */
  ghost predicate SentAsReply(st: Admission, st': Admission, p: Plan, addressed: set<int>) {
    if ReplyRoom(st.out, addressed, p.mid) then st' == st.(out := st.out + [p.(action := Reply, text := Strip(p.text))])
    else st' == st.(deferred := st.deferred + {p.mid})
  }

  /** What the ceilings do with one plan, action by action. */
  ghost predicate AdmittedAs(st: Admission, st': Admission, p: Plan, addressed: set<int>) {
    match p.action
    case Ignore => st' == st
    case Wait => st' == st
    case Reply => if Sendable(p.text) then SentAsReply(st, st', p, addressed) else st' == st
    case React => st' == if AllowedEmoji(p.emoji) then st.(out := st.out + [p]) else st
    case NotifyOwner => st' == st.(out := st.out + [p.(text := p.text[..Min(600, |p.text|)])])
    case Remember => if Strip(p.note) == "" then st' == st else NoteTaken(st, st', p)
    case RememberEntity => if Strip(p.note) == "" || Strip(p.entity) == "" then st' == st else NoteTaken(st, st', p)
    case Delegate =>
      if DelegateRoom(st.out) then st' == st.(out := st.out + [p])
      else if Strip(p.text) == "" then st' == st.(deferred := st.deferred + {p.mid})
      else if Sendable(p.text) then SentAsReply(st, st', p, addressed)
      else st' == st
  }

  ghost predicate NoteTaken(st: Admission, st': Admission, p: Plan) {
    st' == if NoteRoom(st.out) then st.(out := st.out + [p]) else st.(deferred := st.deferred + {p.mid})
  }

  lemma AdmittedExactly(st: Admission, p: Plan, addressed: set<int>, paused: string -> bool)
    requires p.chatId == "" || !paused(p.chatId)
    ensures AdmittedAs(st, Admit(st, p, addressed, paused), p, addressed)
  {
    CountsAreSizes(st.out, addressed, p.mid in addressed);
    assert |p.text| <= 600 ==> p.text[..|p.text|] == p.text;
  }

  /** A ceiling that plan `p` could not get past is reached. */
  ghost predicate CeilingReached(out: seq<Plan>, p: Plan, addressed: set<int>) {
    || (IsNote(p) && !NoteRoom(out))
    || (p.action == Reply && Sendable(p.text) && !ReplyRoom(out, addressed, p.mid))
    || (p.action == Delegate && !DelegateRoom(out)
        && (Strip(p.text) == "" || (Sendable(p.text) && !ReplyRoom(out, addressed, p.mid))))
  }

  lemma MoreOfAll(a: seq<Plan>, b: seq<Plan>, addressed: set<int>, mid: int)
    requires a <= b
    ensures ReplyRoom(b, addressed, mid) ==> ReplyRoom(a, addressed, mid)
    ensures NoteRoom(b) ==> NoteRoom(a)
    ensures DelegateRoom(b) ==> DelegateRoom(a)
  {
    MoreOf(a, b, ReplyKind(addressed, mid in addressed));
    MoreOf(a, b, NoteKind());
    MoreOf(a, b, DelegateKind());
  }

  lemma MoreOf(a: seq<Plan>, b: seq<Plan>, kind: Plan -> bool)
    requires a <= b
    ensures HowMany(a, kind) <= HowMany(b, kind)
  {
    Subset((set i | 0 <= i < |a| && kind(a[i])), set i | 0 <= i < |b| && kind(b[i]));
  }

  lemma ReachedStays(a: seq<Plan>, b: seq<Plan>, p: Plan, addressed: set<int>)
    requires a <= b && CeilingReached(a, p, addressed)
    ensures CeilingReached(b, p, addressed)
  {
    MoreOfAll(a, b, addressed, p.mid);
  }

  ghost predicate PutOffByCeiling(plans: seq<Plan>, out: seq<Plan>, m: int, addressed: set<int>) {
    exists p :: p in plans && p.mid == m && CeilingReached(out, p, addressed)
  }

  /** The ceilings put off nothing without need: each message put off has a plan whose ceiling is used up. */
  lemma {:induction false} CeilingsAreUsed(plans: seq<Plan>, addressed: set<int>, paused: string -> bool, m: int)
    requires forall p :: p in plans ==> p.chatId == "" || !paused(p.chatId)
    requires m in AdmitAll(plans, addressed, paused).deferred
    ensures PutOffByCeiling(plans, AdmitAll(plans, addressed, paused).out, m, addressed)
  {
    var rest, p := plans[..|plans| - 1], plans[|plans| - 1];
    assert p in plans && forall q :: q in rest ==> q in plans;
    var st, st' := AdmitAll(rest, addressed, paused), AdmitAll(plans, addressed, paused);
    AdmittedExactly(st, p, addressed, paused);
    assert st.out <= st'.out;
    if m in st.deferred {
      CeilingsAreUsed(rest, addressed, paused, m);
      var q :| q in rest && q.mid == m && CeilingReached(st.out, q, addressed);
      ReachedStays(st.out, st'.out, q, addressed);
    } else {
      ReachedStays(st.out, st'.out, p, addressed);
    }
  }

  // ----- The composer ----------------------------------------------------------------------------

  /** What the composer answers for the plan; it is not asked about messages it does not know. */
  predicate Composed(p: Plan, known: set<int>, compose: Plan -> Option<string>, text: string) {
    p.mid in known && compose(p).Some? && Strip(compose(p).value) != "" && text == Strip(compose(p).value)
  }

  predicate NothingComposed(p: Plan, known: set<int>, compose: Plan -> Option<string>) {
    p.mid !in known || compose(p).None? || Strip(compose(p).value) == ""
  }

  /** What becomes of one plan: a delegate plan is answered by the composer, else with its draft, else put off. */
  predicate ResolvedAs(st: Admission, st': Admission, p: Plan, known: set<int>, completed: set<(int, Action)>,
      compose: Plan -> Option<string>) {
    if p.action != Delegate then st' == st.(out := st.out + [p])
    else if (p.mid, Reply) in completed then st' == st
    else if NothingComposed(p, known, compose) then
      if Strip(p.text) != "" then st' == st.(out := st.out + [p.(action := Reply)])
      else st' == st.(deferred := st.deferred + {p.mid})
    else
      && |st'.out| == |st.out| + 1 && st'.deferred == st.deferred && st.out < st'.out
      && Composed(p, known, compose, st'.out[|st.out|].text)
      && st'.out[|st.out|] == p.(action := Reply, delegated := true, text := st'.out[|st.out|].text)
  }

  lemma ResolvedExactly(plans: seq<Plan>, p: Plan, known: set<int>, completed: set<(int, Action)>,
      compose: Plan -> Option<string>)
    ensures var resolve := Resolver(known, completed, compose);
      ResolvedAs(ResolveAll(plans, resolve), ResolveAll(plans + [p], resolve), p, known, completed, compose)
  {
    assert (plans + [p])[..|plans|] == plans;
  }

  ghost predicate PutOffByComposer(plans: seq<Plan>, m: int, known: set<int>, completed: set<(int, Action)>,
      compose: Plan -> Option<string>) {
    exists p ::
      (p in plans && p.mid == m && p.action == Delegate && (m, Reply) !in completed && Strip(p.text) == ""
       && NothingComposed(p, known, compose))
  }

  /** The composer puts off nothing without need: there is neither an answer nor a draft. */
  lemma {:induction false} ComposerIsNeeded(plans: seq<Plan>, known: set<int>, completed: set<(int, Action)>,
      compose: Plan -> Option<string>, m: int)
    requires m in ResolveAll(plans, Resolver(known, completed, compose)).deferred
    ensures PutOffByComposer(plans, m, known, completed, compose)
  {
    var rest, p := plans[..|plans| - 1], plans[|plans| - 1];
    assert plans == rest + [p] && p in plans && forall q :: q in rest ==> q in plans;
    ResolvedExactly(rest, p, known, completed, compose);
    if m in ResolveAll(rest, Resolver(known, completed, compose)).deferred {
      ComposerIsNeeded(rest, known, completed, compose, m);
    }
  }

  // ----- The scene -------------------------------------------------------------------------------

  /** A plan waits for the next pass exactly if the refetch failed or its topic has newer messages. */
  lemma SceneExactly(plans: seq<Plan>, scene: Scene, cands: map<int, Candidate>, p: Plan)
    requires p in plans
    ensures p in InScene(plans, scene, cands) <==>
      scene.NotChecked? || (scene.Fresh? && (p.mid in cands ==> cands[p.mid].topic !in scene.changed))
    ensures p !in InScene(plans, scene, cands) <==> p.mid in OutOfScene(plans, scene, cands)
  {
    FilterMember(plans, (p: Plan) => !Stale(p, scene, cands), p);
  }

  // ----- Caps ------------------------------------------------------------------------------------

  /** The caps of a day: 8 and 40 replies in all, 3 and 12 in a chat, unless the operator set others up to a limit. */
  lemma CapsExactly(o: Overrides)
    ensures var c := CapsOf(o);
      && (o.reply.None? ==> c.reply == 8) && (o.addressed.None? ==> c.addressed == 40)
      && (o.chatReply.None? ==> c.chatReply == 3) && (o.chatAddressed.None? ==> c.chatAddressed == 12)
      && SetTo(o.reply, c.reply, 20) && SetTo(o.addressed, c.addressed, 100)
      && SetTo(o.chatReply, c.chatReply, 50) && SetTo(o.chatAddressed, c.chatAddressed, 100)
  {
  }

  /** An override holds as it is between 0 and the limit, and is cut to that range otherwise. */
  predicate SetTo(o: Option<int>, cap: nat, limit: nat) {
    o.Some? ==> if o.value < 0 then cap == 0 else if o.value > limit then cap == limit else cap == o.value
  }

  // ----- Delivery --------------------------------------------------------------------------------

  /** One of the two counters that the reply would raise has reached its cap. */
  predicate Full(b: Budget, caps: Caps, addressed: bool) {
    if addressed then b.addressed >= caps.addressed || b.chatAddressed >= caps.chatAddressed
    else b.reply >= caps.reply || b.chatReply >= caps.chatReply
  }

  /** The state after one more plan. */
  function Applying(st: Applied, p: Plan, desk: Desk): Applied { ApplyAll(st, [p], 1, desk) }

  /** What a sender's answer does to a plan that was tried; `counted` is the budget if it was delivered. */
  predicate TriedAs(st: Applied, st': Applied, p: Plan, o: Outcome, counted: Budget, acted: nat) {
    match o
    case Delivered =>
      st' == st.(completed := st.completed + {(p.mid, p.action)}, budget := counted, acted := acted)
    case Refused => st' == st.(failed := st.failed + {p.mid})
    case Raised => st' == st.(failed := st.failed + {p.mid})
    case DeadLettered => st' == st.(buried := st.buried + {(p.mid, p.action)})
  }

  /**
   * A reply not sent before is put off exactly if a counter of it is used up. Otherwise it goes out:
   * delivered, it raises its global and its chat counter by one and defers nothing.
   */
  lemma ReplyExactly(st: Applied, p: Plan, desk: Desk)
    requires p.action == Reply && (p.mid, Reply) !in st.completed
    ensures var b, addressed, st' := st.budget, p.mid in desk.demanded, Applying(st, p, desk);
      if Full(b, desk.caps, addressed) then st' == st.(deferred := st.deferred + {p.mid})
      else TriedAs(st, st', p, desk.outcome(0),
                   if addressed then b.(addressed := b.addressed + 1, chatAddressed := b.chatAddressed + 1)
                   else b.(reply := b.reply + 1, chatReply := b.chatReply + 1), st.acted + 1)
  {
    assert ApplyAll(st, [p], 0, desk) == st;
  }

  /** A reaction is put off exactly if three were sent today. */
  lemma ReactionExactly(st: Applied, p: Plan, desk: Desk)
    requires p.action == React && (p.mid, React) !in st.completed
    ensures var b, st' := st.budget, Applying(st, p, desk);
      if b.react >= 3 then st' == st.(deferred := st.deferred + {p.mid})
      else TriedAs(st, st', p, desk.outcome(0), b.(react := b.react + 1), st.acted + 1)
  {
    assert ApplyAll(st, [p], 0, desk) == st;
  }

  /** A notice is put off exactly if there is no owner; the channel to the owner cannot refuse it. */
  lemma NoticeExactly(st: Applied, p: Plan, desk: Desk)
    requires p.action == NotifyOwner && (p.mid, NotifyOwner) !in st.completed
    ensures var st' := Applying(st, p, desk);
      if !desk.hasOwner then st' == st.(deferred := st.deferred + {p.mid})
      else TriedAs(st, st', p, if desk.outcome(0) == Refused then Delivered else desk.outcome(0), st.budget, st.acted)
  {
    assert ApplyAll(st, [p], 0, desk) == st;
  }

  /** A note is taken down, dropped if it is refused or about nobody, or put off if the roster fails. */
  lemma NoteExactly(st: Applied, p: Plan, desk: Desk)
    requires IsNote(p) && (p.mid, p.action) !in st.completed
    ensures var o, st' := desk.outcome(0), Applying(st, p, desk);
      if (p.action == Remember && p.mid !in desk.hasHandle) || o == Refused then st' == st
      else if o == Delivered then st' == st.(completed := st.completed + {(p.mid, p.action)})
      else st' == st.(deferred := st.deferred + {p.mid})
  {
    assert ApplyAll(st, [p], 0, desk) == st;
  }

  /** What was done before, and what is no action, changes nothing. */
  lemma NothingToDo(st: Applied, p: Plan, desk: Desk)
    requires (p.mid, p.action) in st.completed || p.action == Ignore || p.action == Wait || p.action == Delegate
    ensures Applying(st, p, desk) == st
  {
    assert ApplyAll(st, [p], 0, desk) == st;
  }

  /** The plans are applied one after the other, each on what the ones before it left. */
  lemma AppliedInOrder(st: Applied, plans: seq<Plan>, n: nat, desk: Desk)
    requires n < |plans|
    ensures ApplyAll(st, plans, n + 1, desk)
         == Applying(ApplyAll(st, plans, n, desk), plans[n], desk.(outcome := (_: nat) => desk.outcome(n)))
  {
    var before := ApplyAll(st, plans, n, desk);
    assert ApplyAll(before, [plans[n]], 0, desk.(outcome := (_: nat) => desk.outcome(n))) == before;
  }

  /** Why a plan may be put off or fail: a used-up counter, no owner, or an answer of its sender. */
  ghost predicate HeldUp(p: Plan, b: Budget, desk: Desk, i: nat) {
    match p.action
    case Reply => Full(b, desk.caps, p.mid in desk.demanded) || Fails(desk.outcome(i))
    case React => b.react >= 3 || Fails(desk.outcome(i))
    case NotifyOwner => !desk.hasOwner || desk.outcome(i) == Raised
    case Remember => desk.outcome(i) == Raised || desk.outcome(i) == DeadLettered
    case RememberEntity => desk.outcome(i) == Raised || desk.outcome(i) == DeadLettered
    case _ => false
  }

  predicate Fails(o: Outcome) { o == Refused || o == Raised }

  ghost predicate SomeHeldUp(plans: seq<Plan>, n: nat, m: int, b: Budget, desk: Desk)
    requires n <= |plans|
  {
    exists i: nat :: i < n && plans[i].mid == m && HeldUp(plans[i], b, desk, i)
  }

  lemma HeldUpStays(plans: seq<Plan>, n: nat, m: int, b: Budget, b': Budget, desk: Desk)
    requires n < |plans| && SomeHeldUp(plans, n, m, b, desk) && Spent(desk.caps, b, b')
    ensures SomeHeldUp(plans, n + 1, m, b', desk)
  {
    var i: nat :| i < n && plans[i].mid == m && HeldUp(plans[i], b, desk, i);
    assert HeldUp(plans[i], b', desk, i);
  }

  lemma OneHeldUp(st: Applied, p: Plan, desk: Desk, m: int, i: nat)
    requires var st' := Applying(st, p, desk.(outcome := (_: nat) => desk.outcome(i)));
      m in st'.deferred + st'.failed && m !in st.deferred + st.failed
    ensures p.mid == m
    ensures HeldUp(p, Applying(st, p, desk.(outcome := (_: nat) => desk.outcome(i))).budget, desk, i)
  {
    var d := desk.(outcome := (_: nat) => desk.outcome(i));
    assert ApplyAll(st, [p], 0, d) == st;
  }

  /** Nothing is put off or fails without a reason: some plan of the message met one. */
  lemma {:induction false} AppliedUnlessHeldUp(st: Applied, plans: seq<Plan>, n: nat, desk: Desk, m: int)
    requires n <= |plans| && m !in st.deferred + st.failed
    ensures var st' := ApplyAll(st, plans, n, desk);
      m in st'.deferred + st'.failed ==> SomeHeldUp(plans, n, m, st'.budget, desk)
  {
    var st' := ApplyAll(st, plans, n, desk);
    if n > 0 && m in st'.deferred + st'.failed {
      AppliedUnlessHeldUp(st, plans, n - 1, desk, m);
      AppliedInOrder(st, plans, n - 1, desk);
      var before := ApplyAll(st, plans, n - 1, desk);
      BookSpends(before, plans[n - 1], desk, desk.outcome(n - 1));
      if m in before.deferred + before.failed {
        HeldUpStays(plans, n - 1, m, before.budget, st'.budget, desk);
      } else {
        OneHeldUp(before, plans[n - 1], desk, m, n - 1);
      }
    }
  }
}
