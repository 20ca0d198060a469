/** From admitted plans to actions: composing, the last look at the scene, caps and delivery. */
module CarryOut {
  import opened Prelude
  import opened Text
  import opened Candidates
  import opened Plans
  import opened Ceilings

  // ----- The delegate composer -------------------------------------------------------------

  datatype Resolution = Keep(plan: Plan) | Drop | Postpone

  /** `compose` yields nothing when there is no composer or it failed. */
  function ResolveOne(p: Plan, known: set<int>, completed: set<(int, Action)>,
      compose: Plan -> Option<string>): Resolution {
    if p.action != Delegate then Keep(p)
    else if (p.mid, Reply) in completed then Drop
    else
      var composed := if p.mid in known then compose(p) else None;
      if composed.Some? && !Blank(composed.value) then
        Keep(p.(action := Reply, text := Strip(composed.value), delegated := true))
      else if !Blank(p.text) then Keep(p.(action := Reply))
      else Postpone
  }

  function Resolver(known: set<int>, completed: set<(int, Action)>,
      compose: Plan -> Option<string>): Plan -> Resolution {
    (p: Plan) => ResolveOne(p, known, completed, compose)
  }

  function ResolveAll(plans: seq<Plan>, resolve: Plan -> Resolution): Admission {
    if plans == [] then Admission([], {})
    else
      var st := ResolveAll(plans[..|plans| - 1], resolve);
      var p := plans[|plans| - 1];
      match resolve(p)
      case Keep(q) => st.(out := st.out + [q])
      case Drop => st
      case Postpone => st.(deferred := st.deferred + {p.mid})
  }

  method ResolveDelegates(plans: seq<Plan>, known: set<int>, completed: set<(int, Action)>,
      compose: Plan -> Option<string>)
    returns (out: seq<Plan>, deferred: set<int>)
    ensures Admission(out, deferred) == ResolveAll(plans, Resolver(known, completed, compose))
  {
    out, deferred := [], {};
    for i := 0 to |plans|
      invariant Admission(out, deferred) == ResolveAll(plans[..i], Resolver(known, completed, compose))
    {
      assert plans[..i + 1][..i] == plans[..i];
      match ResolveOne(plans[i], known, completed, compose) {
        case Keep(q) => out := out + [q];
        case Drop =>
        case Postpone => deferred := deferred + {plans[i].mid};
      }
    }
    assert plans[..|plans|] == plans;
  }

  /** A broken composer never loses an answer: it is sent as drafted, or put off, or was sent before. */
  lemma {:induction false} ResolutionConservesWork(
    plans: seq<Plan>, p: Plan, known: set<int>, completed: set<(int, Action)>, compose: Plan -> Option<string>)
    requires p in plans && Speaks(p.action)
    ensures var st := ResolveAll(plans, Resolver(known, completed, compose));
      || (exists q :: q in st.out && q.mid == p.mid && Speaks(q.action) && q.action == Terminal(p.action))
      || p.mid in st.deferred
      || (p.mid, Terminal(p.action)) in completed
  {
    var rest, last := plans[..|plans| - 1], plans[|plans| - 1];
    var resolve := Resolver(known, completed, compose);
    var before, st := ResolveAll(rest, resolve), ResolveAll(plans, resolve);
    assert plans == rest + [last];
    if p in rest {
      ResolutionConservesWork(rest, p, known, completed, compose);
      if q :| q in before.out && q.mid == p.mid && Speaks(q.action) && q.action == Terminal(p.action) {
        assert q in st.out;
      }
    } else {
      assert p == last;
      if resolve(p).Keep? {
        assert st.out[|before.out|] == resolve(p).plan;
        assert resolve(p).plan in st.out;
      }
    }
  }

  lemma {:induction false} ResolutionLeavesNoDelegate(
    plans: seq<Plan>, known: set<int>, completed: set<(int, Action)>, compose: Plan -> Option<string>)
    ensures forall q :: q in ResolveAll(plans, Resolver(known, completed, compose)).out ==>
      q.action != Delegate && exists p :: p in plans && p.mid == q.mid
    ensures forall m :: m in ResolveAll(plans, Resolver(known, completed, compose)).deferred ==>
      exists p :: p in plans && p.mid == m
  {
    if plans != [] {
      var rest, last := plans[..|plans| - 1], plans[|plans| - 1];
      ResolutionLeavesNoDelegate(rest, known, completed, compose);
      assert plans == rest + [last];
      assert last in plans;
      assert forall p :: p in rest ==> p in plans;
    }
  }

  // ----- The scene may have moved ------------------------------------------------------------

  /** The outcome of refetching just before sending. */
  datatype Scene = NotChecked | Unavailable | Fresh(changed: set<Topic>)

  predicate Stale(p: Plan, scene: Scene, cands: map<int, Candidate>) {
    match scene
    case NotChecked => false
    case Unavailable => true
    case Fresh(changed) => p.mid in cands && cands[p.mid].topic in changed
  }

  function InScene(plans: seq<Plan>, scene: Scene, cands: map<int, Candidate>): seq<Plan> {
    Filter(plans, (p: Plan) => !Stale(p, scene, cands))
  }

  function OutOfScene(plans: seq<Plan>, scene: Scene, cands: map<int, Candidate>): set<int> {
    set p | p in plans && Stale(p, scene, cands) :: p.mid
  }

  lemma SceneConservesWork(plans: seq<Plan>, scene: Scene, cands: map<int, Candidate>, p: Plan)
    requires p in plans
    ensures p in InScene(plans, scene, cands) || p.mid in OutOfScene(plans, scene, cands)
  {
    FilterMember(plans, (p: Plan) => !Stale(p, scene, cands), p);
  }

  // ----- Applying the plans --------------------------------------------------------------------

  const REACT_DAILY_CAP := 3

  /** The reply counters of one chat's pass: all chats together, and this chat. */
  datatype Budget = Budget(reply: nat, addressed: nat, react: nat, chatReply: nat, chatAddressed: nat)

  datatype Caps = Caps(reply: nat, addressed: nat, chatReply: nat, chatAddressed: nat)

  /** Operator overrides as read from the host state; `None` is absent or unreadable. */
  datatype Overrides = Overrides(reply: Option<int>, addressed: Option<int>, chatReply: Option<int>,
      chatAddressed: Option<int>)

  function Clamped(raw: Option<int>, default: nat, ceiling: nat): nat {
    if raw.None? then default else Max(0, Min(ceiling, raw.value))
  }

  /** A bad override cannot unbound the budget. */
  function CapsOf(o: Overrides): Caps {
    Caps(Clamped(o.reply, 8, 20), Clamped(o.addressed, 40, 100), Clamped(o.chatReply, 3, 50),
        Clamped(o.chatAddressed, 12, 100))
  }

  /** How the transport, the roster or the owner notification answered one action. */
  datatype Outcome = Delivered | Refused | Raised | DeadLettered

  /** What is fixed while the plans of one pass are applied. */
  datatype Desk = Desk(
    caps: Caps, demanded: set<int>, hasOwner: bool, hasHandle: set<int>, outcome: nat -> Outcome)

  datatype Applied = Applied(
    budget: Budget, completed: set<(int, Action)>, buried: set<(int, Action)>,
    deferred: set<int>, failed: set<int>, acted: nat)

  /** What became of one plan. */
  datatype Did = AsIs | Done | PutOffCap | Failed | Buried | Unkept

  predicate CapLeft(b: Budget, caps: Caps, isAddressed: bool) {
    if isAddressed then b.chatAddressed < caps.chatAddressed && b.addressed < caps.addressed
    else b.reply < caps.reply && b.chatReply < caps.chatReply
  }

  function Sent(o: Outcome): Did {
    match o case Delivered => Done case Refused => Failed case Raised => Failed case DeadLettered => Buried
  }

  function DidOf(st: Applied, p: Plan, desk: Desk, o: Outcome): Did {
    if (p.mid, p.action) in st.completed then AsIs
    else match p.action
      case Reply => if CapLeft(st.budget, desk.caps, p.mid in desk.demanded) then Sent(o) else PutOffCap
      case React => if st.budget.react < REACT_DAILY_CAP then Sent(o) else PutOffCap
      case NotifyOwner =>
        if !desk.hasOwner then PutOffCap
        else if o == DeadLettered then Buried else if o == Raised then Failed else Done
      case Remember =>
        if p.mid !in desk.hasHandle || o == Refused then Unkept else if o == Delivered then Done else PutOffCap
      case RememberEntity => if o == Refused then Unkept else if o == Delivered then Done else PutOffCap
      case _ => AsIs
  }

  function Count(b: Budget, a: Action, isAddressed: bool): Budget {
    if a == React then b.(react := b.react + 1)
    else if a != Reply then b
    else if isAddressed then b.(addressed := b.addressed + 1, chatAddressed := b.chatAddressed + 1)
    else b.(reply := b.reply + 1, chatReply := b.chatReply + 1)
  }

  function Book(st: Applied, p: Plan, did: Did, isAddressed: bool): Applied {
    match did
    case AsIs => st
    case Unkept => st
    case Done =>
      st.(completed := st.completed + {(p.mid, p.action)}, budget := Count(st.budget, p.action, isAddressed),
          acted := if p.action == Reply || p.action == React then st.acted + 1 else st.acted)
    case PutOffCap => st.(deferred := st.deferred + {p.mid})
    case Failed => st.(failed := st.failed + {p.mid})
    case Buried => st.(buried := st.buried + {(p.mid, p.action)})
  }

  function ApplyAll(st: Applied, plans: seq<Plan>, n: nat, desk: Desk): Applied
    requires n <= |plans|
  {
    if n == 0 then st
    else
      var before := ApplyAll(st, plans, n - 1, desk);
      var p := plans[n - 1];
      Book(before, p, DidOf(before, p, desk, desk.outcome(n - 1)), p.mid in desk.demanded)
  }

  /** The plan was carried out, given up for good, or comes back in a later pass. */
  ghost predicate Closed(st: Applied, p: Plan) {
    (p.mid, p.action) in st.completed + st.buried || p.mid in st.deferred + st.failed
  }

  ghost predicate Grown(a: Applied, b: Applied) {
    a.completed <= b.completed && a.buried <= b.buried && a.deferred <= b.deferred && a.failed <= b.failed
  }

  lemma BookCloses(st: Applied, p: Plan, desk: Desk, o: Outcome)
    ensures var st' := Book(st, p, DidOf(st, p, desk, o), p.mid in desk.demanded);
      && Grown(st, st')
      && (Speaks(p.action) && p.action != Delegate ==> Closed(st', p))
      && (forall m :: m in st'.failed && m !in st.failed ==> m == p.mid)
      && (forall m :: m in st'.deferred && m !in st.deferred ==> m == p.mid)
  {
  }

  /** No speaking plan is dropped while the plans are applied, whatever the transports do. */
  lemma {:induction false} ApplyConservesWork(st: Applied, plans: seq<Plan>, n: nat, desk: Desk)
    requires n <= |plans|
    ensures var st' := ApplyAll(st, plans, n, desk);
      && Grown(st, st')
      && (forall i :: 0 <= i < n && Speaks(plans[i].action) && plans[i].action != Delegate ==> Closed(st', plans[i]))
      && (forall m :: m in st'.failed && m !in st.failed ==> exists p :: p in plans && p.mid == m)
      && (forall m :: m in st'.deferred && m !in st.deferred ==> exists p :: p in plans && p.mid == m)
  {
    if n > 0 {
      ApplyConservesWork(st, plans, n - 1, desk);
      var before := ApplyAll(st, plans, n - 1, desk);
      BookCloses(before, plans[n - 1], desk, desk.outcome(n - 1));
      assert plans[n - 1] in plans;
    }
  }

  /** Global and per-chat counters move together, and a counter that grew is within the caps in force. */
  ghost predicate Spent(caps: Caps, b: Budget, b': Budget) {
    && b'.reply - b.reply == b'.chatReply - b.chatReply >= 0
    && b'.addressed - b.addressed == b'.chatAddressed - b.chatAddressed >= 0
    && b'.react >= b.react
    && (b'.reply > b.reply ==> b'.reply <= caps.reply && b'.chatReply <= caps.chatReply)
    && (b'.addressed > b.addressed ==> b'.addressed <= caps.addressed && b'.chatAddressed <= caps.chatAddressed)
    && (b'.react > b.react ==> b'.react <= REACT_DAILY_CAP)
  }

  lemma BookSpends(st: Applied, p: Plan, desk: Desk, o: Outcome)
    ensures Spent(desk.caps, st.budget, Book(st, p, DidOf(st, p, desk, o), p.mid in desk.demanded).budget)
  {
  }

  lemma {:induction false} ApplySpends(st: Applied, plans: seq<Plan>, n: nat, desk: Desk)
    requires n <= |plans|
    ensures Spent(desk.caps, st.budget, ApplyAll(st, plans, n, desk).budget)
  {
    if n > 0 {
      ApplySpends(st, plans, n - 1, desk);
      BookSpends(ApplyAll(st, plans, n - 1, desk), plans[n - 1], desk, desk.outcome(n - 1));
    }
  }

  /** An action already carried out is never carried out again. */
  lemma {:induction false} DoneStaysQuiet(st: Applied, plans: seq<Plan>, n: nat, desk: Desk, i: nat)
    requires i < n <= |plans| && (plans[i].mid, plans[i].action) in st.completed
    ensures var before := ApplyAll(st, plans, i, desk);
            DidOf(before, plans[i], desk, desk.outcome(i)) == AsIs
  {
    ApplyConservesWork(st, plans, i, desk);
  }
}
