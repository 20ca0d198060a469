/** The persistent ledger of the engage loop: budgets, cursors and lanes of every chat. */
module Ledger {
  import opened Prelude
  import opened Peers
  import opened Candidates
  import opened TopicLanes
  import opened CarryOut
  import opened ChatPass

  datatype ChatEntry = ChatEntry(
    day: int, replies: nat, addressed: nat, cursor: Option<nat>, topics: map<Topic, Entry>,
    retries: nat, retryAt: Option<int>)

  /** The value of a ledger; `legacy` is the cursor of the time before chats had their own. */
  datatype Led = Led(
    day: int, reply: nat, react: nat, addressed: nat, chats: map<string, ChatEntry>, legacy: Option<nat>)

  const EMPTY_CHAT := ChatEntry(0, 0, 0, None, map[], 0, None)

  // ----- Sums over chats --------------------------------------------------------------------

  function Replies(): ChatEntry -> nat { (e: ChatEntry) => e.replies }

  function AddressedReplies(): ChatEntry -> nat { (e: ChatEntry) => e.addressed }

  /** Each global reply counter is the sum of the chats' counters, and everybody agrees on the day. */
  ghost predicate Balanced(l: Led) {
    && l.reply == Total(l.chats, Replies())
    && l.addressed == Total(l.chats, AddressedReplies())
    && forall k :: k in l.chats ==> l.chats[k].day == l.day
  }

  /** No clamped cap lets a day exceed these. */
  ghost predicate WithinDay(l: Led) { l.reply <= 20 && l.addressed <= 100 && l.react <= REACT_DAILY_CAP }

  // ----- Merging alias spellings of one chat ---------------------------------------------------

  function Further(a: Option<nat>, b: Option<nat>): Option<nat> {
    if a.None? then b else if b.None? then a else Some(Max(a.value, b.value))
  }

  function Later(a: Option<int>, b: Option<int>): Option<int> {
    if a.None? then b else if b.None? then a else Some(Max(a.value, b.value))
  }

  /** The first spelling's wait state wins; cursors, deadlines and failures take the further one. */
  function MergeEntries(a: Entry, b: Entry): Entry {
    Entry(Further(a.cursor, b.cursor), Max(a.failures, b.failures), Later(a.retryAt, b.retryAt),
          if a.waitAnchor.Some? then a.waitAnchor else b.waitAnchor,
          if a.waitAnchor.Some? then a.waitCount else b.waitCount)
  }

  function MergeTopics(a: map<Topic, Entry>, b: map<Topic, Entry>): map<Topic, Entry> {
    map t | t in a.Keys + b.Keys ::
      if t !in b then a[t] else if t !in a then b[t] else MergeEntries(a[t], b[t])
  }

  function MergeChats(a: ChatEntry, b: ChatEntry): ChatEntry {
    ChatEntry(a.day, a.replies + b.replies, a.addressed + b.addressed, Further(a.cursor, b.cursor),
              MergeTopics(a.topics, b.topics), Max(a.retries, b.retries), Later(a.retryAt, b.retryAt))
  }

  function Absorb(merged: map<string, ChatEntry>, key: string, e: ChatEntry): map<string, ChatEntry> {
    merged[key := if key in merged then MergeChats(merged[key], e) else e]
  }

  /** The aliases folded in the order in which the dictionary lists them. */
  function Normalized(chats: map<string, ChatEntry>, order: seq<string>): map<string, ChatEntry>
    requires forall k :: k in order ==> k in chats
  {
    if order == [] then map[]
    else
      var k := order[|order| - 1];
      Absorb(Normalized(chats, order[..|order| - 1]), KeyOf(k), chats[k])
  }

  /** `order` lists every key of the map once. */
  ghost predicate Lists(order: seq<string>, chats: map<string, ChatEntry>) {
    (forall k :: k in order <==> k in chats) && forall i, j :: 0 <= i < j < |order| ==> order[i] != order[j]
  }

  function Restrict(chats: map<string, ChatEntry>, keys: seq<string>): map<string, ChatEntry> {
    map k | k in chats && k in keys :: chats[k]
  }

  lemma AbsorbTotal(merged: map<string, ChatEntry>, key: string, e: ChatEntry, count: ChatEntry -> nat)
    requires key in merged ==> count(MergeChats(merged[key], e)) == count(merged[key]) + count(e)
    ensures Total(Absorb(merged, key, e), count) == Total(merged, count) + count(e)
  {
    TotalUpdate(merged, count, key, if key in merged then MergeChats(merged[key], e) else e);
  }

  /** Merging aliases keeps the totals of a counter that adds up. */
  lemma {:induction false} NormalizedTotal(chats: map<string, ChatEntry>, order: seq<string>, count: ChatEntry -> nat)
    requires forall k :: k in order ==> k in chats
    requires forall i, j :: 0 <= i < j < |order| ==> order[i] != order[j]
    requires forall a, b :: count(MergeChats(a, b)) == count(a) + count(b)
    ensures Total(Normalized(chats, order), count) == Total(Restrict(chats, order), count)
  {
    if order == [] {
      assert Restrict(chats, order) == map[];
    } else {
      var rest, k := order[..|order| - 1], order[|order| - 1];
      NormalizedTotal(chats, rest, count);
      AbsorbTotal(Normalized(chats, rest), KeyOf(k), chats[k], count);
      RestrictMore(chats, rest, k);
      assert order == rest + [k];
      TotalUpdate(Restrict(chats, rest), count, k, chats[k]);
    }
  }

  lemma RestrictMore(chats: map<string, ChatEntry>, keys: seq<string>, k: string)
    requires k in chats && k !in keys
    ensures Restrict(chats, keys + [k]) == Restrict(chats, keys)[k := chats[k]] && k !in Restrict(chats, keys)
  {
  }

  lemma {:induction false} NormalizedDays(chats: map<string, ChatEntry>, order: seq<string>, day: int)
    requires forall k :: k in order ==> k in chats && chats[k].day == day
    ensures forall k :: k in Normalized(chats, order) ==> Normalized(chats, order)[k].day == day && KeyOf(k) == k
  {
    if order != [] {
      var rest, k := order[..|order| - 1], order[|order| - 1];
      NormalizedDays(chats, rest, day);
      KeyOfIdempotent(k);
    }
  }

  /** Alias merging neither mints nor loses a reply. */
  lemma NormalizeKeepsBalance(l: Led, order: seq<string>)
    requires Lists(order, l.chats) && Balanced(l)
    ensures Balanced(l.(chats := Normalized(l.chats, order)))
  {
    assert Restrict(l.chats, order) == l.chats;
    NormalizedTotal(l.chats, order, Replies());
    NormalizedTotal(l.chats, order, AddressedReplies());
    NormalizedDays(l.chats, order, l.day);
  }

  // ----- The day roll ------------------------------------------------------------------------

  predicate Kept(e: ChatEntry) { e.cursor.Some? || e.retryAt.Some? || e.topics != map[] }

  function RollChat(e: ChatEntry, today: int): ChatEntry {
    ChatEntry(today, 0, 0, e.cursor, e.topics, if e.retryAt.Some? then e.retries else 0, e.retryAt)
  }

  function Rolled(l: Led, today: int): Led {
    if l.day == today then l
    else Led(today, 0, 0, 0, map k | k in l.chats && Kept(l.chats[k]) :: RollChat(l.chats[k], today), l.legacy)
  }

  /** A new day starts balanced whatever the ledger looked like, and keeps every cursor and lane. */
  lemma RollBalances(l: Led, today: int)
    requires l.day != today
    ensures Balanced(Rolled(l, today)) && WithinDay(Rolled(l, today))
    ensures forall k :: k in Rolled(l, today).chats ==>
      (k in l.chats && Rolled(l, today).chats[k].cursor == l.chats[k].cursor
        && Rolled(l, today).chats[k].topics == l.chats[k].topics)
    ensures forall k :: k in l.chats && (l.chats[k].cursor.Some? || l.chats[k].topics != map[]) ==>
      k in Rolled(l, today).chats
  {
    TotalZero(Rolled(l, today).chats, Replies());
    TotalZero(Rolled(l, today).chats, AddressedReplies());
  }

  // ----- One chat's turn in a cycle -------------------------------------------------------------

  const RETRY_LIMIT := 10

  /** How a chat's turn goes: left out, broken off half-way, or run to its end. */
  datatype Turn =
    | Idle
    | Broken(topics: map<Topic, Entry>, spent: Budget, calls: nat)
    | Ran(world: World)

  function EntryFor(l: Led, chat: string): ChatEntry {
    if chat in l.chats then l.chats[chat] else EMPTY_CHAT.(day := l.day)
  }

  /** Where fetching starts: the chat's own cursor, else the old global one. */
  function FetchFrom(l: Led, e: ChatEntry): Option<nat> { if e.cursor.Some? then e.cursor else l.legacy }

  function BudgetOf(l: Led, e: ChatEntry): Budget { Budget(l.reply, l.addressed, l.react, e.replies, e.addressed) }

  /** A broken turn may have used budget and strikes, but no cursor moves before the very end. */
  ghost predicate TurnOk(l: Led, chat: string, calls: nat, turn: Turn) {
    var e := EntryFor(l, chat);
    turn.Broken? ==>
      CursorsKept(e.topics, turn.topics, e.cursor) && turn.calls <= calls
      && exists o: Overrides :: Spent(CapsOf(o), BudgetOf(l, e), turn.spent)
  }

  function ChatBackoff(retries: nat): int
    requires retries >= 1
  {
    Min(300, 15 * Doubling(retries - 1))
  }

  function Store(l: Led, chat: string, e: ChatEntry, b: Budget): Led {
    l.(reply := b.reply, addressed := b.addressed, react := b.react,
       chats := l.chats[chat := e.(replies := b.chatReply, addressed := b.chatAddressed)])
  }

  function PassOf(l: Led, chat: string, calls: nat, now: int, w: World): Pass {
    var e := EntryFor(l, chat);
    RunPass(e.topics, e.cursor, BudgetOf(l, e), calls, now, w)
  }

  /** The chat cursor follows the packet only when the pass left nothing pending. */
  function CursorAfter(pending: set<Topic>, maxSeq: nat, cursor: Option<nat>): Option<nat> {
    if pending == {} && maxSeq > 0 then Further(Some(maxSeq), cursor) else cursor
  }

  function AfterPass(l: Led, chat: string, calls: nat, maxSeq: nat, p: Pass): (Led, nat) {
    var e := EntryFor(l, chat);
    var cursor := CursorAfter(p.pending, maxSeq, e.cursor);
    (Store(l, chat, e.(topics := p.topics, cursor := cursor, retries := 0, retryAt := None), p.budget),
     if p.calls <= calls then calls - p.calls else 0)
  }

  function AfterBreak(l: Led, chat: string, now: int, topics: map<Topic, Entry>, spent: Budget): Led {
    var e := EntryFor(l, chat);
    var retries := Min(RETRY_LIMIT, e.retries + 1);
    Store(l, chat, e.(topics := topics, retries := retries, retryAt := Some(now + ChatBackoff(retries))), spent)
  }

  /** The ledger and the remaining decider calls after a chat's turn. */
  function TakeTurn(l: Led, chat: string, calls: nat, now: int, turn: Turn): (Led, nat) {
    var e := EntryFor(l, chat);
    if e.retryAt.Some? && now < e.retryAt.value then (l.(chats := l.chats[chat := e]), calls)
    else match turn
      case Idle => (l.(chats := l.chats[chat := e.(retries := 0, retryAt := None)]), calls)
      case Broken(topics, spent, left) => (AfterBreak(l, chat, now, topics, spent), left)
      case Ran(w) => AfterPass(l, chat, calls, w.maxSeq, PassOf(l, chat, calls, now, w))
  }

  /** The decider calls a turn makes when `calls` are left in the purse. */
  function CallsOf(l: Led, chat: string, calls: nat, now: int, turn: Turn): nat {
    var e := EntryFor(l, chat);
    if e.retryAt.Some? && now < e.retryAt.value then 0
    else match turn
      case Idle => 0
      case Broken(_, _, left) => if left <= calls then calls - left else 0
      case Ran(w) => PassOf(l, chat, calls, now, w).calls
  }

  lemma RanSpends(l: Led, chat: string, calls: nat, now: int, w: World)
    ensures Spent(CapsOf(w.overrides), BudgetOf(l, EntryFor(l, chat)), PassOf(l, chat, calls, now, w).budget)
    ensures PassOf(l, chat, calls, now, w).calls <= Min(CALLS_PER_CHAT, calls)
  {
    var e := EntryFor(l, chat);
    var ev, merged := Evaluation(e.topics, e.cursor, calls, now, w), MergedOf(e.topics, e.cursor, w);
    EvaluationKeeps(e.topics, e.cursor, calls, now, w);
    ActSpends(ev, merged, BudgetOf(l, e), w);
  }

  lemma ActSpends(ev: Eval, merged: seq<Candidate>, budget: Budget, w: World)
    ensures Spent(CapsOf(w.overrides), budget, Act(ev, merged, budget, w).budget)
  {
    forall st: Applied, plans, desk: Desk | desk.caps == CapsOf(w.overrides) && st.budget == budget
      ensures Spent(CapsOf(w.overrides), budget, ApplyAll(st, plans, |plans|, desk).budget)
    {
      ApplySpends(st, plans, |plans|, desk);
    }
  }

  /** The budget side of the ledger. */
  ghost predicate BooksOk(l: Led) { Balanced(l) && WithinDay(l) }

  lemma StoreKeepsBooks(l: Led, chat: string, e: ChatEntry, b: Budget, o: Overrides)
    requires BooksOk(l) && EntryFor(l, chat).day == e.day
    requires Spent(CapsOf(o), BudgetOf(l, EntryFor(l, chat)), b)
    ensures BooksOk(Store(l, chat, e, b))
  {
    var stored := e.(replies := b.chatReply, addressed := b.chatAddressed);
    TotalUpdate(l.chats, Replies(), chat, stored);
    TotalUpdate(l.chats, AddressedReplies(), chat, stored);
  }

  lemma TouchKeepsBooks(l: Led, chat: string, e: ChatEntry)
    requires BooksOk(l) && EntryFor(l, chat).day == e.day
    requires e.replies == EntryFor(l, chat).replies && e.addressed == EntryFor(l, chat).addressed
    ensures BooksOk(l.(chats := l.chats[chat := e]))
  {
    TotalUpdate(l.chats, Replies(), chat, e);
    TotalUpdate(l.chats, AddressedReplies(), chat, e);
  }

  lemma AfterPassKeepsBooks(l: Led, chat: string, calls: nat, maxSeq: nat, p: Pass, o: Overrides)
    requires BooksOk(l) && Spent(CapsOf(o), BudgetOf(l, EntryFor(l, chat)), p.budget)
      && p.calls <= Min(CALLS_PER_CHAT, calls)
    ensures var (l', left) := AfterPass(l, chat, calls, maxSeq, p); BooksOk(l') && left + p.calls == calls
  {
    var e := EntryFor(l, chat);
    var cursor := CursorAfter(p.pending, maxSeq, e.cursor);
    StoreKeepsBooks(l, chat, e.(topics := p.topics, cursor := cursor, retries := 0, retryAt := None), p.budget, o);
  }

  lemma AfterBreakKeepsBooks(l: Led, chat: string, now: int, topics: map<Topic, Entry>, spent: Budget, o: Overrides)
    requires BooksOk(l) && Spent(CapsOf(o), BudgetOf(l, EntryFor(l, chat)), spent)
    ensures BooksOk(AfterBreak(l, chat, now, topics, spent))
  {
    var e := EntryFor(l, chat);
    var retries := Min(RETRY_LIMIT, e.retries + 1);
    StoreKeepsBooks(l, chat, e.(topics := topics, retries := retries, retryAt := Some(now + ChatBackoff(retries))),
        spent, o);
  }

  lemma RanKeepsBooks(l: Led, chat: string, calls: nat, now: int, w: World)
    requires BooksOk(l)
    ensures var (l', left) := AfterPass(l, chat, calls, w.maxSeq, PassOf(l, chat, calls, now, w));
      BooksOk(l') && left + PassOf(l, chat, calls, now, w).calls == calls
    ensures PassOf(l, chat, calls, now, w).calls <= CALLS_PER_CHAT
  {
    RanSpends(l, chat, calls, now, w);
    AfterPassKeepsBooks(l, chat, calls, w.maxSeq, PassOf(l, chat, calls, now, w), w.overrides);
  }

  /** Whatever happens in a turn, the books stay balanced, caps hold, and each decider call is paid for. */
  lemma TurnKeepsBooks(l: Led, chat: string, calls: nat, now: int, turn: Turn)
    requires BooksOk(l) && TurnOk(l, chat, calls, turn)
    ensures var (l', left) := TakeTurn(l, chat, calls, now, turn);
      && BooksOk(l') && left + CallsOf(l, chat, calls, now, turn) == calls
      && (turn.Ran? ==> CallsOf(l, chat, calls, now, turn) <= CALLS_PER_CHAT)
  {
    var e := EntryFor(l, chat);
    if e.retryAt.Some? && now < e.retryAt.value {
      TouchKeepsBooks(l, chat, e);
    } else {
      match turn
      case Idle => TouchKeepsBooks(l, chat, e.(retries := 0, retryAt := None));
      case Broken(topics, spent, left) =>
        var o: Overrides :| Spent(CapsOf(o), BudgetOf(l, e), spent);
        AfterBreakKeepsBooks(l, chat, now, topics, spent, o);
      case Ran(w) => RanKeepsBooks(l, chat, calls, now, w);
    }
  }
}
