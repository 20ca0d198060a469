/** Safety of the engage loop over whole runs: nothing is consumed without being settled. */
module EngageRuns {
  import opened Prelude
  import opened Peers
  import opened Candidates
  import opened Coalescing
  import opened TopicLanes
  import opened ChatPass
  import opened Assessed
  import opened Ledger

  /**
   * `saved` is the ledger on disk, `working` the one a cycle is changing, `top` the largest number
   * the spool has given out (`SpoolRuns.NumbersRise`). `judged` records, for the statement only,
   * which messages were assessed by the decider or given up.
   */
  datatype State = State(saved: Led, working: Led, spool: map<string, seq<Row>>, top: nat, judged: set<(string, nat)>)

  datatype Event =
    | Arrive(chat: string, row: Row)
    | StartOver
    | Load(order: seq<string>, today: int)
    | TurnOf(chat: string, calls: nat, now: int, turn: Turn)
    | Save

  function RowsOf(spool: map<string, seq<Row>>, chat: string): seq<Row> { if chat in spool then spool[chat] else [] }

  function Between(from: Option<nat>, upto: nat): Row -> bool {
    (r: Row) => (from.None? || r.cand.spoolSeq > from.value) && r.cand.spoolSeq <= upto
  }

  /** The fetch returned every row of the chat past the cursor up to the packet's last sequence. */
  ghost predicate FetchedAll(w: World, rows: seq<Row>, from: Option<nat>) {
    w.rows == Filter(rows, Between(from, w.maxSeq))
  }

  predicate BackingOff(e: ChatEntry, now: int) { e.retryAt.Some? && now < e.retryAt.value }

  /** The messages a turn judged: assessed by the decider, or given up (`Assessed.Weighed`). */
  ghost function JudgedBy(l: Led, chat: string, calls: nat, now: int, turn: Turn): set<(string, nat)> {
    if !turn.Ran? || BackingOff(EntryFor(l, chat), now) then {}
    else
      var e := EntryFor(l, chat);
      set c | c in FromRows(turn.world.rows) && Weighed(e.topics, e.cursor, calls, now, turn.world, c)
        :: (chat, c.spoolSeq)
  }

  ghost predicate Next(s: State, ev: Event, s': State) {
    match ev
    case Arrive(chat, row) =>
      && s' == s.(spool := s.spool[chat := RowsOf(s.spool, chat) + [row]], top := row.cand.spoolSeq)
      && SpoolOk(s'.spool) && row.cand.spoolSeq > s.top
    case StartOver =>
      // the counter was lost while the spool showed no row: numbers now stand for other messages
      s' == s.(spool := map[], top := 0, judged := {})
    case Load(order, today) =>
      && Lists(order, s.saved.chats)
      && s' == s.(working := Rolled(s.saved.(chats := Normalized(s.saved.chats, order)), today))
    case TurnOf(chat, calls, now, turn) =>
      && KeyOf(chat) == chat && TurnOk(s.working, chat, calls, turn)
      && (turn.Ran? && !BackingOff(EntryFor(s.working, chat), now) ==>
            (turn.world.maxSeq <= s.top
             && FetchedAll(turn.world, RowsOf(s.spool, chat), FetchFrom(s.working, EntryFor(s.working, chat)))))
      && s' == s.(working := TakeTurn(s.working, chat, calls, now, turn).0,
                  judged := s.judged + JudgedBy(s.working, chat, calls, now, turn))
    case Save => s' == s.(saved := s.working)
  }

  /** The spool hands out rising sequence numbers, and later numbers mean later messages. */
  ghost predicate SpoolOk(spool: map<string, seq<Row>>) {
    forall chat, i, j :: chat in spool && 0 <= i < j < |spool[chat]| ==>
      spool[chat][i].cand.spoolSeq < spool[chat][j].cand.spoolSeq && Earlier(spool[chat][i].cand, spool[chat][j].cand)
  }

  /** No cursor of the ledger is past `top`. */
  ghost predicate LedBelow(l: Led, top: nat) {
    Below(l.legacy, top) && forall k :: k in l.chats ==> EntryBelow(l.chats[k], top)
  }

  predicate Below(cursor: Option<nat>, top: nat) { cursor.Some? ==> cursor.value <= top }

  ghost predicate EntryBelow(e: ChatEntry, top: nat) {
    Below(e.cursor, top) && forall t :: t in e.topics ==> Below(e.topics[t].cursor, top)
  }

  /** The sequence number of the row is one no cursor has reached. */
  ghost predicate AheadOf(l: Led, row: Row) {
    && !Reached(l.legacy, row)
    && (forall k :: k in l.chats ==> !Reached(l.chats[k].cursor, row))
    && (forall k, t :: k in l.chats && t in l.chats[k].topics ==> !Reached(l.chats[k].topics[t].cursor, row))
  }

  predicate Reached(cursor: Option<nat>, row: Row) { cursor.Some? && row.cand.spoolSeq <= cursor.value }

  // ----- The guarantee ------------------------------------------------------------------------

  /** An own message or command, older than the first checkpoint, or judged. */
  ghost predicate Accounted(judged: set<(string, nat)>, legacy: Option<nat>, chat: string, row: Row) {
    Filtered(row) || Reached(legacy, row) || (chat, row.cand.spoolSeq) in judged
  }

  /** The row lies at or below its chat's or its topic's cursor. */
  predicate Passed(e: ChatEntry, r: Row) {
    Reached(e.cursor, r) || (r.cand.topic in e.topics && Reached(e.topics[r.cand.topic].cursor, r))
  }

  /** Nothing of `chat` lies unaccounted at or below this entry's cursors. */
  ghost predicate EntrySafe(e: ChatEntry, legacy: Option<nat>, chat: string, rows: seq<Row>,
      judged: set<(string, nat)>) {
    forall r :: r in rows ==>
      (Passed(e, r) ==> Accounted(judged, legacy, chat, r))
  }

  ghost predicate LedSafe(l: Led, spool: map<string, seq<Row>>, judged: set<(string, nat)>) {
    forall k :: k in l.chats ==> EntrySafe(l.chats[k], l.legacy, KeyOf(k), RowsOf(spool, KeyOf(k)), judged)
  }

  ghost predicate Inv(s: State) {
    && SpoolOk(s.spool) && LedBelow(s.saved, s.top) && LedBelow(s.working, s.top)
    && LedSafe(s.saved, s.spool, s.judged) && LedSafe(s.working, s.spool, s.judged)
  }

  // ----- Cursors stay at or below the numbers given out ----------------------------------------

  lemma FreshRowIsAhead(l: Led, row: Row, top: nat)
    requires LedBelow(l, top) && row.cand.spoolSeq > top
    ensures AheadOf(l, row)
  {
    forall k | k in l.chats
      ensures !Reached(l.chats[k].cursor, row)
      ensures forall t :: t in l.chats[k].topics ==> !Reached(l.chats[k].topics[t].cursor, row)
    {
      assert EntryBelow(l.chats[k], top);
    }
  }

  lemma BelowGrows(l: Led, top: nat, more: nat)
    requires LedBelow(l, top) && top <= more
    ensures LedBelow(l, more)
  {
    forall k | k in l.chats ensures EntryBelow(l.chats[k], more) { assert EntryBelow(l.chats[k], top); }
  }

  lemma MergedBelow(a: ChatEntry, b: ChatEntry, top: nat)
    requires EntryBelow(a, top) && EntryBelow(b, top)
    ensures EntryBelow(MergeChats(a, b), top)
  {
  }

  lemma {:induction false} NormalizedBelow(l: Led, order: seq<string>, top: nat)
    requires LedBelow(l, top) && forall k :: k in order ==> k in l.chats
    ensures LedBelow(l.(chats := Normalized(l.chats, order)), top)
  {
    if order != [] {
      var rest, k := order[..|order| - 1], order[|order| - 1];
      NormalizedBelow(l, rest, top);
      var merged := Normalized(l.chats, rest);
      assert EntryBelow(l.chats[k], top);
      if KeyOf(k) in merged {
        assert EntryBelow(merged[KeyOf(k)], top);
        MergedBelow(merged[KeyOf(k)], l.chats[k], top);
      }
    }
  }

  lemma RolledBelow(l: Led, today: int, top: nat)
    requires LedBelow(l, top)
    ensures LedBelow(Rolled(l, today), top)
  {
    forall k | k in Rolled(l, today).chats
      ensures EntryBelow(Rolled(l, today).chats[k], top) { assert EntryBelow(l.chats[k], top); }
  }

  lemma EntryForBelow(l: Led, chat: string, top: nat)
    requires LedBelow(l, top)
    ensures EntryBelow(EntryFor(l, chat), top)
  {
    if chat in l.chats { assert EntryBelow(l.chats[chat], top); }
  }

  lemma KeptBelow(e: ChatEntry, topics: map<Topic, Entry>, top: nat)
    requires EntryBelow(e, top) && CursorsKept(e.topics, topics, e.cursor)
    ensures EntryBelow(e.(topics := topics), top)
  {
  }

  // ----- Fetched rows are in step ---------------------------------------------------------------

  lemma {:induction false} FilterRowsRise(rows: seq<Row>, keep: Row -> bool)
    requires forall i, j :: 0 <= i < j < |rows| ==>
      rows[i].cand.spoolSeq < rows[j].cand.spoolSeq && Earlier(rows[i].cand, rows[j].cand)
    ensures forall i, j :: 0 <= i < j < |FromRows(Filter(rows, keep))| ==>
      FromRows(Filter(rows, keep))[i].spoolSeq < FromRows(Filter(rows, keep))[j].spoolSeq
      && Earlier(FromRows(Filter(rows, keep))[i], FromRows(Filter(rows, keep))[j])
  {
    if rows != [] {
      var tail := rows[1..];
      FilterRowsRise(tail, keep);
      var rest := FromRows(Filter(tail, keep));
      forall c | c in rest
        ensures rows[0].cand.spoolSeq < c.spoolSeq && Earlier(rows[0].cand, c)
      {
        FromRowsMember(Filter(tail, keep), c);
        var r :| r in Filter(tail, keep) && !Filtered(r) && r.cand == c;
        FilterMember(tail, keep, r);
        var j :| 0 <= j < |tail| && tail[j] == r;
        assert rows[j + 1] == r;
      }
      assert Filter(rows, keep) == if keep(rows[0]) then [rows[0]] + Filter(tail, keep) else Filter(tail, keep);
      assert keep(rows[0]) ==> ([rows[0]] + Filter(tail, keep))[1..] == Filter(tail, keep);
    }
  }

  lemma FetchedInStep(w: World, rows: seq<Row>, from: Option<nat>)
    requires FetchedAll(w, rows, from)
    requires forall i, j :: 0 <= i < j < |rows| ==>
      rows[i].cand.spoolSeq < rows[j].cand.spoolSeq && Earlier(rows[i].cand, rows[j].cand)
    ensures InStep(FromRows(w.rows))
  {
    FilterRowsRise(rows, Between(from, w.maxSeq));
    var cands := FromRows(w.rows);
    forall a, b | a in cands && b in cands && a.spoolSeq < b.spoolSeq
      ensures Earlier(a, b)
    {
      var i :| 0 <= i < |cands| && cands[i] == a;
      var j :| 0 <= j < |cands| && cands[j] == b;
    }
  }

  lemma FetchedMember(w: World, rows: seq<Row>, from: Option<nat>, r: Row)
    requires FetchedAll(w, rows, from)
    ensures r in w.rows <==> r in rows && !Reached(from, r) && r.cand.spoolSeq <= w.maxSeq
    ensures r in w.rows && !Filtered(r) ==> r.cand in FromRows(w.rows)
  {
    FilterMember(rows, Between(from, w.maxSeq), r);
    FromRowsMember(w.rows, r.cand);
  }

  // ----- One turn -----------------------------------------------------------------------------

  /** After a pass a topic cursor is where it was or on a fetched row. */
  lemma PassCursorBound(topics: map<Topic, Entry>, chatCursor: Option<nat>, w: World, ev: Eval, acts: Acts, now: int,
      t: Topic)
    requires InStep(FromRows(w.rows)) && Fits(ev, topics, chatCursor, w)
    ensures var p := PassWith(topics, chatCursor, w, ev, acts, now);
      t in p.topics ==>
        (p.topics[t].cursor == EntryOf(topics, chatCursor, t).cursor
         || exists c :: c in FromRows(w.rows) && p.topics[t].cursor == Some(c.spoolSeq))
  {
    var p := PassWith(topics, chatCursor, w, ev, acts, now);
    var merged := MergedOf(topics, chatCursor, w);
    var noted := Noted(ev, merged, acts, now);
    PassDrained(topics, chatCursor, w, ev, acts, now);
    NotedCursors(topics, chatCursor, w, ev, merged, acts, now);
    if t in p.topics && p.topics[t].cursor != noted[t].cursor {
      var j := CursorOnBurst(topics, chatCursor, w, noted[t], p.topics[t], t);
      MergeSeq(p.groups[j]);
      var x :| x in p.groups[j] && x.spoolSeq == Merge(p.groups[j]).spoolSeq;
      var unread := Unread(FromRows(w.rows), topics, chatCursor);
      GroupMemberIsCandidate(unread, j, x);
      UnreadMember(FromRows(w.rows), topics, chatCursor, x);
    }
  }

  lemma PassBelow(l: Led, chat: string, rows: seq<Row>, calls: nat, now: int, w: World, top: nat)
    requires var e := EntryFor(l, chat);
      EntryBelow(e, top) && w.maxSeq <= top && FetchedAll(w, rows, FetchFrom(l, e)) && InStep(FromRows(w.rows))
    ensures EntryBelow(AfterPass(l, chat, calls, w.maxSeq, PassOf(l, chat, calls, now, w)).0.chats[chat], top)
  {
    var e := EntryFor(l, chat);
    var ev := Evaluation(e.topics, e.cursor, calls, now, w);
    var acts := Act(ev, MergedOf(e.topics, e.cursor, w), BudgetOf(l, e), w);
    var p := PassOf(l, chat, calls, now, w);
    forall t | t in p.topics
      ensures Below(p.topics[t].cursor, top)
    {
      PassCursorBound(e.topics, e.cursor, w, ev, acts, now, t);
      if c :| c in FromRows(w.rows) && p.topics[t].cursor == Some(c.spoolSeq) {
        FromRowsMember(w.rows, c);
        var q :| q in w.rows && !Filtered(q) && q.cand == c;
        FetchedMember(w, rows, FetchFrom(l, e), q);
      }
    }
    PassedEntryBelow(l, chat, calls, w.maxSeq, p, top);
  }

  lemma PassedEntryBelow(l: Led, chat: string, calls: nat, maxSeq: nat, p: Pass, top: nat)
    requires EntryBelow(EntryFor(l, chat), top) && maxSeq <= top && forall t :: t in p.topics ==>
      Below(p.topics[t].cursor, top)
    ensures EntryBelow(AfterPass(l, chat, calls, maxSeq, p).0.chats[chat], top)
  {
  }

  /** What a finished pass means for one row of its chat. */
  lemma PassRowSafe(e: ChatEntry, legacy: Option<nat>, chat: string, rows: seq<Row>, judged: set<(string, nat)>,
                    w: World, ev: Eval, acts: Acts, now: int, judged': set<(string, nat)>, r: Row)
    requires EntrySafe(e, legacy, chat, rows, judged) && judged <= judged' && r in rows
    requires FetchedAll(w, rows, if e.cursor.Some? then e.cursor else legacy)
    requires InStep(FromRows(w.rows)) && Fits(ev, e.topics, e.cursor, w)
    requires var p := PassWith(e.topics, e.cursor, w, ev, acts, now);
      forall c :: c in FromRows(w.rows) && JudgedIn(p, c) ==> (chat, c.spoolSeq) in judged'
    ensures var p := PassWith(e.topics, e.cursor, w, ev, acts, now);
      && (r.cand.topic in p.topics && Reached(p.topics[r.cand.topic].cursor, r) ==> Accounted(judged', legacy, chat, r))
      && (p.pending == {} && r.cand.spoolSeq <= w.maxSeq ==> Accounted(judged', legacy, chat, r))
  {
    var p := PassWith(e.topics, e.cursor, w, ev, acts, now);
    var from := if e.cursor.Some? then e.cursor else legacy;
    var c := r.cand;
    FetchedMember(w, rows, from, r);
    if !Accounted(judged', legacy, chat, r) {
      assert !Reached(from, r);
      assert After(c, EntryOf(e.topics, e.cursor, c.topic));
      if r.cand.spoolSeq <= w.maxSeq {
        PassConsumesOnlyJudged(e.topics, e.cursor, w, ev, acts, now, c);
      } else {
        PassCursorBound(e.topics, e.cursor, w, ev, acts, now, c.topic);
        forall x | x in FromRows(w.rows)
          ensures x.spoolSeq <= w.maxSeq
        {
          FromRowsMember(w.rows, x);
          var q :| q in w.rows && !Filtered(q) && q.cand == x;
          FetchedMember(w, rows, from, q);
        }
      }
    }
  }

  /** The chat's entry after a pass is safe again. */
  lemma PassEntrySafe(l: Led, chat: string, rows: seq<Row>, judged: set<(string, nat)>, calls: nat, now: int,
      w: World, judged': set<(string, nat)>)
    requires var e := EntryFor(l, chat);
      && EntrySafe(e, l.legacy, chat, rows, judged) && judged <= judged'
      && FetchedAll(w, rows, FetchFrom(l, e)) && InStep(FromRows(w.rows))
      && (var p := PassOf(l, chat, calls, now, w);
          |p.good| == |p.work| && forall c :: c in FromRows(w.rows) && JudgedIn(p, c) ==> (chat, c.spoolSeq) in judged')
    ensures EntrySafe(AfterPass(l, chat, calls, w.maxSeq, PassOf(l, chat, calls, now, w)).0.chats[chat], l.legacy,
        chat, rows, judged')
  {
    var e := EntryFor(l, chat);
    var ev := Evaluation(e.topics, e.cursor, calls, now, w);
    var acts := Act(ev, MergedOf(e.topics, e.cursor, w), BudgetOf(l, e), w);
    var p := PassOf(l, chat, calls, now, w);
    assert p == PassWith(e.topics, e.cursor, w, ev, acts, now);
    forall r | r in rows
      ensures r.cand.topic in p.topics && Reached(p.topics[r.cand.topic].cursor, r) ==>
        Accounted(judged', l.legacy, chat, r)
      ensures p.pending == {} && r.cand.spoolSeq <= w.maxSeq ==> Accounted(judged', l.legacy, chat, r)
    {
      PassRowSafe(e, l.legacy, chat, rows, judged, w, ev, acts, now, judged', r);
    }
    AfterPassEntry(l, chat, calls, w.maxSeq, p, rows, judged, judged');
  }

  lemma AfterPassEntry(l: Led, chat: string, calls: nat, maxSeq: nat, p: Pass, rows: seq<Row>,
      judged: set<(string, nat)>, judged': set<(string, nat)>)
    requires EntrySafe(EntryFor(l, chat), l.legacy, chat, rows, judged) && judged <= judged'
    requires forall r :: r in rows ==>
      (r.cand.topic in p.topics && Reached(p.topics[r.cand.topic].cursor, r) ==> Accounted(judged', l.legacy, chat, r))
    requires forall r :: r in rows ==> (p.pending == {} && r.cand.spoolSeq <= maxSeq ==>
      Accounted(judged', l.legacy, chat, r))
    ensures EntrySafe(AfterPass(l, chat, calls, maxSeq, p).0.chats[chat], l.legacy, chat, rows, judged')
  {
  }

  lemma BrokenEntrySafe(e: ChatEntry, e': ChatEntry, legacy: Option<nat>, chat: string, rows: seq<Row>,
      judged: set<(string, nat)>)
    requires EntrySafe(e, legacy, chat, rows, judged)
    requires e'.cursor == e.cursor && CursorsKept(e.topics, e'.topics, e.cursor)
    ensures EntrySafe(e', legacy, chat, rows, judged)
  {
  }

  /** More judged messages never make an entry unsafe. */
  lemma SafeGrows(l: Led, spool: map<string, seq<Row>>, judged: set<(string, nat)>, judged': set<(string, nat)>)
    requires LedSafe(l, spool, judged) && judged <= judged'
    ensures LedSafe(l, spool, judged')
  {
    forall k | k in l.chats
      ensures EntrySafe(l.chats[k], l.legacy, KeyOf(k), RowsOf(spool, KeyOf(k)), judged')
    {
      assert EntrySafe(l.chats[k], l.legacy, KeyOf(k), RowsOf(spool, KeyOf(k)), judged);
    }
  }

  lemma EntryForSafe(l: Led, spool: map<string, seq<Row>>, judged: set<(string, nat)>, chat: string)
    requires LedSafe(l, spool, judged) && KeyOf(chat) == chat
    ensures EntrySafe(EntryFor(l, chat), l.legacy, chat, RowsOf(spool, chat), judged)
  {
  }

  lemma TurnOthersSame(l: Led, chat: string, calls: nat, now: int, turn: Turn)
    ensures var l' := TakeTurn(l, chat, calls, now, turn).0;
      && l'.legacy == l.legacy && chat in l'.chats
      && (forall k :: k in l'.chats && k != chat ==> k in l.chats && l'.chats[k] == l.chats[k])
  {
    if turn.Ran? { OthersAfterPass(l, chat, calls, turn.world.maxSeq, PassOf(l, chat, calls, now, turn.world)); }
  }

  lemma OthersAfterPass(l: Led, chat: string, calls: nat, maxSeq: nat, p: Pass)
    ensures var l' := AfterPass(l, chat, calls, maxSeq, p).0;
      && l'.legacy == l.legacy && chat in l'.chats
      && (forall k :: k in l'.chats && k != chat ==> k in l.chats && l'.chats[k] == l.chats[k])
  {
  }

  lemma TurnBelow(s: State, chat: string, calls: nat, now: int, turn: Turn, s': State)
    requires Inv(s) && Next(s, TurnOf(chat, calls, now, turn), s')
    ensures LedBelow(s'.working, s'.top)
  {
    var l, l', top := s.working, s'.working, s.top;
    var e, rows := EntryFor(l, chat), RowsOf(s.spool, chat);
    TurnOthersSame(l, chat, calls, now, turn);
    EntryForBelow(l, chat, top);
    assert EntryBelow(l'.chats[chat], top) by {
      if BackingOff(e, now) {
      } else if turn.Ran? {
        assert chat in s.spool ==> rows == s.spool[chat];
        FetchedInStep(turn.world, rows, FetchFrom(l, e));
        PassBelow(l, chat, rows, calls, now, turn.world, top);
      } else if turn.Broken? {
        KeptBelow(e, turn.topics, top);
      }
    }
    forall k | k in l'.chats ensures EntryBelow(l'.chats[k], top) { assert k != chat ==> EntryBelow(l.chats[k], top); }
  }

  /** What a pass counts as judged is recorded. */
  lemma TurnJudges(l: Led, chat: string, calls: nat, now: int, turn: Turn)
    requires turn.Ran? && !BackingOff(EntryFor(l, chat), now)
    ensures var p := PassOf(l, chat, calls, now, turn.world);
      |p.good| == |p.work| && forall c :: c in FromRows(turn.world.rows) && JudgedIn(p, c) ==>
        (chat, c.spoolSeq) in JudgedBy(l, chat, calls, now, turn)
  {
    var e, p := EntryFor(l, chat), PassOf(l, chat, calls, now, turn.world);
    forall c | c in FromRows(turn.world.rows) && JudgedIn(p, c)
      ensures Weighed(e.topics, e.cursor, calls, now, turn.world, c)
    {
      JudgedIsWeighed(e.topics, e.cursor, BudgetOf(l, e), calls, now, turn.world, c);
    }
  }

  lemma RanEntrySafe(l: Led, chat: string, rows: seq<Row>, judged: set<(string, nat)>, calls: nat, now: int,
      turn: Turn, judged': set<(string, nat)>)
    requires turn.Ran? && !BackingOff(EntryFor(l, chat), now)
    requires EntrySafe(EntryFor(l, chat), l.legacy, chat, rows, judged)
    requires FetchedAll(turn.world, rows, FetchFrom(l, EntryFor(l, chat)))
    requires forall i, j :: 0 <= i < j < |rows| ==>
      rows[i].cand.spoolSeq < rows[j].cand.spoolSeq && Earlier(rows[i].cand, rows[j].cand)
    requires judged' == judged + JudgedBy(l, chat, calls, now, turn)
    ensures EntrySafe(TakeTurn(l, chat, calls, now, turn).0.chats[chat], l.legacy, chat, rows, judged')
  {
    FetchedInStep(turn.world, rows, FetchFrom(l, EntryFor(l, chat)));
    TurnJudges(l, chat, calls, now, turn);
    PassEntrySafe(l, chat, rows, judged, calls, now, turn.world, judged');
  }

  lemma TurnIsSafe(s: State, chat: string, calls: nat, now: int, turn: Turn, s': State)
    requires Inv(s) && Next(s, TurnOf(chat, calls, now, turn), s')
    ensures Inv(s')
  {
    var l, l' := s.working, s'.working;
    var e, rows := EntryFor(l, chat), RowsOf(s.spool, chat);
    TurnBelow(s, chat, calls, now, turn, s');
    SafeGrows(s.saved, s.spool, s.judged, s'.judged);
    SafeGrows(l, s.spool, s.judged, s'.judged);
    EntryForSafe(l, s.spool, s'.judged, chat);
    EntryForSafe(l, s.spool, s.judged, chat);
    TurnOthersSame(l, chat, calls, now, turn);
    assert EntrySafe(l'.chats[chat], l'.legacy, chat, rows, s'.judged) by {
      if BackingOff(e, now) {
      } else if turn.Ran? {
        assert chat in s.spool ==> rows == s.spool[chat];
        RanEntrySafe(l, chat, rows, s.judged, calls, now, turn, s'.judged);
      } else if turn.Broken? {
        BrokenEntrySafe(e, l'.chats[chat], l.legacy, chat, rows, s'.judged);
      }
    }
  }

  // ----- Loading ---------------------------------------------------------------------------------

  lemma MergeSafe(a: ChatEntry, b: ChatEntry, legacy: Option<nat>, chat: string, rows: seq<Row>,
      judged: set<(string, nat)>)
    requires EntrySafe(a, legacy, chat, rows, judged) && EntrySafe(b, legacy, chat, rows, judged)
    ensures EntrySafe(MergeChats(a, b), legacy, chat, rows, judged)
  {
  }

  lemma {:induction false} NormalizedSafe(l: Led, order: seq<string>, spool: map<string, seq<Row>>,
      judged: set<(string, nat)>)
    requires LedSafe(l, spool, judged) && forall k :: k in order ==> k in l.chats
    ensures LedSafe(l.(chats := Normalized(l.chats, order)), spool, judged)
    ensures forall k :: k in Normalized(l.chats, order) ==> KeyOf(k) == k
  {
    if order != [] {
      var rest, k := order[..|order| - 1], order[|order| - 1];
      NormalizedSafe(l, rest, spool, judged);
      KeyOfIdempotent(k);
      var merged := Normalized(l.chats, rest);
      if KeyOf(k) in merged {
        MergeSafe(merged[KeyOf(k)], l.chats[k], l.legacy, KeyOf(k), RowsOf(spool, KeyOf(k)), judged);
      }
    }
  }

  lemma RolledSafe(l: Led, today: int, spool: map<string, seq<Row>>, judged: set<(string, nat)>)
    requires LedSafe(l, spool, judged)
    ensures LedSafe(Rolled(l, today), spool, judged)
  {
    forall k | k in Rolled(l, today).chats
      ensures EntrySafe(Rolled(l, today).chats[k], l.legacy, KeyOf(k), RowsOf(spool, KeyOf(k)), judged)
    {
      assert EntrySafe(l.chats[k], l.legacy, KeyOf(k), RowsOf(spool, KeyOf(k)), judged);
    }
  }

  lemma ArrivalSafe(l: Led, spool: map<string, seq<Row>>, judged: set<(string, nat)>, chat: string, row: Row)
    requires LedSafe(l, spool, judged) && AheadOf(l, row)
    ensures LedSafe(l, spool[chat := RowsOf(spool, chat) + [row]], judged)
  {
    var spool' := spool[chat := RowsOf(spool, chat) + [row]];
    forall k | k in l.chats
      ensures EntrySafe(l.chats[k], l.legacy, KeyOf(k), RowsOf(spool', KeyOf(k)), judged)
    {
      assert EntrySafe(l.chats[k], l.legacy, KeyOf(k), RowsOf(spool, KeyOf(k)), judged);
    }
  }

  lemma ArriveIsSafe(s: State, chat: string, row: Row, s': State)
    requires Inv(s) && Next(s, Arrive(chat, row), s')
    ensures Inv(s')
  {
    FreshRowIsAhead(s.saved, row, s.top);
    FreshRowIsAhead(s.working, row, s.top);
    ArrivalSafe(s.saved, s.spool, s.judged, chat, row);
    ArrivalSafe(s.working, s.spool, s.judged, chat, row);
    BelowGrows(s.saved, s.top, s'.top);
    BelowGrows(s.working, s.top, s'.top);
  }

  lemma LoadIsSafe(s: State, order: seq<string>, today: int, s': State)
    requires Inv(s) && Next(s, Load(order, today), s')
    ensures Inv(s')
  {
    NormalizedSafe(s.saved, order, s.spool, s.judged);
    RolledSafe(s.saved.(chats := Normalized(s.saved.chats, order)), today, s.spool, s.judged);
    NormalizedBelow(s.saved, order, s.top);
    RolledBelow(s.saved.(chats := Normalized(s.saved.chats, order)), today, s.top);
  }

  /** Numbering starts over under the eyes of a reader that has already read something. */
  ghost predicate Surprises(s: State, ev: Event) { ev.StartOver? && !(LedBelow(s.saved, 0) && LedBelow(s.working, 0)) }

  /** Each event of the loop keeps the guarantee, unless numbering starts over below a cursor. */
  lemma StepIsSafe(s: State, ev: Event, s': State)
    requires Inv(s) && Next(s, ev, s') && !Surprises(s, ev)
    ensures Inv(s')
  {
    match ev
    case Arrive(chat, row) => ArriveIsSafe(s, chat, row, s');
    case StartOver =>
    case Load(order, today) => LoadIsSafe(s, order, today, s');
    case TurnOf(chat, calls, now, turn) => TurnIsSafe(s, chat, calls, now, turn, s');
    case Save =>
  }

  ghost predicate IsRun(states: seq<State>, events: seq<Event>) {
    && |states| == |events| + 1
    && forall i :: 0 <= i < |events| ==> Next(states[i], events[i], states[i + 1])
  }

  lemma {:induction false} RunIsSafe(states: seq<State>, events: seq<Event>, n: nat)
    requires IsRun(states, events) && n < |states| && Inv(states[0])
    requires forall i :: 0 <= i < n ==> !Surprises(states[i], events[i])
    ensures Inv(states[n])
  {
    if n > 0 {
      RunIsSafe(states, events, n - 1);
      StepIsSafe(states[n - 1], events[n - 1], states[n]);
    }
  }

  /** What lies at or below the cursors when a run begins counts as dealt with before. */
  ghost function Checkpoint(l: Led, spool: map<string, seq<Row>>): set<(string, nat)> {
    set k, r | k in l.chats && r in RowsOf(spool, KeyOf(k)) && Passed(l.chats[k], r) :: (KeyOf(k), r.cand.spoolSeq)
  }

  /** Any ledger with cursors among the numbers given out, and any orderly spool, may be the start of a run. */
  lemma StartIsSafe(l: Led, spool: map<string, seq<Row>>, top: nat)
    requires SpoolOk(spool) && LedBelow(l, top)
    ensures Inv(State(l, l, spool, top, Checkpoint(l, spool)))
  {
    forall k | k in l.chats
      ensures EntrySafe(l.chats[k], l.legacy, KeyOf(k), RowsOf(spool, KeyOf(k)), Checkpoint(l, spool))
    {
    }
  }

  /** In this turn of chat `k` the fetched message `q` was assessed, or its batch given up. */
  ghost predicate WeighedBy(s: State, ev: Event, k: string, q: nat) {
    && ev.TurnOf? && ev.chat == k && ev.turn.Ran?
    && exists c :: c in FromRows(ev.turn.world.rows) && c.spoolSeq == q
         && Weighed(EntryFor(s.working, k).topics, EntryFor(s.working, k).cursor, ev.calls, ev.now, ev.turn.world, c)
  }

  /** In which steps of a run message `q` of chat `k` was weighed, and in which the numbering started over. */
  ghost function WeighedAt(states: seq<State>, events: seq<Event>, k: string, q: nat): nat -> bool {
    (i: nat) => i < |events| && i < |states| && WeighedBy(states[i], events[i], k, q)
  }

  ghost function StartedOver(events: seq<Event>): nat -> bool { (i: nat) => i < |events| && events[i].StartOver? }

  /** It was so from the start, or became so in one of the first `n` steps, and nothing has started over since. */
  ghost predicate Since(start: bool, at: nat -> bool, over: nat -> bool, n: nat) {
    || (start && forall j: nat :: j < n ==> !over(j))
    || exists i: nat :: i < n && at(i) && forall j: nat :: i <= j < n ==> !over(j)
  }

  lemma {:induction false} TracedBack(judged: nat -> bool, at: nat -> bool, over: nat -> bool, n: nat)
    requires forall i: nat :: i < n && judged(i + 1) ==> !over(i) && (judged(i) || at(i))
    requires judged(n)
    ensures Since(judged(0), at, over, n)
  {
    if n > 0 {
      assert judged(n - 1 + 1);
      if judged(n - 1) { TracedBack(judged, at, over, n - 1); }
    }
  }

  /** What a step leaves judged it found so, or weighed. */
  lemma JudgedStep(s: State, ev: Event, s': State, k: string, q: nat)
    requires Next(s, ev, s') && (k, q) in s'.judged
    ensures !ev.StartOver? && ((k, q) in s.judged || WeighedBy(s, ev, k, q))
  {
  }

  /**
   * A message that a run records as judged was weighed in one of its turns, unless the run began with it;
   * and numbering has not started over since, so that the number still means this message.
   */
  lemma JudgedWasWeighed(states: seq<State>, events: seq<Event>, n: nat, k: string, q: nat)
    requires IsRun(states, events) && n < |states| && (k, q) in states[n].judged
    ensures Since((k, q) in states[0].judged, WeighedAt(states, events, k, q), StartedOver(events), n)
  {
    var judged := (i: nat) => i < |states| && (k, q) in states[i].judged;
    var at, over := WeighedAt(states, events, k, q), StartedOver(events);
    forall i: nat | i < n && judged(i + 1) ensures !over(i) && (judged(i) || at(i)) {
      JudgedStep(states[i], events[i], states[i + 1], k, q);
    }
    TracedBack(judged, at, over, n);
  }

  /**
   * No message is lost, over any run of the loop: whatever the decider, the composer, the
   * transports and crashes do, a spooled message at or below its chat's or its topic's saved
   * cursor was filtered as own or command, predates the start, or was assessed or given up in one of
   * the turns. The numbering of the spool must not start over once something has been read.
   */
  lemma NoMessageLost(states: seq<State>, events: seq<Event>, n: nat, k: string, r: Row)
    requires IsRun(states, events) && n < |states| && Inv(states[0])
    requires forall i :: 0 <= i < n ==> !Surprises(states[i], events[i])
    requires k in states[n].saved.chats && r in RowsOf(states[n].spool, KeyOf(k))
    requires Passed(states[n].saved.chats[k], r)
    ensures Filtered(r) || Reached(states[n].saved.legacy, r)
      || ((KeyOf(k), r.cand.spoolSeq) in states[n].judged
          && Since((KeyOf(k), r.cand.spoolSeq) in states[0].judged,
                   WeighedAt(states, events, KeyOf(k), r.cand.spoolSeq), StartedOver(events), n))
  {
    RunIsSafe(states, events, n);
    if (KeyOf(k), r.cand.spoolSeq) in states[n].judged {
      JudgedWasWeighed(states, events, n, KeyOf(k), r.cand.spoolSeq);
    }
  }

  /**
   * A cycle of the loop is three steps: load, one turn a chat, save. What is saved then is the merged and
   * rolled ledger with the turn booked; so cursors that a turn moves (`Progress.TurnMoves`) stay moved.
   */
  lemma CycleIsSaved(s: State, order: seq<string>, today: int, chat: string, calls: nat, now: int, turn: Turn)
      returns (s1: State, s2: State, s3: State)
    requires Lists(order, s.saved.chats) && KeyOf(chat) == chat
    requires var l := Rolled(s.saved.(chats := Normalized(s.saved.chats, order)), today);
      TurnOk(l, chat, calls, turn)
      && (turn.Ran? ==> turn.world.maxSeq <= s.top
                        && FetchedAll(turn.world, RowsOf(s.spool, chat), FetchFrom(l, EntryFor(l, chat))))
    ensures Next(s, Load(order, today), s1) && Next(s1, TurnOf(chat, calls, now, turn), s2) && Next(s2, Save, s3)
    ensures s3.spool == s.spool && s3.judged >= s.judged
    ensures var l := Rolled(s.saved.(chats := Normalized(s.saved.chats, order)), today);
      s3.saved == TakeTurn(l, chat, calls, now, turn).0
  {
    s1 := s.(working := Rolled(s.saved.(chats := Normalized(s.saved.chats, order)), today));
    s2 := s1.(working := TakeTurn(s1.working, chat, calls, now, turn).0,
              judged := s1.judged + JudgedBy(s1.working, chat, calls, now, turn));
    s3 := s2.(saved := s2.working);
  }

  /**
   * When it does, messages are lost: after numbering starts over, the next message of a chat or
   * topic that has a cursor arrives at or below it, unjudged, and no fetch past a chat cursor will
   * ever return it.
   */
  lemma StartOverLosesMessages(s: State, k: string, row: Row) returns (s1: State, s2: State)
    requires k in s.saved.chats && KeyOf(k) == k && Passed(s.saved.chats[k], row)
    requires row.cand.spoolSeq == 1 && !Filtered(row) && !Reached(s.saved.legacy, row)
    ensures Next(s, StartOver, s1) && Next(s1, Arrive(k, row), s2)
    ensures s2.saved == s.saved && row in RowsOf(s2.spool, k) && Passed(s2.saved.chats[k], row)
    ensures !Accounted(s2.judged, s2.saved.legacy, k, row)
    ensures Reached(s.saved.chats[k].cursor, row) ==>
      (forall w: World :: FetchedAll(w, RowsOf(s2.spool, k), FetchFrom(s2.saved, s2.saved.chats[k])) ==> row !in w.rows)
  {
    s1 := s.(spool := map[], top := 0, judged := {});
    s2 := s1.(spool := map[k := [row]], top := 1);
    assert RowsOf(s1.spool, k) + [row] == [row];
    assert s1.spool[k := [row]] == map[k := [row]];
    forall w: World | Reached(s.saved.chats[k].cursor, row) && FetchedAll(w, RowsOf(s2.spool, k),
        FetchFrom(s2.saved, s2.saved.chats[k]))
      ensures row !in w.rows
    {
      FetchedMember(w, RowsOf(s2.spool, k), FetchFrom(s2.saved, s2.saved.chats[k]), row);
    }
  }

  // ----- The budget over runs --------------------------------------------------------------------

  lemma LoadKeepsBooks(l: Led, order: seq<string>, today: int)
    requires Lists(order, l.chats) && (l.day == today ==> BooksOk(l))
    ensures BooksOk(Rolled(l.(chats := Normalized(l.chats, order)), today))
  {
    var merged := l.(chats := Normalized(l.chats, order));
    if l.day == today {
      NormalizeKeepsBalance(l, order);
    } else {
      RollBalances(merged, today);
    }
  }

  lemma BooksStep(s: State, ev: Event, s': State)
    requires BooksOk(s.saved) && BooksOk(s.working) && Next(s, ev, s')
    ensures BooksOk(s'.saved) && BooksOk(s'.working)
  {
    match ev
    case Arrive(_, _) =>
    case StartOver =>
    case Load(order, today) => LoadKeepsBooks(s.saved, order, today);
    case TurnOf(chat, calls, now, turn) => TurnKeepsBooks(s.working, chat, calls, now, turn);
    case Save =>
  }

  /**
   * Daily budget conservation over any run that starts balanced, for instance at a day roll:
   * each global reply counter is the sum of the chats' counters and stays within its ceiling.
   */
  lemma {:induction false} BudgetConserved(states: seq<State>, events: seq<Event>, n: nat)
    requires IsRun(states, events) && n < |states| && BooksOk(states[0].saved) && BooksOk(states[0].working)
    ensures Balanced(states[n].saved) && WithinDay(states[n].saved)
    ensures Balanced(states[n].working) && WithinDay(states[n].working)
  {
    if n > 0 {
      BudgetConserved(states, events, n - 1);
      BooksStep(states[n - 1], events[n - 1], states[n]);
    }
  }
}
