/** The inbox on top of the spool, and the update cursor that may only follow durable rows. */
module Inbox {
  import opened Prelude
  import opened Text
  import opened Peers
  import opened Spool
  import opened Utf8

  const MAX_SEEN_IDS := 2048

  function ChatKey(chat: string): string { Lower(StripAt(Strip(chat))) }

  /** Every spelling of a chat has the same key: white space around it, `@` before it and capitals do not count. */
  lemma ChatKeyFolds(before: string, ats: string, name: string, after: string)
    requires AllSpace(before) && AllSpace(after) && AllAt(ats) && name != "" && name[0] != '@' && Trimmed(name)
    ensures ChatKey(before + (ats + name) + after) == Lower(name)
  {
    StripOf(before, ats + name, after);
    StripAtOf(ats, name);
  }

  // ----- The cache of recent keys ---------------------------------------------------------------

  /** A bounded queue; a key already in it keeps its place. */
  function Remember(order: seq<Key>, k: Key): seq<Key> {
    if k in order then order
    else if |order| >= MAX_SEEN_IDS then order[1..] + [k]
    else order + [k]
  }

  predicate QueueOk(order: seq<Key>) {
    |order| <= MAX_SEEN_IDS && forall i, j :: 0 <= i < j < |order| ==> order[i] != order[j]
  }

  lemma RememberOk(order: seq<Key>, k: Key)
    requires QueueOk(order)
    ensures QueueOk(Remember(order, k)) && k in Remember(order, k)
    ensures forall x :: x in Remember(order, k) ==> x == k || x in order
  {
  }

  /** A new key goes last; nothing leaves a cache that has room, and only the oldest key a full one. */
  lemma RememberExactly(order: seq<Key>, k: Key)
    requires QueueOk(order)
    ensures var order' := Remember(order, k);
      if k in order then order' == order
      else
        && order' != [] && order'[|order'| - 1] == k
        && order'[..|order'| - 1] == if |order| < 2048 then order else order[1..]
  {
  }

  function RememberAll(order: seq<Key>, keys: seq<Key>): seq<Key> {
    if keys == [] then order else Remember(RememberAll(order, keys[..|keys| - 1]), keys[|keys| - 1])
  }

  lemma {:induction false} RememberAllOk(order: seq<Key>, keys: seq<Key>)
    requires QueueOk(order)
    ensures QueueOk(RememberAll(order, keys))
    ensures forall x :: x in RememberAll(order, keys) ==> x in order || x in keys
  {
    if keys != [] {
      RememberAllOk(order, keys[..|keys| - 1]);
      RememberOk(RememberAll(order, keys[..|keys| - 1]), keys[|keys| - 1]);
    }
  }

  // ----- Taking in one message ------------------------------------------------------------------

  /** `row` is what would be spooled; its key is the folded chat and the message id. */
  datatype Message<R> = Message(own: bool, row: R)

  datatype Outcome = Own | Duplicate | Written | StorageFailure

  /** The process and its disk; `durable` records every key a complete row was ever on disk for. */
  datatype Mem = Mem(disk: Disk, order: seq<Key>, durable: set<Key>)

  function KeysOn<R>(c: Codec<R>, d: Disk): set<Key> {
    var rows := RowsIn(c, d.file);
    set i | 0 <= i < |rows| :: c.key(rows[i])
  }

  function OnDisk<R>(c: Codec<R>, m: Mem, d: Disk): Mem { m.(disk := d, durable := m.durable + KeysOn(c, d)) }

  /** `fail` is where an exception cuts the append off, if one does. */
  function Ingested<R>(c: Codec<R>, m: Mem, msg: Message<R>, fail: Option<Crash>): (Mem, Outcome) {
    if msg.own then (m, Own)
    else if c.key(msg.row) in m.order then (m, Duplicate)
    else if CutOff(c, m.disk, fail).Some? then
      (OnDisk(c, m, CrashedIn(c, m.disk, msg.row, CutOff(c, m.disk, fail).value)), StorageFailure)
    else
      var (d, written) := Appended(c, m.disk, msg.row);
      (OnDisk(c, m, d).(order := Remember(m.order, c.key(msg.row))), if written then Written else Duplicate)
  }

  ghost predicate MemOk<R(!new)>(c: Codec<R>, m: Mem) {
    && DiskOk(c, m.disk) && QueueOk(m.order) && KeysOn(c, m.disk) <= m.durable
    && forall k :: k in m.order ==> k in m.durable
  }

  lemma KeyOnDisk<R>(c: Codec<R>, d: Disk, k: Key)
    ensures k in KeysOn(c, d) <==> HasKey(c, RowsIn(c, d.file), k)
  {
  }

  /**
   * Whatever happens to the append, the cache and the spool stay good; a message the transport
   * may acknowledge is own or durable; a key in the cache or on disk never gets a second row.
   */
  lemma IngestIsSafe<R(!new)>(c: Codec<R>, m: Mem, msg: Message<R>, fail: Option<Crash>)
    requires CodecOk(c) && MemOk(c, m)
    ensures var (m', out) := Ingested(c, m, msg, fail);
      && MemOk(c, m') && m.durable <= m'.durable
      && (out == Written || out == Duplicate ==> c.key(msg.row) in m'.durable)
      && (c.key(msg.row) in m.order || c.key(msg.row) in KeysOn(c, m.disk) ==>
            out != Written && RowsIn(c, m'.disk.file) == RowsIn(c, m.disk.file))
  {
    var k := c.key(msg.row);
    KeyOnDisk(c, m.disk, k);
    if !msg.own && k !in m.order {
      RememberOk(m.order, k);
      RepairedOk(c, m.disk);
      if fail.Some? {
        CrashIsOk(c, m.disk, msg.row, fail.value);
      } else {
        AppendPutsKey(c, m.disk, msg.row);
      }
    }
  }

  /**
   * What becomes of one message: the agent's own and those in the cache are left alone; of the others the
   * append decides, and what it stored or found on disk is remembered.
   */
  lemma IngestExactly<R(!new)>(c: Codec<R>, m: Mem, msg: Message<R>, fail: Option<Crash>)
    requires CodecOk(c) && MemOk(c, m)
    ensures var (m', out) := Ingested(c, m, msg, fail);
      var k, rows := c.key(msg.row), RowsIn(c, m.disk.file);
      if msg.own then out == Own && m' == m
      else if k in m.order then out == Duplicate && m' == m
      else if fail.Some? then
        out == StorageFailure && m'.order == m.order && m'.disk == CrashedIn(c, m.disk, msg.row, fail.value)
      else
        && (out == Duplicate <==> exists i :: 0 <= i < |rows| && c.key(rows[i]) == k)
        && (out == Written <==> forall i :: 0 <= i < |rows| ==> c.key(rows[i]) != k)
        && m'.order == Remember(m.order, k) && m'.disk == Appended(c, m.disk, msg.row).0
  {
    NotCutOff(c, m.disk, fail);
    var _, _ := AppendExactly(c, m.disk, msg.row);
  }

  lemma NotCutOff<R(!new)>(c: Codec<R>, d: Disk, fail: Option<Crash>)
    requires CodecOk(c) && DiskOk(c, d)
    ensures CutOff(c, d, fail) == fail
  {
    RepairedOk(c, d);
  }

  lemma AppendPutsKey<R(!new)>(c: Codec<R>, d: Disk, r: R)
    requires CodecOk(c) && DiskOk(c, d)
    ensures var (d', written) := Appended(c, d, r);
      && DiskOk(c, d') && c.key(r) in KeysOn(c, d')
      && (HasKey(c, RowsIn(c, d.file), c.key(r)) ==> !written && RowsIn(c, d'.file) == RowsIn(c, d.file))
  {
    var j := AppendIsOk(c, d, r);
    var (d', written) := Appended(c, d, r);
    var rows := RowsIn(c, d'.file);
    KeyOnDisk(c, d', c.key(r));
    if written {
      assert c.key(rows[|rows| - 1]) == c.key(r);
    } else {
      assert RowsIn(c, d.file)[0..] == RowsIn(c, d.file);
    }
  }

  // ----- Restart ----------------------------------------------------------------------------------

  function LastOf<T>(s: seq<T>, n: nat): seq<T> { if |s| <= n then s else s[|s| - n..] }

  /** The cache as a new process reads it off the last lines of the spool, if it can be read. */
  function LoadedKeys<R>(c: Codec<R>, file: Bytes): seq<Key> {
    if IsUtf8(file) then RememberAll([], Map(c.key, Decoded(c, LastOf(Lines(file), MAX_SEEN_IDS)))) else []
  }

  function Reloaded<R>(c: Codec<R>, m: Mem): Mem { m.(order := LoadedKeys(c, m.disk.file)) }

  lemma {:induction false} DecodedSuffix<R>(c: Codec<R>, lines: seq<Bytes>, k: nat)
    requires k <= |lines|
    ensures forall r :: r in Decoded(c, lines[k..]) ==> r in Decoded(c, lines)
  {
    if k == 0 {
      assert lines[0..] == lines;
    } else {
      DecodedSuffix(c, lines[1..], k - 1);
      assert lines[1..][k - 1..] == lines[k..];
    }
  }

  lemma ReloadIsSafe<R(!new)>(c: Codec<R>, m: Mem)
    requires MemOk(c, m)
    ensures MemOk(c, Reloaded(c, m))
  {
    var lines := Lines(m.disk.file);
    var rows := Decoded(c, LastOf(lines, MAX_SEEN_IDS));
    if |lines| > MAX_SEEN_IDS { DecodedSuffix(c, lines, |lines| - MAX_SEEN_IDS); }
    RememberAllOk([], Map(c.key, rows));
    forall k | k in LoadedKeys(c, m.disk.file)
      ensures k in m.durable
    {
      var i :| 0 <= i < |rows| && Map(c.key, rows)[i] == k;
      assert rows[i] in RowsIn(c, m.disk.file);
      assert k in KeysOn(c, m.disk);
    }
  }

  lemma {:induction false} AllRemembered(keys: seq<Key>)
    requires |keys| <= MAX_SEEN_IDS
    ensures |RememberAll([], keys)| <= |keys| && QueueOk(RememberAll([], keys))
    ensures forall k :: k in keys ==> k in RememberAll([], keys)
  {
    if keys != [] {
      var init, last := keys[..|keys| - 1], keys[|keys| - 1];
      AllRemembered(init);
      RememberOk(RememberAll([], init), last);
      assert keys == init + [last];
    }
  }

  lemma {:induction false} FewerDecoded<R>(c: Codec<R>, lines: seq<Bytes>)
    ensures |Decoded(c, lines)| <= |lines|
  {
    if lines != [] { FewerDecoded(c, lines[1..]); }
  }

  /** A new process knows every message among the last 2048 lines of a spool that can be read. */
  lemma ReloadKnowsTheNewest<R>(c: Codec<R>, m: Mem, r: R)
    requires IsUtf8(m.disk.file)
    requires var lines := Lines(m.disk.file);
      r in Decoded(c, if |lines| <= 2048 then lines else lines[|lines| - 2048..])
    ensures c.key(r) in Reloaded(c, m).order
  {
    var lines := LastOf(Lines(m.disk.file), MAX_SEEN_IDS);
    FewerDecoded(c, lines);
    KeysRemembered(c, Decoded(c, lines), r);
  }

  lemma KeysRemembered<R>(c: Codec<R>, rows: seq<R>, r: R)
    requires |rows| <= MAX_SEEN_IDS && r in rows
    ensures c.key(r) in RememberAll([], Map(c.key, rows))
  {
    AllRemembered(Map(c.key, rows));
    var i :| 0 <= i < |rows| && rows[i] == r;
    assert Map(c.key, rows)[i] == c.key(r);
  }

  // ----- The update cursor ----------------------------------------------------------------------

  /** An update without a well-formed message of an allowed group is `Ignored`. */
  datatype Content<R> = Ignored | Relevant(msg: Message<R>)

  datatype Update<R> = Update(id: nat, content: Content<R>)

  datatype Poll = Poll(mem: Mem, offset: nat, written: nat, stopped: bool)

  function PollOne<R>(c: Codec<R>, p: Poll, u: Update<R>, fail: Option<Crash>): Poll {
    if p.stopped then p
    else if u.content.Ignored? then p.(offset := Max(p.offset, u.id + 1))
    else
      var (mem, out) := Ingested(c, p.mem, u.content.msg, fail);
      if out == StorageFailure then p.(mem := mem, stopped := true)
      else
        var written := if out == Written then p.written + 1 else p.written;
        p.(mem := mem, offset := Max(p.offset, u.id + 1), written := written)
  }

  function Polling<R>(c: Codec<R>, batch: seq<Update<R>>, fails: nat -> Option<Crash>): (Poll, nat) -> Poll {
    (p: Poll, i: nat) => if i < |batch| then PollOne(c, p, batch[i], fails(i)) else p
  }

  function Repeated<S>(start: S, n: nat, step: (S, nat) -> S): S {
    if n == 0 then start else step(Repeated(start, n - 1, step), n - 1)
  }

  /** The state after the first `n` updates of a batch. */
  function Polled<R>(c: Codec<R>, start: Poll, batch: seq<Update<R>>, n: nat, fails: nat -> Option<Crash>): Poll
    requires n <= |batch|
  {
    Repeated(start, n, Polling(c, batch, fails))
  }

  lemma PolledOnce<R>(c: Codec<R>, start: Poll, batch: seq<Update<R>>, n: nat, fails: nat -> Option<Crash>, p: Poll,
      p': Poll)
    requires n < |batch| && Polled(c, start, batch, n, fails) == p && PollOne(c, p, batch[n], fails(n)) == p'
    ensures Polled(c, start, batch, n + 1, fails) == p'
  {
  }

  lemma {:induction false} PollStaysStopped<R>(
    c: Codec<R>, start: Poll, batch: seq<Update<R>>, i: nat, n: nat, fails: nat -> Option<Crash>, p: Poll)
    requires i <= n <= |batch| && Polled(c, start, batch, i, fails) == p && p.stopped
    ensures Polled(c, start, batch, n, fails) == p
    decreases n - i
  {
    if i < n {
      PolledOnce(c, start, batch, i, fails, p, p);
      PollStaysStopped(c, start, batch, i + 1, n, fails, p);
    }
  }

  /** Nothing is owed for this update any more. */
  predicate Handled<R>(c: Codec<R>, durable: set<Key>, u: Update<R>) {
    u.content.Ignored? || u.content.msg.own || c.key(u.content.msg.row) in durable
  }

  ghost predicate RisingIds<R>(us: seq<Update<R>>) { forall i, j :: 0 <= i < j < |us| ==> us[i].id < us[j].id }

  /** One processed update is handled, and handling only grows. */
  lemma PollStep<R(!new)>(c: Codec<R>, p: Poll, u: Update<R>, fail: Option<Crash>)
    requires CodecOk(c) && MemOk(c, p.mem)
    ensures var p' := PollOne(c, p, u, fail);
      && MemOk(c, p'.mem) && p.mem.durable <= p'.mem.durable
      && (p.stopped ==> p' == p)
      && (p'.stopped ==> p'.offset == p.offset)
      && (!p'.stopped ==> !p.stopped && p'.offset == Max(p.offset, u.id + 1) && Handled(c, p'.mem.durable, u))
  {
    if !p.stopped && u.content.Relevant? {
      var (mem, out) := Ingested(c, p.mem, u.content.msg, fail);
      IngestIsSafe(c, p.mem, u.content.msg, fail);
      assert out == Own ==> u.content.msg.own;
    }
  }

  /** One update moves the offset and the count of new rows exactly as its message turned out. */
  lemma PollOneExactly<R(!new)>(c: Codec<R>, p: Poll, u: Update<R>, fail: Option<Crash>)
    requires CodecOk(c) && MemOk(c, p.mem) && !p.stopped
    ensures var p' := PollOne(c, p, u, fail);
      var past := if p.offset > u.id + 1 then p.offset else u.id + 1;
      if u.content.Ignored? then p' == p.(offset := past)
      else
        var (mem, out) := Ingested(c, p.mem, u.content.msg, fail);
        && p'.mem == mem && (p'.stopped <==> out == StorageFailure)
        && p'.offset == (if out == StorageFailure then p.offset else past)
        && p'.written == p.written + if out == Written then 1 else 0
  {
  }

  /**
   * Inside a sorted batch: an update of the batch below the offset is handled, and the offset
   * stays put beyond the first update that could not be stored.
   */
  ghost predicate PollInv<R(!new)>(c: Codec<R>, start: Poll, p: Poll, batch: seq<Update<R>>, n: nat) {
    && MemOk(c, p.mem) && start.mem.durable <= p.mem.durable && start.offset <= p.offset
    && (forall i :: 0 <= i < |batch| && batch[i].id < p.offset ==> Handled(c, p.mem.durable, batch[i]))
    && (!p.stopped ==> forall i :: 0 <= i < n && i < |batch| ==> batch[i].id < p.offset)
    && (forall i :: n <= i < |batch| ==> p.offset <= batch[i].id)
    && (p.offset == start.offset || exists i :: 0 <= i < |batch| && p.offset == batch[i].id + 1)
  }

  lemma HandledGrows<R>(c: Codec<R>, a: set<Key>, b: set<Key>, u: Update<R>)
    requires a <= b && Handled(c, a, u)
    ensures Handled(c, b, u)
  {
  }

  lemma PollInvStep<R(!new)>(c: Codec<R>, start: Poll, p: Poll, p': Poll, batch: seq<Update<R>>, n: nat,
      fail: Option<Crash>)
    requires CodecOk(c) && RisingIds(batch) && n < |batch| && PollInv(c, start, p, batch, n)
      && p' == PollOne(c, p, batch[n], fail)
    ensures PollInv(c, start, p', batch, n + 1)
  {
    PollStep(c, p, batch[n], fail);
    assert !p'.stopped ==> p'.offset == batch[n].id + 1;
    forall i | 0 <= i < |batch| && batch[i].id < p'.offset ensures Handled(c, p'.mem.durable, batch[i]) {
      if batch[i].id < p.offset { HandledGrows(c, p.mem.durable, p'.mem.durable, batch[i]); } else { assert i == n; }
    }
  }

  lemma PollGoesOn<R(!new)>(c: Codec<R>, start: Poll, p: Poll, batch: seq<Update<R>>, n: nat,
      fails: nat -> Option<Crash>)
    requires CodecOk(c) && RisingIds(batch) && n < |batch|
    requires Polled(c, start, batch, n, fails) == p && PollInv(c, start, p, batch, n)
    ensures PollInv(c, start, Polled(c, start, batch, n + 1, fails), batch, n + 1)
  {
    var p' := PollOne(c, p, batch[n], fails(n));
    PollInvStep(c, start, p, p', batch, n, fails(n));
    PolledOnce(c, start, batch, n, fails, p, p');
  }

  lemma {:induction false} PollIsSafe<R(!new)>(
    c: Codec<R>, start: Poll, batch: seq<Update<R>>, n: nat, fails: nat -> Option<Crash>)
    requires CodecOk(c) && MemOk(c, start.mem) && RisingIds(batch) && n <= |batch|
    requires forall i :: 0 <= i < |batch| ==> batch[i].id >= start.offset
    ensures PollInv(c, start, Polled(c, start, batch, n, fails), batch, n)
  {
    if n > 0 {
      PollIsSafe(c, start, batch, n - 1, fails);
      PollGoesOn(c, start, Polled(c, start, batch, n - 1, fails), batch, n - 1, fails);
    }
  }

  /** All went well so far: nothing stopped the batch, and each of its first `n` updates is handled and passed. */
  ghost predicate WentThrough<R(!new)>(c: Codec<R>, p: Poll, batch: seq<Update<R>>, n: nat) {
    !p.stopped && MemOk(c, p.mem)
    && forall i :: 0 <= i < n && i < |batch| ==> batch[i].id < p.offset && Handled(c, p.mem.durable, batch[i])
  }

  lemma OneGoesThrough<R(!new)>(c: Codec<R>, p: Poll, batch: seq<Update<R>>, n: nat)
    requires CodecOk(c) && n < |batch| && WentThrough(c, p, batch, n)
    ensures WentThrough(c, PollOne(c, p, batch[n], None), batch, n + 1)
  {
    var p' := PollOne(c, p, batch[n], None);
    PollStep(c, p, batch[n], None);
    PollOneExactly(c, p, batch[n], None);
    if batch[n].content.Relevant? { IngestExactly(c, p.mem, batch[n].content.msg, None); }
    forall i | 0 <= i < n ensures Handled(c, p'.mem.durable, batch[i]) {
      HandledGrows(c, p.mem.durable, p'.mem.durable, batch[i]);
    }
  }

  /** While no append fails, a batch in any order is handled to its end, and the offset passes all of it. */
  lemma {:induction false} PollGoesThrough<R(!new)>(
    c: Codec<R>, start: Poll, batch: seq<Update<R>>, n: nat, fails: nat -> Option<Crash>)
    requires CodecOk(c) && MemOk(c, start.mem) && !start.stopped && n <= |batch|
    requires forall i: nat :: i < n ==> fails(i) == None
    ensures WentThrough(c, Polled(c, start, batch, n, fails), batch, n)
  {
    if n > 0 {
      PollGoesThrough(c, start, batch, n - 1, fails);
      var p := Polled(c, start, batch, n - 1, fails);
      OneGoesThrough(c, p, batch, n - 1);
      PolledOnce(c, start, batch, n - 1, fails, p, PollOne(c, p, batch[n - 1], fails(n - 1)));
    }
  }

  /**
   * The order of a batch matters: if an update comes after one with a larger id, and its message
   * cannot be stored, the offset has passed it although it is not durable.
   */
  lemma UnsortedBatchLosesAMessage<R(!new)>(
    c: Codec<R>, m: Mem, offset: nat, late: Update<R>, early: Update<R>, fails: nat -> Option<Crash>)
    requires CodecOk(c) && MemOk(c, m) && late.content.Ignored? && early.id < late.id
    requires early.content.Relevant? && !early.content.msg.own && c.key(early.content.msg.row) !in m.durable
    requires fails(1) == Some(AtStart)
    ensures var p := Polled(c, Poll(m, offset, 0, false), [late, early], 2, fails);
      p.offset > early.id && !Handled(c, p.mem.durable, early)
  {
    var start := Poll(m, offset, 0, false);
    var p1 := PollOne(c, start, late, fails(0));
    assert Polled(c, start, [late, early], 1, fails) == p1;
    assert Polled(c, start, [late, early], 2, fails) == PollOne(c, p1, early, fails(1));
  }

  // ----- Whole runs -------------------------------------------------------------------------------

  /** `queue` is what the server still holds, `arrived` everything it ever received. */
  datatype Sys<R> = Sys(queue: seq<Update<R>>, arrived: seq<Update<R>>, mem: Mem, offset: nat)

  /** A crash in the middle of a poll is a poll that fails there, followed by a restart. */
  datatype Event<R> =
    | Arrive(u: Update<R>)
    | PollNow(limit: nat, fails: nat -> Option<Crash>)
    | Restart
    | LoseCounter

  function From<R>(offset: nat): Update<R> -> bool { (u: Update<R>) => u.id >= offset }

  function Unconfirmed<R>(queue: seq<Update<R>>, offset: nat): seq<Update<R>> { Filter(queue, From(offset)) }

  /** The server confirms what lies below the offset and hands out the oldest rest. */
  function Served<R>(s: Sys<R>, limit: nat): seq<Update<R>> {
    var rest := Unconfirmed(s.queue, s.offset);
    rest[..Min(limit, |rest|)]
  }

  function PollOf<R>(c: Codec<R>, s: Sys<R>, limit: nat, fails: nat -> Option<Crash>): Poll {
    var batch := Served(s, limit);
    Polled(c, Poll(s.mem, s.offset, 0, false), batch, |batch|, fails)
  }

  function Step<R>(c: Codec<R>, s: Sys<R>, ev: Event<R>): Sys<R> {
    match ev
    case Arrive(u) => s.(queue := s.queue + [u], arrived := s.arrived + [u])
    case PollNow(limit, fails) =>
      var p := PollOf(c, s, limit, fails);
      Sys(Unconfirmed(s.queue, s.offset), s.arrived, p.mem, p.offset)
    case Restart => s.(offset := 0, mem := Reloaded(c, s.mem))
    case LoseCounter => s.(mem := s.mem.(disk := s.mem.disk.(sidecar := None)))
  }

  ghost predicate Next<R>(c: Codec<R>, s: Sys<R>, ev: Event<R>, s': Sys<R>) {
    s' == Step(c, s, ev)
    && (ev.Arrive? ==> forall u :: u in s.arrived ==> u.id < ev.u.id)
  }

  /** Confirmed or passed updates are handled. */
  ghost predicate SysOk<R(!new)>(c: Codec<R>, s: Sys<R>) {
    && MemOk(c, s.mem) && RisingIds(s.queue)
    && (forall u :: u in s.queue ==> u in s.arrived)
    && (forall u :: u in s.arrived ==> u in s.queue || Handled(c, s.mem.durable, u))
    && (forall u :: u in s.arrived && u.id < s.offset ==> Handled(c, s.mem.durable, u))
    && (s.offset == 0 || exists u :: u in s.arrived && s.offset == u.id + 1)
  }

  lemma UnconfirmedMember<R>(queue: seq<Update<R>>, offset: nat, u: Update<R>)
    ensures u in Unconfirmed(queue, offset) <==> u in queue && u.id >= offset
  {
    FilterMember(queue, From(offset), u);
  }

  lemma {:induction false} UnconfirmedRises<R>(queue: seq<Update<R>>, offset: nat)
    requires RisingIds(queue)
    ensures RisingIds(Unconfirmed(queue, offset))
    ensures forall i :: 0 <= i < |Unconfirmed(queue, offset)| ==> Unconfirmed(queue, offset)[i].id >= offset
  {
    if queue != [] {
      var tail := queue[1..];
      UnconfirmedRises(tail, offset);
      var rest := Unconfirmed(tail, offset);
      forall i | 0 <= i < |rest| ensures queue[0].id < rest[i].id {
        UnconfirmedMember(tail, offset, rest[i]);
        var j :| 0 <= j < |tail| && tail[j] == rest[i];
        assert queue[j + 1] == rest[i];
      }
      assert Unconfirmed(queue, offset) == if queue[0].id >= offset then [queue[0]] + rest else rest;
    }
  }

  lemma ServedIsSorted<R>(s: Sys<R>, n: nat)
    requires RisingIds(s.queue) && n <= |Unconfirmed(s.queue, s.offset)|
    ensures RisingIds(Unconfirmed(s.queue, s.offset)[..n])
    ensures forall i :: 0 <= i < n ==> Unconfirmed(s.queue, s.offset)[i].id >= s.offset
  {
    UnconfirmedRises(s.queue, s.offset);
  }

  /** After a poll every update below the new offset is handled. */
  lemma PollHandles<R(!new)>(c: Codec<R>, s: Sys<R>, limit: nat, fails: nat -> Option<Crash>, u: Update<R>)
    requires CodecOk(c) && SysOk(c, s) && u in s.arrived && u.id < PollOf(c, s, limit, fails).offset
    ensures Handled(c, PollOf(c, s, limit, fails).mem.durable, u)
  {
    var rest, batch := Unconfirmed(s.queue, s.offset), Served(s, limit);
    UnconfirmedMember(s.queue, s.offset, u);
    ServedIsSorted(s, |batch|);
    PollIsSafe(c, Poll(s.mem, s.offset, 0, false), batch, |batch|, fails);
    if u in rest {
      var i :| 0 <= i < |rest| && rest[i] == u;
      if i < |batch| { assert batch[i] == u; } else { BeyondBatch(c, s, limit, fails, i); }
    }
  }

  lemma PollKeepsOk<R(!new)>(c: Codec<R>, s: Sys<R>, limit: nat, fails: nat -> Option<Crash>)
    requires CodecOk(c) && SysOk(c, s)
    ensures SysOk(c, Step(c, s, PollNow(limit, fails)))
  {
    var p, rest, batch := PollOf(c, s, limit, fails), Unconfirmed(s.queue, s.offset), Served(s, limit);
    UnconfirmedRises(s.queue, s.offset);
    ServedIsSorted(s, |batch|);
    PollIsSafe(c, Poll(s.mem, s.offset, 0, false), batch, |batch|, fails);
    forall u | u in s.arrived
      ensures u.id < p.offset ==> Handled(c, p.mem.durable, u)
      ensures u in rest || Handled(c, p.mem.durable, u)
    {
      UnconfirmedMember(s.queue, s.offset, u);
      if u.id < p.offset { PollHandles(c, s, limit, fails, u); }
    }
    forall u | u in rest ensures u in s.arrived { UnconfirmedMember(s.queue, s.offset, u); }
    if p.offset != s.offset {
      var i :| 0 <= i < |batch| && p.offset == batch[i].id + 1;
      assert rest[i] in s.arrived;
    }
  }

  /** A poll without failures handles and passes the oldest updates that wait, as many as it asks for. */
  lemma PollTakesTheOldest<R(!new)>(c: Codec<R>, s: Sys<R>, limit: nat, fails: nat -> Option<Crash>, i: nat)
    requires CodecOk(c) && SysOk(c, s) && forall j: nat :: fails(j) == None
    requires i < limit && i < |Unconfirmed(s.queue, s.offset)|
    ensures var s', u := Step(c, s, PollNow(limit, fails)), Unconfirmed(s.queue, s.offset)[i];
      u.id < s'.offset && Handled(c, s'.mem.durable, u)
  {
    var batch := Served(s, limit);
    PollGoesThrough(c, Poll(s.mem, s.offset, 0, false), batch, |batch|, fails);
    assert batch[i] == Unconfirmed(s.queue, s.offset)[i];
  }

  /** And the poll after it makes the server forget them. */
  lemma PollsEmptyTheQueue<R(!new)>(c: Codec<R>, s: Sys<R>, limit: nat, fails: nat -> Option<Crash>, u: Update<R>)
    requires CodecOk(c) && SysOk(c, s) && (forall j: nat :: fails(j) == None) && |s.queue| <= limit
    ensures var s' := Step(c, s, PollNow(limit, fails)); u !in Step(c, s', PollNow(limit, fails)).queue
  {
    var rest, s' := Unconfirmed(s.queue, s.offset), Step(c, s, PollNow(limit, fails));
    UnconfirmedMember(s'.queue, s'.offset, u);
    FewerLeft(s.queue, s.offset);
    if u in rest {
      var i :| 0 <= i < |rest| && rest[i] == u;
      PollTakesTheOldest(c, s, limit, fails, i);
    }
  }

  lemma {:induction false} FewerLeft<R>(queue: seq<Update<R>>, offset: nat)
    ensures |Unconfirmed(queue, offset)| <= |queue|
  {
    if queue != [] { FewerLeft(queue[1..], offset); }
  }

  /** An update the batch does not reach is not below the new offset. */
  lemma BeyondBatch<R(!new)>(c: Codec<R>, s: Sys<R>, limit: nat, fails: nat -> Option<Crash>, i: nat)
    requires CodecOk(c) && SysOk(c, s) && |Served(s, limit)| <= i < |Unconfirmed(s.queue, s.offset)|
    ensures PollOf(c, s, limit, fails).offset <= Unconfirmed(s.queue, s.offset)[i].id
  {
    var rest, batch := Unconfirmed(s.queue, s.offset), Served(s, limit);
    ServedIsSorted(s, i + 1);
    var longer := rest[..i + 1];
    var start := Poll(s.mem, s.offset, 0, false);
    PollIsSafe(c, start, longer, |batch|, fails);
    SamePolls(c, start, batch, longer, |batch|, fails);
    assert longer[i] == rest[i];
  }

  lemma {:induction false} SameSteps<S(!new)>(start: S, n: nat, f: (S, nat) -> S, g: (S, nat) -> S)
    requires forall s, i: nat :: i < n ==> f(s, i) == g(s, i)
    ensures Repeated(start, n, f) == Repeated(start, n, g)
  {
    if n > 0 { SameSteps(start, n - 1, f, g); }
  }

  lemma SamePolls<R>(c: Codec<R>, start: Poll, a: seq<Update<R>>, b: seq<Update<R>>, n: nat,
      fails: nat -> Option<Crash>)
    requires n <= |a| <= |b| && a == b[..|a|]
    ensures Polled(c, start, a, n, fails) == Polled(c, start, b, n, fails)
  {
    SameSteps(start, n, Polling(c, a, fails), Polling(c, b, fails));
  }

  lemma StepKeepsOk<R(!new)>(c: Codec<R>, s: Sys<R>, ev: Event<R>, s': Sys<R>)
    requires CodecOk(c) && SysOk(c, s) && Next(c, s, ev, s')
    ensures SysOk(c, s')
  {
    match ev
    case Arrive(u) => assert forall i :: 0 <= i < |s.queue| ==> s.queue[i] in s.arrived;
    case PollNow(limit, fails) => PollKeepsOk(c, s, limit, fails);
    case Restart => ReloadIsSafe(c, s.mem);
    case LoseCounter => LostSidecarIsOk(c, s.mem.disk);
  }

  ghost predicate IsRun<R>(c: Codec<R>, states: seq<Sys<R>>, events: seq<Event<R>>) {
    && |states| == |events| + 1
    && forall i :: 0 <= i < |events| ==> Next(c, states[i], events[i], states[i + 1])
  }

  /**
   * Persist before acknowledge, over any run of polls, storage failures, crashes and restarts:
   * an update the server was told to forget, or that lies below the offset, carried no message
   * to keep, or its message was durably written.
   */
  lemma {:induction false} NoUpdateIsLost<R(!new)>(c: Codec<R>, states: seq<Sys<R>>, events: seq<Event<R>>, n: nat)
    requires CodecOk(c) && IsRun(c, states, events) && n < |states|
    requires states[0] == Sys([], [], Mem(EMPTY_DISK, [], {}), 0)
    ensures SysOk(c, states[n])
    ensures forall u :: u in states[n].arrived && (u !in states[n].queue || u.id < states[n].offset) ==>
      Handled(c, states[n].mem.durable, u)
  {
    if n > 0 {
      NoUpdateIsLost(c, states, events, n - 1);
      StepKeepsOk(c, states[n - 1], events[n - 1], states[n]);
    } else {
      WholeIsOk(c, EMPTY_DISK, []);
    }
  }
}
