/** Which batches of updates the poller may be given: exactly when no order of failures loses a message. */
module BatchOrder {
  import opened Prelude
  import opened Spool
  import opened Inbox

  /** The update carries a message to be spooled under key `k`. */
  predicate Carries<R>(c: Codec<R>, u: Update<R>, k: Key) {
    u.content.Relevant? && !u.content.msg.own && c.key(u.content.msg.row) == k
  }

  /**
   * Nothing the spool lacks lies below the offset, and wherever an update is preceded by one with
   * at least its id, its message was in the batch no later than that one.
   */
  ghost predicate SafeOrder<R>(c: Codec<R>, start: Poll, us: seq<Update<R>>) {
    forall i :: 0 <= i < |us| && !Handled(c, start.mem.durable, us[i]) ==> SafeAt(c, start.offset, us, i)
  }

  ghost predicate SafeAt<R>(c: Codec<R>, offset: nat, us: seq<Update<R>>, i: nat)
    requires i < |us| && us[i].content.Relevant?
  {
    && offset <= us[i].id
    && forall j :: 0 <= j < i && us[i].id <= us[j].id ==> CarriedBy(c, us, j + 1, c.key(us[i].content.msg.row))
  }

  /** One of the first `n` updates carries `k`. */
  ghost predicate CarriedBy<R>(c: Codec<R>, us: seq<Update<R>>, n: nat, k: Key) {
    exists x :: 0 <= x < n && x < |us| && Carries(c, us[x], k)
  }

  // ----- Such a batch is safe ------------------------------------------------------------------

  /** The first `m` updates were processed, and only they moved the offset. */
  ghost predicate Processed<R(!new)>(c: Codec<R>, start: Poll, p: Poll, us: seq<Update<R>>, m: nat) {
    && m <= |us| && MemOk(c, p.mem) && start.mem.durable <= p.mem.durable
    && (forall j :: 0 <= j < m ==> Handled(c, p.mem.durable, us[j]))
    && (p.offset == start.offset || exists j :: 0 <= j < m && p.offset == us[j].id + 1)
  }

  /** What processing one update comes to. */
  ghost predicate Took<R(!new)>(c: Codec<R>, p: Poll, u: Update<R>, p': Poll) {
    && MemOk(c, p'.mem) && p.mem.durable <= p'.mem.durable
    && (p.stopped ==> p' == p)
    && (p'.stopped ==> p'.offset == p.offset)
    && (!p'.stopped ==> !p.stopped && p'.offset == Max(p.offset, u.id + 1) && Handled(c, p'.mem.durable, u))
  }

  lemma ProcessedStep<R(!new)>(c: Codec<R>, start: Poll, p: Poll, us: seq<Update<R>>, n: nat, m: nat, p': Poll)
    requires n < |us| && Processed(c, start, p, us, m) && Took(c, p, us[n], p') && (p.stopped || m == n)
    ensures Processed(c, start, p', us, if p'.stopped then m else n + 1)
  {
    forall j | 0 <= j < m
      ensures Handled(c, p'.mem.durable, us[j])
    {
      HandledGrows(c, p.mem.durable, p'.mem.durable, us[j]);
    }
    assert p'.offset == p.offset || p'.offset == us[n].id + 1;
  }

  lemma TakeNext<R(!new)>(c: Codec<R>, start: Poll, us: seq<Update<R>>, n: nat, fails: nat -> Option<Crash>,
      p: Poll) returns (p': Poll)
    requires CodecOk(c) && n < |us| && Polled(c, start, us, n, fails) == p && MemOk(c, p.mem)
    ensures Polled(c, start, us, n + 1, fails) == p' == PollOne(c, p, us[n], fails(n)) && Took(c, p, us[n], p')
  {
    p' := PollOne(c, p, us[n], fails(n));
    PollStep(c, p, us[n], fails(n));
    PolledOnce(c, start, us, n, fails, p, p');
  }

  lemma ProcessNext<R(!new)>(
    c: Codec<R>, start: Poll, us: seq<Update<R>>, n: nat, fails: nat -> Option<Crash>, p: Poll, m: nat)
        returns (p': Poll)
    requires CodecOk(c) && n < |us| && Polled(c, start, us, n, fails) == p
    requires Processed(c, start, p, us, m) && (p.stopped || m == n)
    ensures Polled(c, start, us, n + 1, fails) == p' && Processed(c, start, p', us, if p'.stopped then m else n + 1)
  {
    p' := TakeNext(c, start, us, n, fails, p);
    ProcessedStep(c, start, p, us, n, m, p');
  }

  lemma {:induction false} PolledProcesses<R(!new)>(
    c: Codec<R>, start: Poll, us: seq<Update<R>>, n: nat, fails: nat -> Option<Crash>) returns (m: nat, p: Poll)
    requires CodecOk(c) && MemOk(c, start.mem) && n <= |us|
    ensures p == Polled(c, start, us, n, fails)
    ensures m <= n && Processed(c, start, p, us, m) && (p.stopped || m == n)
  {
    m, p := 0, start;
    if n > 0 {
      var before;
      m, before := PolledProcesses(c, start, us, n - 1, fails);
      p := ProcessNext(c, start, us, n - 1, fails, before, m);
      m := if p.stopped then m else n;
    }
  }

  /** In a safe order every update below the offset is handled, whichever append fails. */
  lemma SafeOrderIsSafe<R(!new)>(c: Codec<R>, start: Poll, us: seq<Update<R>>, fails: nat -> Option<Crash>, i: nat)
    requires CodecOk(c) && MemOk(c, start.mem) && SafeOrder(c, start, us)
    requires i < |us| && us[i].id < Polled(c, start, us, |us|, fails).offset
    ensures Handled(c, Polled(c, start, us, |us|, fails).mem.durable, us[i])
  {
    var m, p := PolledProcesses(c, start, us, |us|, fails);
    if Handled(c, start.mem.durable, us[i]) {
      HandledGrows(c, start.mem.durable, p.mem.durable, us[i]);
    } else if i >= m {
      assert SafeAt(c, start.offset, us, i);
      var j :| 0 <= j < m && p.offset == us[j].id + 1;
      assert CarriedBy(c, us, j + 1, c.key(us[i].content.msg.row));
      var x :| 0 <= x < j + 1 && x < |us| && Carries(c, us[x], c.key(us[i].content.msg.row));
      assert Handled(c, p.mem.durable, us[x]);
    }
  }

  // ----- Any other order can lose a message ----------------------------------------------------

  lemma KeysOfRows<R>(c: Codec<R>, d: Disk, d': Disk, k: nat, more: seq<R>)
    requires k <= |RowsIn(c, d.file)| && RowsIn(c, d'.file) == RowsIn(c, d.file)[k..] + more
    ensures forall x :: x in KeysOn(c, d') ==> x in KeysOn(c, d) || exists r :: r in more && x == c.key(r)
  {
    var rows, rows' := RowsIn(c, d.file), RowsIn(c, d'.file);
    forall x | x in KeysOn(c, d')
      ensures x in KeysOn(c, d) || exists r :: r in more && x == c.key(r)
    {
      var i :| 0 <= i < |rows'| && c.key(rows'[i]) == x;
      if i < |rows| - k { assert rows'[i] == rows[k + i]; } else { assert rows'[i] in more; }
    }
  }

  lemma AppendedRows<R(!new)>(c: Codec<R>, d: Disk, r: R) returns (d': Disk, k: nat, more: seq<R>)
    requires CodecOk(c) && DiskOk(c, d)
    ensures d' == Appended(c, d, r).0 && k <= |RowsIn(c, d.file)|
    ensures RowsIn(c, d'.file) == RowsIn(c, d.file)[k..] + more && forall x :: x in more ==> c.key(x) == c.key(r)
  {
    k := AppendIsOk(c, d, r);
    d' := Appended(c, d, r).0;
    more := if Appended(c, d, r).1 then [c.stamp(r, NextNumber(c, d.(file := Repaired(c, d.file))))] else [];
    assert RowsIn(c, d.file)[k..] + [] == RowsIn(c, d.file)[k..];
  }

  /** An append that succeeds makes no key durable but its own. */
  lemma AppendAddsItsKey<R(!new)>(c: Codec<R>, d: Disk, r: R) returns (d': Disk)
    requires CodecOk(c) && DiskOk(c, d)
    ensures d' == Appended(c, d, r).0 && forall x :: x in KeysOn(c, d') ==> x in KeysOn(c, d) || x == c.key(r)
  {
    var k, more;
    d', k, more := AppendedRows(c, d, r);
    KeysOfRows(c, d, d', k, more);
  }

  lemma IngestAddsItsKey<R(!new)>(c: Codec<R>, m: Mem, msg: Message<R>)
    requires CodecOk(c) && MemOk(c, m)
    ensures var (m', out) := Ingested(c, m, msg, None);
      out != StorageFailure && forall x :: x in m'.durable ==> x in m.durable || (!msg.own && x == c.key(msg.row))
  {
    RepairedOk(c, m.disk);
    var d' := AppendAddsItsKey(c, m.disk, msg.row);
  }

  /** Nothing failed so far and the key is still missing. */
  ghost predicate Clean<R(!new)>(c: Codec<R>, start: Poll, p: Poll, us: seq<Update<R>>, n: nat, k: Key) {
    && n <= |us| && MemOk(c, p.mem) && !p.stopped && k !in p.mem.durable
    && start.offset <= p.offset && forall j :: 0 <= j < n ==> us[j].id < p.offset
  }

  lemma CleanStep<R(!new)>(c: Codec<R>, start: Poll, p: Poll, us: seq<Update<R>>, n: nat, k: Key, p': Poll)
    requires n < |us| && Clean(c, start, p, us, n, k) && Took(c, p, us[n], p') && !p'.stopped && k !in p'.mem.durable
    ensures Clean(c, start, p', us, n + 1, k)
  {
  }

  lemma CleanOne<R(!new)>(c: Codec<R>, p: Poll, u: Update<R>, k: Key, p': Poll)
    requires p' == PollOne(c, p, u, None)
    requires CodecOk(c) && MemOk(c, p.mem) && !p.stopped && k !in p.mem.durable && !Carries(c, u, k)
    ensures !p'.stopped && k !in p'.mem.durable
  {
    if u.content.Relevant? { IngestAddsItsKey(c, p.mem, u.content.msg); }
  }

  lemma {:induction false} CleanPolls<R(!new)>(
    c: Codec<R>, start: Poll, us: seq<Update<R>>, n: nat, fails: nat -> Option<Crash>, k: Key) returns (p: Poll)
    requires CodecOk(c) && n <= |us| && Clean(c, start, start, us, 0, k)
    requires !CarriedBy(c, us, n, k) && forall x: nat :: x < n ==> fails(x) == None
    ensures p == Polled(c, start, us, n, fails) && Clean(c, start, p, us, n, k)
  {
    p := start;
    if n > 0 {
      assert !Carries(c, us[n - 1], k) && fails(n - 1) == None;
      var before := CleanPolls(c, start, us, n - 1, fails, k);
      p := TakeNext(c, start, us, n - 1, fails, before);
      CleanOne(c, before, us[n - 1], k, p);
      CleanStep(c, start, before, us, n - 1, k, p);
    }
  }

  /** The append of a missing key fails before it does anything. */
  lemma FailsAtOnce<R(!new)>(c: Codec<R>, start: Poll, p: Poll, us: seq<Update<R>>, n: nat, k: Key)
    requires CodecOk(c) && n < |us| && Clean(c, start, p, us, n, k) && Carries(c, us[n], k)
    ensures var p' := PollOne(c, p, us[n], Some(AtStart)); p'.stopped && p'.offset == p.offset && k !in p'.mem.durable
  {
  }

  lemma FirstCarrier<R>(c: Codec<R>, us: seq<Update<R>>, i: nat, k: Key) returns (x: nat)
    requires i < |us| && Carries(c, us[i], k)
    ensures x <= i && Carries(c, us[x], k) && !CarriedBy(c, us, x, k)
  {
    x := 0;
    while !Carries(c, us[x], k)
      invariant x <= i && !CarriedBy(c, us, x, k)
      decreases i - x
    {
      x := x + 1;
    }
  }

  /** In any other order some append failure leaves a message below the offset that is not durable. */
  lemma UnsafeOrderLoses<R(!new)>(c: Codec<R>, start: Poll, us: seq<Update<R>>)
      returns (fails: nat -> Option<Crash>, i: nat)
    requires CodecOk(c) && MemOk(c, start.mem) && !start.stopped && !SafeOrder(c, start, us)
    ensures i < |us| && us[i].id < Polled(c, start, us, |us|, fails).offset
    ensures !Handled(c, Polled(c, start, us, |us|, fails).mem.durable, us[i])
  {
    i :| 0 <= i < |us| && !Handled(c, start.mem.durable, us[i]) && !SafeAt(c, start.offset, us, i);
    var k := c.key(us[i].content.msg.row);
    var x := FirstCarrier(c, us, i, k);
    fails := (n: nat) => if n == x then Some(AtStart) else None;
    var p := CleanPolls(c, start, us, x, fails, k);
    FailsAtOnce(c, start, p, us, x, k);
    var p' := PollOne(c, p, us[x], Some(AtStart));
    PolledOnce(c, start, us, x, fails, p, p');
    PollStaysStopped(c, start, us, x + 1, |us|, fails, p');
    BelowOffset(c, start, p, us, x, i, k);
  }

  lemma BelowOffset<R(!new)>(c: Codec<R>, start: Poll, p: Poll, us: seq<Update<R>>, x: nat, i: nat, k: Key)
    requires x <= i < |us| && Clean(c, start, p, us, x, k) && us[i].content.Relevant?
      && c.key(us[i].content.msg.row) == k
    requires Carries(c, us[x], k) && !SafeAt(c, start.offset, us, i)
    ensures us[i].id < p.offset
  {
    if start.offset <= us[i].id {
      var j :| 0 <= j < i && us[i].id <= us[j].id && !CarriedBy(c, us, j + 1, k);
      assert j < x;
    }
  }

  /** Ascending ids from the offset on are the plain case of a safe order. */
  lemma RisingIsSafe<R(!new)>(c: Codec<R>, start: Poll, us: seq<Update<R>>)
    requires RisingIds(us) && forall i :: 0 <= i < |us| ==> us[i].id >= start.offset
    ensures SafeOrder(c, start, us)
  {
  }
}
