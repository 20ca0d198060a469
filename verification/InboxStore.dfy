/** The inbox and the update poller as objects: the loops over the spool file and over a batch. */
module InboxStore {
  import opened Prelude
  import opened Spool
  import opened Utf8
  import opened Inbox
  import Paging

  lemma {:induction false} DecodedAppend<R>(c: Codec<R>, a: seq<Bytes>, b: seq<Bytes>)
    ensures Decoded(c, a + b) == Decoded(c, a) + Decoded(c, b)
  {
    if a == [] {
      assert a + b == b;
    } else {
      DecodedAppend(c, a[1..], b);
      assert (a + b)[1..] == a[1..] + b;
    }
  }

  lemma DecodedStep<R>(c: Codec<R>, lines: seq<Bytes>, i: nat)
    requires i < |lines|
    ensures Decoded(c, lines[..i + 1]) ==
      if c.dec(lines[i]).Some? then Decoded(c, lines[..i]) + [c.dec(lines[i]).value] else Decoded(c, lines[..i])
  {
    assert lines[..i + 1] == lines[..i] + [lines[i]];
    DecodedAppend(c, lines[..i], [lines[i]]);
    assert Decoded(c, [lines[i]][1..]) == [];
  }

  lemma RememberStep<R>(c: Codec<R>, rows: seq<R>, r: R)
    ensures RememberAll([], Map(c.key, rows + [r])) == Remember(RememberAll([], Map(c.key, rows)), c.key(r))
  {
    var keys := Map(c.key, rows);
    assert Map(c.key, rows + [r]) == keys + [c.key(r)];
    assert (keys + [c.key(r)])[..|keys|] == keys;
  }

  lemma MaxStep<R>(c: Codec<R>, rows: seq<R>, r: R)
    ensures MaxNumber(c, rows + [r]) == Max(MaxNumber(c, rows), c.number(r))
  {
    assert (rows + [r])[..|rows|] == rows;
  }

  lemma StillHasKey<R>(c: Codec<R>, lines: seq<Bytes>, i: nat, k: Key)
    requires i <= |lines| && HasKey(c, Decoded(c, lines[..i]), k)
    ensures HasKey(c, Decoded(c, lines), k)
  {
    assert lines[..i] + lines[i..] == lines;
    DecodedAppend(c, lines[..i], lines[i..]);
    var j :| 0 <= j < |Decoded(c, lines[..i])| && c.key(Decoded(c, lines[..i])[j]) == k;
    assert c.key(Decoded(c, lines)[j]) == k;
  }

  /** What is kept when the lines from `i` on are kept already. */
  function KeptFrom(lines: seq<Bytes>, i: nat, budget: int, most: nat): seq<Bytes>
    requires i <= |lines|
  {
    Newest(lines[..i], budget, most) + lines[i..]
  }

  lemma KeepOneMore(lines: seq<Bytes>, i: nat, budget: int, most: nat)
    requires 0 < i <= |lines| && most > 0 && |lines[i - 1]| <= budget
    ensures KeptFrom(lines, i, budget, most) == KeptFrom(lines, i - 1, budget - |lines[i - 1]|, most - 1)
    ensures Flatten(lines[i - 1..]) == lines[i - 1] + Flatten(lines[i..])
  {
    assert lines[..i][..i - 1] == lines[..i - 1] && lines[..i][i - 1] == lines[i - 1];
    assert lines[i - 1..] == [lines[i - 1]] + lines[i..];
  }

  lemma KeepNoMore(lines: seq<Bytes>, i: nat, budget: int, most: nat)
    requires i <= |lines| && (i == 0 || most == 0 || |lines[i - 1]| > budget)
    ensures KeptFrom(lines, i, budget, most) == lines[i..]
  {
    assert Newest(lines[..i], budget, most) == [];
  }

  lemma KeepFromEnd(lines: seq<Bytes>, budget: int, most: nat)
    ensures KeptFrom(lines, |lines|, budget, most) == Newest(lines, budget, most)
  {
    assert lines[..|lines|] == lines;
  }

  /** Walk the lines from the newest back while they fit. */
  method KeepNewest(lines: seq<Bytes>, budget: nat) returns (kept: Bytes)
    ensures kept == Flatten(Newest(lines, budget, MAX_SPOOL_RETAIN_ROWS))
  {
    var bytes, i := 0, |lines|;
    kept := [];
    ghost var newest := Newest(lines, budget, MAX_SPOOL_RETAIN_ROWS);
    ghost var left, most: nat := budget, MAX_SPOOL_RETAIN_ROWS;
    KeepFromEnd(lines, left, most);
    while i > 0 && |lines| - i < MAX_SPOOL_RETAIN_ROWS && bytes + |lines[i - 1]| <= budget
      invariant 0 <= i <= |lines| && most == MAX_SPOOL_RETAIN_ROWS - (|lines| - i) && left == budget - bytes
      invariant KeptFrom(lines, i, left, most) == newest
      invariant kept == Flatten(lines[i..])
    {
      KeepOneMore(lines, i, left, most);
      kept := lines[i - 1] + kept;
      bytes := bytes + |lines[i - 1]|;
      left, most := left - |lines[i - 1]|, most - 1;
      i := i - 1;
    }
    KeepNoMore(lines, i, left, most);
  }

  /** How `pending` looks at rows, for one chat or for all. */
  function LensOf<R>(c: Codec<R>, chat: Option<string>): Paging.Lens<R> {
    Paging.Lens(c.number, (r: R) => chat.None? || c.key(r).0 == ChatKey(chat.value))
  }

  /** The rows a reader asks for: past a number, and of one chat if it names one. */
  function Wanted<R>(c: Codec<R>, after: nat, chat: Option<string>): R -> bool {
    (r: R) => c.number(r) > after && (chat.Some? ==> c.key(r).0 == ChatKey(chat.value))
  }

  /** The lens looks for the wanted rows. */
  lemma PageOfWanted<R>(c: Codec<R>, rows: seq<R>, after: nat, limit: int, chat: Option<string>, oldestFirst: bool)
    ensures Paging.IsPage(rows, Wanted(c, after, chat), limit, oldestFirst,
                          Paging.PendingRows(LensOf(c, chat), rows, after, limit, oldestFirst))
  {
    var unread, wanted := Paging.Unread(LensOf(c, chat), after), Wanted(c, after, chat);
    var page := Paging.PendingRows(LensOf(c, chat), rows, after, limit, oldestFirst);
    Paging.PendingIsPage(LensOf(c, chat), rows, after, limit, oldestFirst);
    assert forall r :: r in rows ==> unread(r) == wanted(r);
    assert Paging.WantedAt(rows, unread) == Paging.WantedAt(rows, wanted);
    var at :| Paging.Picks(rows, unread, page, at) && Paging.RestBeyond(rows, unread, at, oldestFirst);
    assert Paging.Picks(rows, wanted, page, at) && Paging.RestBeyond(rows, wanted, at, oldestFirst);
  }

  class GroupInbox<R(!new)> {
    const codec: Codec<R>
    var file: Bytes
    var sidecar: Option<nat>
    var seen: set<Key>
    var order: seq<Key>
    /** Every key a complete row was ever on disk for. */
    ghost var durable: set<Key>

    /** The set of seen keys is the set of the bounded queue. */
    ghost predicate Valid()
      reads this
    {
      QueueOk(order) && forall k :: k in seen <==> k in order
    }

    ghost function Value(): Mem
      reads this
    {
      Mem(Disk(file, sidecar), order, durable)
    }

    /** A new process on an existing spool. */
    constructor (codec: Codec<R>, disk: Disk, ghost durable: set<Key>)
      ensures Valid() && this.codec == codec && Value() == Reloaded(codec, Mem(disk, [], durable))
    {
      this.codec, file, sidecar := codec, disk.file, disk.sidecar;
      seen, order, this.durable := {}, [], durable;
      new;
      LoadSeen();
    }

    method LoadSeen()
      requires Valid() && order == []
      modifies this`seen, this`order
      ensures Valid() && order == LoadedKeys(codec, file)
    {
      if !IsUtf8(file) { return; }
      var lines := LastOf(Lines(file), MAX_SEEN_IDS);
      for i := 0 to |lines|
        invariant Valid()
        invariant order == RememberAll([], Map(codec.key, Decoded(codec, lines[..i])))
      {
        DecodedStep(codec, lines, i);
        var row := codec.dec(lines[i]);
        if row.Some? {
          RememberStep(codec, Decoded(codec, lines[..i]), row.value);
          RememberSeen(codec.key(row.value));
        }
      }
      assert lines[..|lines|] == lines;
    }

    /** Add a key to set and queue, dropping the oldest one from both when the queue is full. */
    method RememberSeen(k: Key)
      requires Valid()
      modifies this`seen, this`order
      ensures Valid() && order == Remember(old(order), k)
    {
      if k in seen { return; }
      if |order| == MAX_SEEN_IDS {
        seen := seen - {order[0]};
        order := order[1..];
      }
      order := order + [k];
      seen := seen + {k};
    }

    method RepairTornTail()
      modifies this`file
      ensures file == Repaired(codec, old(file))
    {
      var start := LastLineStart(file);
      if start == |file| { return; }
      if codec.dec(file[start..]).Some? {
        file := file + [NEWLINE];
      } else {
        file := file[..start];
      }
    }

    /** Nothing comes of the scan if the file is not text. */
    method ContainsKey(k: Key) returns (found: Option<bool>)
      ensures found == if IsUtf8(file) then Some(HasKey(codec, RowsIn(codec, file), k)) else None
    {
      if !IsUtf8(file) { return None; }
      var lines := Lines(file);
      for i := 0 to |lines|
        invariant !HasKey(codec, Decoded(codec, lines[..i]), k)
      {
        DecodedStep(codec, lines, i);
        var row := codec.dec(lines[i]);
        if row.Some? && codec.key(row.value) == k {
          assert codec.key(Decoded(codec, lines[..i + 1])[|Decoded(codec, lines[..i])|]) == k;
          StillHasKey(codec, lines, i + 1, k);
          return Some(true);
        }
      }
      assert lines[..|lines|] == lines;
      found := Some(false);
    }

    /** Reserve the next number; without the counter the largest number in the file takes its place. */
    method NextSeq() returns (n: nat)
      requires IsUtf8(file)
      modifies this`sidecar
      ensures n == NextNumber(codec, Disk(file, old(sidecar))) && sidecar == Some(n)
    {
      var last: nat := 0;
      if sidecar.Some? {
        last := sidecar.value;
      } else {
        var lines := Lines(file);
        for i := 0 to |lines|
          invariant last == MaxNumber(codec, Decoded(codec, lines[..i]))
        {
          DecodedStep(codec, lines, i);
          var row := codec.dec(lines[i]);
          if row.Some? {
            MaxStep(codec, Decoded(codec, lines[..i]), row.value);
            last := Max(last, codec.number(row.value));
          }
        }
        assert lines[..|lines|] == lines;
      }
      n := last + 1;
      sidecar := Some(n);
    }

    method Rotate(incoming: nat)
      modifies this`file
      ensures file == Rotated(old(file), incoming)
    {
      if |file| + incoming <= MAX_SPOOL_BYTES { return; }
      file := KeepNewest(Map(Ended, Lines(file)), Max(0, MAX_SPOOL_BYTES - incoming));
    }

    /** One durable row unless its key is on disk. `fail` names the point where an exception hits. */
    method Append(r: R, fail: Option<Crash>) returns (ok: bool, written: bool)
      modifies this`file, this`sidecar
      ensures var before := Disk(old(file), old(sidecar));
              match CutOff(codec, before, fail)
              case None => ok && (Disk(file, sidecar), written) == Appended(codec, before, r)
              case Some(at) => !ok && !written && Disk(file, sidecar) == CrashedIn(codec, before, r, at)
    {
      ok, written := fail.None?, false;
      if fail == Some(AtStart) { return; }
      RepairTornTail();
      if fail == Some(AfterRepair) { return; }
      var found := ContainsKey(codec.key(r));
      if found.None? { return false, false; }
      if found.value { return; }
      var n := NextSeq();
      if fail == Some(AfterNumber) { return; }
      var line := Line(codec, codec.stamp(r, n));
      Rotate(|line|);
      if fail.Some? {
        file := file + line[..Min(fail.value.written, |line|)];
        return;
      }
      file := file + line;
      written := true;
    }

    /** A bounded view of the rows past a sequence number; the chat filter comes before the bound. */
    method Pending(after: nat, limit: int, chat: Option<string>, oldestFirst: bool) returns (page: seq<R>)
      ensures page == Paging.PendingRows(LensOf(codec, chat), Visible(codec, file), after, limit, oldestFirst)
      ensures Paging.IsPage(Visible(codec, file), Wanted(codec, after, chat), limit, oldestFirst, page)
    {
      PageOfWanted(codec, Visible(codec, file), after, limit, chat, oldestFirst);
      if !IsUtf8(file) { return []; }
      var lines, unread := Lines(file), Paging.Unread(LensOf(codec, chat), after);
      var rows := [];
      for i := 0 to |lines|
        invariant rows == Filter(Decoded(codec, lines[..i]), unread)
      {
        DecodedStep(codec, lines, i);
        var row := codec.dec(lines[i]);
        if row.Some? {
          FilterOneMore(Decoded(codec, lines[..i]), row.value, unread);
          if unread(row.value) { rows := rows + [row.value]; }
        }
      }
      assert lines[..|lines|] == lines;
      page := Paging.Bounded(rows, limit, oldestFirst);
    }

    method Ingest(msg: Message<R>, fail: Option<Crash>) returns (out: Outcome)
      requires Valid()
      modifies this
      ensures Valid() && (Value(), out) == Ingested(codec, old(Value()), msg, fail)
    {
      if msg.own { return Own; }
      var k := codec.key(msg.row);
      if k in seen { return Duplicate; }
      var ok, written := Append(msg.row, fail);
      durable := durable + KeysOn(codec, Disk(file, sidecar));
      if !ok { return StorageFailure; }
      RememberSeen(k);
      out := if written then Written else Duplicate;
    }
  }

  class BotApi<R(!new)> {
    const inbox: GroupInbox<R>
    var offset: nat

    constructor (inbox: GroupInbox<R>)
      ensures this.inbox == inbox && offset == 0
    {
      this.inbox, offset := inbox, 0;
    }

    /** One update: move the offset past it unless its message could not be stored. */
    method TakeUpdate(u: Update<R>, fail: Option<Crash>, ghost written: nat) returns (ok: bool, wrote: bool)
      requires inbox.Valid()
      modifies this, inbox
      ensures inbox.Valid()
      ensures PollOne(inbox.codec, Poll(old(inbox.Value()), old(offset), written, false), u, fail)
        == Poll(inbox.Value(), offset, if wrote then written + 1 else written, !ok)
    {
      ok, wrote := true, false;
      if u.content.Relevant? {
        var out := inbox.Ingest(u.content.msg, fail);
        ok, wrote := out != StorageFailure, out == Written;
      }
      if ok { offset := Max(offset, u.id + 1); }
    }

    /** The next update of a batch, as one step of the poll that began in `start`. */
    method TakeNext(batch: seq<Update<R>>, i: nat, fails: nat -> Option<Crash>, already: nat, ghost start: Poll)
      returns (ok: bool, written: nat)
      requires inbox.Valid() && i < |batch|
      requires Polled(inbox.codec, start, batch, i, fails) == Poll(inbox.Value(), offset, already, false)
      modifies this, inbox
      ensures inbox.Valid()
      ensures Polled(inbox.codec, start, batch, i + 1, fails) == Poll(inbox.Value(), offset, written, !ok)
    {
      ghost var p := Poll(inbox.Value(), offset, already, false);
      var wrote;
      ok, wrote := TakeUpdate(batch[i], fails(i), already);
      written := if wrote then already + 1 else already;
      PolledOnce(inbox.codec, start, batch, i, fails, p, Poll(inbox.Value(), offset, written, !ok));
    }

    /** One batch: acknowledge update by update, and stop at the first that could not be stored. */
    method PollUpdates(batch: seq<Update<R>>, fails: nat -> Option<Crash>) returns (written: nat)
      requires inbox.Valid()
      modifies this, inbox
      ensures inbox.Valid()
      ensures var p := Polled(inbox.codec, Poll(old(inbox.Value()), old(offset), 0, false), batch, |batch|, fails);
              inbox.Value() == p.mem && offset == p.offset && written == p.written
    {
      written := 0;
      ghost var start := Poll(inbox.Value(), offset, 0, false);
      var i := 0;
      while i < |batch|
        invariant i <= |batch| && inbox.Valid()
        invariant Polled(inbox.codec, start, batch, i, fails) == Poll(inbox.Value(), offset, written, false)
      {
        var ok;
        ok, written := TakeNext(batch, i, fails, written, start);
        if !ok {
          PollStaysStopped(inbox.codec, start, batch, i + 1, |batch|, fails,
              Poll(inbox.Value(), offset, written, true));
          return;
        }
        i := i + 1;
      }
    }
  }
}
