/** The numbers of the spool over its whole life: appends, crashes, restarts and lost counters. */
module SpoolRuns {
  import opened Prelude
  import opened Utf8
  import opened Spool

  /** `numbers` are the numbers of all rows a reader could ever have found last, in order. */
  datatype Life = Life(disk: Disk, numbers: seq<nat>)

  datatype Event<R> = Write(r: R, cut: Option<Crash>) | LoseCounter

  /** The disk after an append that was or was not cut off. */
  function Attempted<R>(c: Codec<R>, d: Disk, r: R, cut: Option<Crash>): Disk {
    match CutOff(c, d, cut)
    case None => Appended(c, d, r).0
    case Some(at) => CrashedIn(c, d, r, at)
  }

  function Last<R>(c: Codec<R>, d: Disk): Option<nat> {
    var rows := RowsIn(c, d.file);
    if rows == [] then None else Some(c.number(rows[|rows| - 1]))
  }

  /** The numbers with that of a row that was not there before. */
  function Noted(ns: seq<nat>, before: Option<nat>, after: Option<nat>): seq<nat> {
    if after.Some? && after != before then ns + [after.value] else ns
  }

  function Lived<R>(c: Codec<R>, l: Life, d: Disk): Life { Life(d, Noted(l.numbers, Last(c, l.disk), Last(c, d))) }

  function Step<R>(c: Codec<R>, l: Life, ev: Event<R>): Life {
    match ev
    case Write(r, cut) => Lived(c, l, Attempted(c, l.disk, r, cut))
    case LoseCounter => Lived(c, l, l.disk.(sidecar := None))
  }

  function Top(ns: seq<nat>): nat { if ns == [] then 0 else ns[|ns| - 1] }

  ghost predicate RisingNumbers(ns: seq<nat>) { forall i, j :: 0 <= i < j < |ns| ==> ns[i] < ns[j] }

  /** The last row, if one is left, has the largest number; so much or more the counter says, if there is one. */
  ghost predicate RecordOk(ns: seq<nat>, last: Option<nat>, sidecar: Option<nat>) {
    && RisingNumbers(ns) && (ns != [] ==> Top(ns) > 0)
    && (last.Some? ==> ns != [] && last.value == Top(ns)) && (sidecar.Some? ==> Top(ns) <= sidecar.value)
    && (ns == [] || sidecar.Some? || last.Some?)
  }

  ghost predicate LifeOk<R(!new)>(c: Codec<R>, l: Life) {
    DiskOk(c, l.disk) && RecordOk(l.numbers, Last(c, l.disk), l.disk.sidecar)
  }

  /** Every number given out lies above all earlier ones. */
  lemma NextIsOnTop<R(!new)>(c: Codec<R>, l: Life)
    requires LifeOk(c, l)
    ensures Top(l.numbers) < NextNumber(c, l.disk)
  {
    MaxIsBound(c, RowsIn(c, l.disk.file));
  }

  lemma RecordGrows(
    ns: seq<nat>, last: Option<nat>, sidecar: Option<nat>, next: nat, last': Option<nat>, sidecar': Option<nat>)
    requires RecordOk(ns, last, sidecar) && Top(ns) < next
    requires
      || (last' == Some(next) && sidecar' == Some(next))
      || (sidecar' == Some(next) && (last' == None || last' == last))
      || (sidecar' == sidecar && last' == last)
    ensures RecordOk(Noted(ns, last, last'), last', sidecar')
  {
  }

  /** What an append may show: all rows but the first `k`, perhaps followed by one with the next number. */
  ghost predicate Grown<R>(c: Codec<R>, d: Disk, d': Disk, k: nat, x: Option<R>) {
    var rows := RowsIn(c, d.file);
    && k <= |rows| && RowsIn(c, d'.file) == rows[k..] + (if x.Some? then [x.value] else [])
    && (x.Some? ==> c.number(x.value) == NextNumber(c, d))
    && (d'.sidecar == Some(NextNumber(c, d)) || (d'.sidecar == d.sidecar && k == 0 && x == None))
  }

  lemma LineGrows<R(!new)>(c: Codec<R>, d: Disk, r: R, written: nat, d': Disk) returns (k: nat, x: Option<R>)
    requires CodecOk(c) && DiskOk(c, d) && d.file == Encoded(c, RowsIn(c, d.file))
      && !HasKey(c, RowsIn(c, d.file), c.key(r))
    requires var line := NewLine(c, d, r);
      written <= |line| && d' == Disk(Rotated(d.file, |line|) + line[..written], Some(NextNumber(c, d)))
    ensures DiskOk(c, d') && Grown(c, d, d', k, x)
  {
    k := PartialLineOk(c, d, r, written);
    x := if written + 1 < |NewLine(c, d, r)| then None else Some(c.stamp(r, NextNumber(c, d)));
    assert RowsIn(c, d.file)[k..] + [] == RowsIn(c, d.file)[k..];
  }

  lemma StillGrows<R(!new)>(c: Codec<R>, d: Disk, d': Disk)
    requires DiskOk(c, d) && RowsIn(c, d'.file) == RowsIn(c, d.file)
    requires d'.sidecar == d.sidecar || d'.sidecar == Some(NextNumber(c, d))
    ensures Grown(c, d, d', 0, None)
  {
    assert RowsIn(c, d.file)[0..] + [] == RowsIn(c, d.file);
  }

  /** The disks an append that writes no row may leave, `d1` being the repaired one. */
  lemma UnwrittenShape<R>(c: Codec<R>, d: Disk, d1: Disk, r: R, cut: Option<Crash>)
    requires d1 == d.(file := Repaired(c, d.file)) && IsUtf8(d1.file)
    requires HasKey(c, RowsIn(c, d1.file), c.key(r)) || (cut.Some? && !cut.value.InLine?)
    ensures var d' := Attempted(c, d, r, cut); d' == d || d' == d1 || d' == d1.(sidecar := Some(NextNumber(c, d1)))
  {
  }

  /** The disk an append leaves that gets to its line, and how much of it is written. */
  lemma WrittenShape<R>(c: Codec<R>, d: Disk, d1: Disk, r: R, cut: Option<Crash>) returns (written: nat)
    requires d1 == d.(file := Repaired(c, d.file)) && IsUtf8(d1.file)
    requires !HasKey(c, RowsIn(c, d1.file), c.key(r)) && (cut.None? || cut.value.InLine?)
    ensures var line := NewLine(c, d1, r);
      && written <= |line|
      && Attempted(c, d, r, cut) == Disk(Rotated(d1.file, |line|) + line[..written], Some(NextNumber(c, d1)))
  {
    var line := NewLine(c, d1, r);
    assert line[..|line|] == line;
    written := if cut.None? then |line| else Min(cut.value.written, |line|);
  }

  lemma RepairedDisk<R(!new)>(c: Codec<R>, d: Disk) returns (d1: Disk)
    requires CodecOk(c) && DiskOk(c, d)
    ensures d1 == d.(file := Repaired(c, d.file)) && DiskOk(c, d1) && IsUtf8(d1.file)
    ensures RowsIn(c, d1.file) == RowsIn(c, d.file) && NextNumber(c, d1) == NextNumber(c, d)
    ensures d1.file == Encoded(c, RowsIn(c, d1.file))
  {
    RepairedOk(c, d);
    d1 := d.(file := Repaired(c, d.file));
  }

  /** An append cut off somewhere, or not: nothing new, or a row with the next number. */
  lemma AttemptGrows<R(!new)>(c: Codec<R>, d: Disk, r: R, cut: Option<Crash>, d': Disk) returns (k: nat, x: Option<R>)
    requires CodecOk(c) && DiskOk(c, d) && d' == Attempted(c, d, r, cut)
    ensures DiskOk(c, d') && Grown(c, d, d', k, x)
  {
    var d1 := RepairedDisk(c, d);
    if HasKey(c, RowsIn(c, d1.file), c.key(r)) || (cut.Some? && !cut.value.InLine?) {
      UnwrittenShape(c, d, d1, r, cut);
      k, x := UnwrittenGrows(c, d, d1, d');
    } else {
      var written := WrittenShape(c, d, d1, r, cut);
      k, x := LineGrows(c, d1, r, written, d');
      SameGrowth(c, d, d1, d', k, x);
    }
  }

  lemma UnwrittenGrows<R(!new)>(c: Codec<R>, d: Disk, d1: Disk, d': Disk) returns (k: nat, x: Option<R>)
    requires DiskOk(c, d) && DiskOk(c, d1) && d1.sidecar == d.sidecar
    requires RowsIn(c, d1.file) == RowsIn(c, d.file) && NextNumber(c, d1) == NextNumber(c, d)
    requires d' == d || d' == d1 || d' == d1.(sidecar := Some(NextNumber(c, d1)))
    ensures DiskOk(c, d') && Grown(c, d, d', k, x)
  {
    NextIsAbove(c, d1);
    k, x := 0, None;
    StillGrows(c, d, d');
  }

  lemma SameGrowth<R>(c: Codec<R>, d: Disk, d1: Disk, d': Disk, k: nat, x: Option<R>)
    requires Grown(c, d1, d', k, x) && d1.sidecar == d.sidecar && RowsIn(c, d1.file) == RowsIn(c, d.file)
    ensures Grown(c, d, d', k, x)
  {
  }

  lemma LastOfGrown<R>(c: Codec<R>, d: Disk, d': Disk, k: nat, x: Option<R>)
    requires Grown(c, d, d', k, x)
    ensures x.Some? ==> Last(c, d') == Some(NextNumber(c, d)) && d'.sidecar == Some(NextNumber(c, d))
    ensures x.None? ==> Last(c, d') == None || Last(c, d') == Last(c, d)
    ensures x.None? && d'.sidecar != Some(NextNumber(c, d)) ==> d'.sidecar == d.sidecar && Last(c, d') == Last(c, d)
  {
    assert RowsIn(c, d.file)[0..] + [] == RowsIn(c, d.file);
  }

  lemma GrownIsOk<R(!new)>(c: Codec<R>, l: Life, d: Disk, k: nat, x: Option<R>)
    requires LifeOk(c, l) && DiskOk(c, d) && Grown(c, l.disk, d, k, x)
    ensures LifeOk(c, Lived(c, l, d))
  {
    NextIsOnTop(c, l);
    LastOfGrown(c, l.disk, d, k, x);
    RecordGrows(l.numbers, Last(c, l.disk), l.disk.sidecar, NextNumber(c, l.disk), Last(c, d), d.sidecar);
  }

  ghost predicate IsRun<R>(c: Codec<R>, lives: seq<Life>, events: seq<Event<R>>) {
    && |lives| == |events| + 1
    && forall i :: 0 <= i < |events| ==> lives[i + 1] == Step(c, lives[i], events[i])
  }

  /** The counter was lost while no row could take its place. */
  ghost predicate StartsOver<R>(c: Codec<R>, l: Life, ev: Event<R>) {
    ev.LoseCounter? && RowsIn(c, l.disk.file) == [] && l.numbers != []
  }

  /**
   * Numbers never repeat and never fall: over any sequence of appends, cut off at any byte or not,
   * restarts and lost counters, the rows ever shown have rising numbers and the next number lies
   * above them all, as long as the counter is not lost while the spool shows no row.
   */
  lemma {:induction false} NumbersRise<R(!new)>(c: Codec<R>, lives: seq<Life>, events: seq<Event<R>>, n: nat)
    requires CodecOk(c) && IsRun(c, lives, events) && n < |lives| && lives[0] == Life(EMPTY_DISK, [])
    requires forall i :: 0 <= i < n ==> !StartsOver(c, lives[i], events[i])
    ensures LifeOk(c, lives[n])
    ensures RisingNumbers(lives[n].numbers + [NextNumber(c, lives[n].disk)])
  {
    if n == 0 {
      assert Encoded(c, []) == [];
      WholeIsOk(c, EMPTY_DISK, []);
    } else {
      NumbersRise(c, lives, events, n - 1);
      StepIsOk(c, lives[n - 1], events[n - 1]);
    }
    NextRises(c, lives[n]);
  }

  lemma NextRises<R(!new)>(c: Codec<R>, l: Life)
    requires LifeOk(c, l)
    ensures RisingNumbers(l.numbers + [NextNumber(c, l.disk)])
  {
    NextIsOnTop(c, l);
  }

  lemma StepIsOk<R(!new)>(c: Codec<R>, l: Life, ev: Event<R>)
    requires CodecOk(c) && LifeOk(c, l) && !StartsOver(c, l, ev)
    ensures LifeOk(c, Step(c, l, ev))
  {
    match ev
    case Write(r, cut) =>
      var k, x := AttemptGrows(c, l.disk, r, cut, Attempted(c, l.disk, r, cut));
      GrownIsOk(c, l, Attempted(c, l.disk, r, cut), k, x);
    case LoseCounter => LostSidecarIsOk(c, l.disk);
  }

  /** A write that is not cut off and whose key is new shows its row, under the number that was next. */
  lemma WriteIsShown<R(!new)>(c: Codec<R>, l: Life, r: R) returns (n: nat)
    requires CodecOk(c) && LifeOk(c, l) && !HasKey(c, RowsIn(c, l.disk.file), c.key(r))
    ensures IsNext(c, l.disk, n)
    ensures var l' := Step(c, l, Write(r, None));
      l'.numbers == l.numbers + [n] && c.stamp(r, n) in RowsIn(c, l'.disk.file) && l'.disk.sidecar == Some(n)
  {
    var k;
    RepairedOk(c, l.disk);
    k, n := AppendExactly(c, l.disk, r);
    var rows, row := RowsIn(c, l.disk.file), c.stamp(r, n);
    WholeReadBack(c, rows[k..] + [row]);
    NextIsOnTop(c, l);
  }

  /** And only then: losing it there makes the next row repeat a number at or below an earlier one. */
  lemma StartingOverRepeats<R(!new)>(c: Codec<R>, l: Life, ev: Event<R>)
    requires CodecOk(c) && LifeOk(c, l)
    ensures NextNumber(c, Step(c, l, ev).disk) <= Top(Step(c, l, ev).numbers) <==> StartsOver(c, l, ev)
  {
    if !StartsOver(c, l, ev) {
      StepIsOk(c, l, ev);
      NextIsOnTop(c, Step(c, l, ev));
    }
  }
}
