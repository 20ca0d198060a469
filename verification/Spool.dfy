/** The message spool byte by byte: torn tails, numbering, rotation and crashes in the middle of an append. */
module Spool {
  import opened Prelude
  import opened Utf8

  const NEWLINE: Byte := 10

  const MAX_SPOOL_BYTES := 1_000_000
  const MAX_SPOOL_RETAIN_ROWS := 500

  /** A folded chat name and a message id. */
  type Key = (string, int)

  /** How rows of type `R` are written as JSON objects and read back. */
  datatype Codec<!R> = Codec(enc: R -> Bytes, dec: Bytes -> Option<R>, key: R -> Key, number: R -> nat,
      stamp: (R, nat) -> R)

  /**
   * Encoding is invertible, is text without a newline, and no proper prefix of an encoded object
   * is itself a complete object (section 4 of RFC 8259).
   */
  ghost predicate CodecOk<R(!new)>(c: Codec<R>) {
    && (forall r :: c.enc(r) != [] && NEWLINE !in c.enc(r) && c.dec(c.enc(r)) == Some(r))
    && (forall r, n :: 0 <= n < |c.enc(r)| ==> c.dec(c.enc(r)[..n]) == None)
    && (forall r, n: nat :: c.number(c.stamp(r, n)) == n && c.key(c.stamp(r, n)) == c.key(r))
    && (forall r :: IsUtf8(c.enc(r)))
  }

  // ----- Reading ------------------------------------------------------------------------------

  function LineEnd(file: Bytes): (n: nat)
    ensures n <= |file| && NEWLINE !in file[..n] && (n < |file| ==> file[n] == NEWLINE)
  {
    if file == [] || file[0] == NEWLINE then 0 else 1 + LineEnd(file[1..])
  }

  /** The lines without their newlines; an unfinished last line counts when it is not empty. */
  function Lines(file: Bytes): seq<Bytes> {
    if file == [] then []
    else if LineEnd(file) == |file| then [file]
    else [file[..LineEnd(file)]] + Lines(file[LineEnd(file) + 1..])
  }

  function Decoded<R>(c: Codec<R>, lines: seq<Bytes>): seq<R> {
    if lines == [] then []
    else if c.dec(lines[0]).Some? then [c.dec(lines[0]).value] + Decoded(c, lines[1..])
    else Decoded(c, lines[1..])
  }

  /** Every line that is a complete row, in file order. */
  function RowsIn<R>(c: Codec<R>, file: Bytes): seq<R> { Decoded(c, Lines(file)) }

  /** What a reader sees: it decodes the whole file, so bytes that are not text hide every row. */
  function Visible<R>(c: Codec<R>, file: Bytes): seq<R> { if IsUtf8(file) then RowsIn(c, file) else [] }

  function Line<R>(c: Codec<R>, r: R): Bytes { c.enc(r) + [NEWLINE] }

  function Encoded<R>(c: Codec<R>, rows: seq<R>): Bytes {
    if rows == [] then [] else Line(c, rows[0]) + Encoded(c, rows[1..])
  }

  function TailRow<R>(c: Codec<R>, tail: Bytes): seq<R> {
    if tail != [] && c.dec(tail).Some? then [c.dec(tail).value] else []
  }

  lemma {:induction false} FirstLine(head: Bytes, rest: Bytes)
    requires NEWLINE !in head
    ensures LineEnd(head + [NEWLINE] + rest) == |head|
  {
    var file := head + [NEWLINE] + rest;
    if head == [] {
      assert file[0] == NEWLINE;
    } else {
      assert file[0] == head[0] && file[1..] == head[1..] + [NEWLINE] + rest;
      FirstLine(head[1..], rest);
    }
  }

  lemma LinesOfWhole(head: Bytes, rest: Bytes)
    requires NEWLINE !in head
    ensures Lines(head + [NEWLINE] + rest) == [head] + Lines(rest)
  {
    FirstLine(head, rest);
    var file := head + [NEWLINE] + rest;
    assert file[..|head|] == head && file[|head| + 1..] == rest;
  }

  lemma {:induction false} LinesOfTail(tail: Bytes)
    requires NEWLINE !in tail
    ensures Lines(tail) == if tail == [] then [] else [tail]
  {
    assert LineEnd(tail) == |tail|;
  }

  function Joined(lines: seq<Bytes>): Bytes { if lines == [] then [] else lines[0] + [NEWLINE] + Joined(lines[1..]) }

  /** The lines of a file made of newline-free lines and a newline-free tail. */
  lemma {:induction false} LinesOfJoined(lines: seq<Bytes>, tail: Bytes)
    requires NEWLINE !in tail && forall i :: 0 <= i < |lines| ==> NEWLINE !in lines[i]
    ensures Lines(Joined(lines) + tail) == lines + (if tail == [] then [] else [tail])
  {
    if lines == [] {
      assert Joined(lines) + tail == tail;
      LinesOfTail(tail);
    } else {
      LinesOfJoined(lines[1..], tail);
      JoinedStep(lines, tail);
      LinesOfWhole(lines[0], Joined(lines[1..]) + tail);
      OneMoreLine(lines, if tail == [] then [] else [tail]);
    }
  }

  lemma OneMoreLine(lines: seq<Bytes>, last: seq<Bytes>)
    requires lines != []
    ensures [lines[0]] + (lines[1..] + last) == lines + last
  {
  }

  lemma JoinedStep(lines: seq<Bytes>, tail: Bytes)
    requires lines != []
    ensures Joined(lines) + tail == lines[0] + [NEWLINE] + (Joined(lines[1..]) + tail)
  {
  }

  function Ended(line: Bytes): Bytes { line + [NEWLINE] }

  lemma {:induction false} FlattenIsEncoded<R>(c: Codec<R>, rows: seq<R>)
    ensures Flatten(Map(Ended, Map(c.enc, rows))) == Encoded(c, rows)
  {
    if rows != [] {
      FlattenIsEncoded(c, rows[1..]);
      assert Map(Ended, Map(c.enc, rows))[1..] == Map(Ended, Map(c.enc, rows[1..]));
    }
  }

  lemma {:induction false} JoinedIsEncoded<R>(c: Codec<R>, rows: seq<R>)
    ensures Joined(Map(c.enc, rows)) == Encoded(c, rows)
  {
    if rows != [] { JoinedIsEncoded(c, rows[1..]); }
  }

  lemma LinesOfEncoded<R(!new)>(c: Codec<R>, rows: seq<R>, tail: Bytes)
    requires CodecOk(c) && NEWLINE !in tail
    ensures Lines(Encoded(c, rows) + tail) == Map(c.enc, rows) + (if tail == [] then [] else [tail])
  {
    JoinedIsEncoded(c, rows);
    LinesOfJoined(Map(c.enc, rows), tail);
  }

  lemma {:induction false} DecodeEncoded<R(!new)>(c: Codec<R>, rows: seq<R>, last: seq<Bytes>)
    requires CodecOk(c)
    ensures Decoded(c, Map(c.enc, rows) + last) == rows + Decoded(c, last)
  {
    if rows == [] {
      assert Map(c.enc, rows) + last == last;
    } else {
      var lines := Map(c.enc, rows) + last;
      DecodeEncoded(c, rows[1..], last);
      assert lines[0] == c.enc(rows[0]) && lines[1..] == Map(c.enc, rows[1..]) + last;
      assert Decoded(c, lines) == [rows[0]] + Decoded(c, lines[1..]);
      JoinMore([rows[0]], rows[1..], Decoded(c, last));
    }
  }

  /** A spool of whole lines and a tail holds its rows, and the tail if that is complete. */
  lemma LinesReadBack<R(!new)>(c: Codec<R>, rows: seq<R>, tail: Bytes)
    requires CodecOk(c) && NEWLINE !in tail
    ensures RowsIn(c, Encoded(c, rows) + tail) == rows + TailRow(c, tail)
  {
    LinesOfEncoded(c, rows, tail);
    var last := if tail == [] then [] else [tail];
    DecodeEncoded(c, rows, last);
    if tail != [] { assert Decoded(c, last[1..]) == []; }
  }

  lemma WholeReadBack<R(!new)>(c: Codec<R>, rows: seq<R>)
    requires CodecOk(c)
    ensures RowsIn(c, Encoded(c, rows)) == rows
  {
    LinesReadBack(c, rows, []);
    assert Encoded(c, rows) + [] == Encoded(c, rows);
  }

  lemma {:induction false} EncodedAppend<R>(c: Codec<R>, a: seq<R>, b: seq<R>)
    ensures Encoded(c, a + b) == Encoded(c, a) + Encoded(c, b)
  {
    if a == [] {
      assert a + b == b;
    } else {
      EncodedAppend(c, a[1..], b);
      assert (a + b)[0] == a[0] && (a + b)[1..] == a[1..] + b;
      assert Encoded(c, a + b) == Line(c, a[0]) + Encoded(c, a[1..] + b);
      JoinMore(Line(c, a[0]), Encoded(c, a[1..]), Encoded(c, b));
    }
  }

  // ----- Torn tails ---------------------------------------------------------------------------

  /** What an interrupted write may leave behind: any beginning of an encoded row. */
  ghost predicate Torn<R(!new)>(c: Codec<R>, tail: Bytes) { tail == [] || exists r :: tail <= c.enc(r) }

  lemma TornTail<R(!new)>(c: Codec<R>, tail: Bytes)
    requires CodecOk(c) && Torn(c, tail)
    ensures NEWLINE !in tail
    ensures tail != [] && c.dec(tail).Some? ==> tail == c.enc(c.dec(tail).value)
  {
    if tail != [] {
      var r :| tail <= c.enc(r);
      assert tail == c.enc(r)[..|tail|];
      assert forall b :: b in tail ==> b in c.enc(r);
      assert |tail| < |c.enc(r)| ==> c.dec(c.enc(r)[..|tail|]) == None;
      assert |tail| == |c.enc(r)| ==> tail == c.enc(r);
    }
  }

  lemma {:induction false} EncodedIsText<R(!new)>(c: Codec<R>, rows: seq<R>)
    requires CodecOk(c)
    ensures IsUtf8(Encoded(c, rows))
  {
    if rows != [] {
      EncodedIsText(c, rows[1..]);
      assert IsUtf8([NEWLINE]);
      TextThen(c.enc(rows[0]), [NEWLINE]);
      TextThen(Line(c, rows[0]), Encoded(c, rows[1..]));
    }
  }

  /**
   * What a reader gets between a crash and the next append: every row, and the torn one if it is
   * complete, as long as the tail ends where a character ends; otherwise nothing at all.
   */
  lemma ReadBack<R(!new)>(c: Codec<R>, rows: seq<R>, tail: Bytes)
    requires CodecOk(c) && Torn(c, tail)
    ensures Visible(c, Encoded(c, rows) + tail) == if IsUtf8(tail) then rows + TailRow(c, tail) else []
    ensures TailRow(c, tail) != [] ==> IsUtf8(tail)
  {
    EncodedIsText(c, rows);
    TextThen(Encoded(c, rows), tail);
    TornTail(c, tail);
    LinesReadBack(c, rows, tail);
  }

  /** The gap is real wherever a row has a character beyond ASCII: some tail hides all rows. */
  lemma CutCharacterHidesRows<R(!new)>(c: Codec<R>, rows: seq<R>, r: R, n: nat)
    requires CodecOk(c) && n < |c.enc(r)| && IsUtf8(c.enc(r)[..n]) && c.enc(r)[n] > 0x7F
    ensures Torn(c, c.enc(r)[..n + 1]) && Visible(c, Encoded(c, rows) + c.enc(r)[..n + 1]) == []
  {
    var tail := c.enc(r)[..n + 1];
    assert tail <= c.enc(r);
    assert tail == c.enc(r)[..n] + [c.enc(r)[n]];
    TextThen(c.enc(r)[..n], [c.enc(r)[n]]);
    assert CharLength([c.enc(r)[n]]) == 0;
    ReadBack(c, rows, tail);
  }

  function LastLineStart(file: Bytes): (n: nat)
    ensures n <= |file| && (n == 0 || file[n - 1] == NEWLINE)
  {
    if file == [] || file[|file| - 1] == NEWLINE then |file| else LastLineStart(file[..|file| - 1])
  }

  /** Finish a complete last row with its newline, or cut an incomplete one off. */
  function Repaired<R>(c: Codec<R>, file: Bytes): Bytes {
    var start := LastLineStart(file);
    if start == |file| then file
    else if c.dec(file[start..]).Some? then file + [NEWLINE]
    else file[..start]
  }

  lemma {:induction false} EncodedEnds<R>(c: Codec<R>, rows: seq<R>)
    ensures rows == [] || (Encoded(c, rows) != [] && Encoded(c, rows)[|Encoded(c, rows)| - 1] == NEWLINE)
  {
    if rows != [] { EncodedEnds(c, rows[1..]); }
  }

  lemma {:induction false} LastLineOf<R>(c: Codec<R>, rows: seq<R>, tail: Bytes)
    requires NEWLINE !in tail
    ensures LastLineStart(Encoded(c, rows) + tail) == |Encoded(c, rows)|
  {
    var file := Encoded(c, rows) + tail;
    if tail == [] {
      EncodedEnds(c, rows);
      assert file == Encoded(c, rows);
    } else {
      LastLineOf(c, rows, tail[..|tail| - 1]);
      assert file[|file| - 1] == tail[|tail| - 1];
      assert file[..|file| - 1] == Encoded(c, rows) + tail[..|tail| - 1];
    }
  }

  /** Repair leaves whole lines that hold exactly the rows a reader could see before. */
  lemma RepairKeepsRows<R(!new)>(c: Codec<R>, rows: seq<R>, tail: Bytes)
    requires CodecOk(c) && Torn(c, tail)
    ensures Repaired(c, Encoded(c, rows) + tail) == Encoded(c, rows + TailRow(c, tail))
    ensures RowsIn(c, Encoded(c, rows) + tail) == rows + TailRow(c, tail)
  {
    TornTail(c, tail);
    LastLineOf(c, rows, tail);
    LinesReadBack(c, rows, tail);
    var whole := Encoded(c, rows);
    var file := whole + tail;
    assert file[|whole|..] == tail && file[..|whole|] == whole;
    if TailRow(c, tail) == [] {
      assert rows + TailRow(c, tail) == rows;
      assert tail == [] ==> file == whole;
    } else {
      var r := c.dec(tail).value;
      EncodedAppend(c, rows, [r]);
      assert Encoded(c, [r]) == Line(c, r) + Encoded(c, []) == Line(c, r);
      assert file + [NEWLINE] == whole + Line(c, r);
    }
  }

  // ----- Numbers and keys ---------------------------------------------------------------------

  /** The file and the sidecar counter, which may be missing. */
  datatype Disk = Disk(file: Bytes, sidecar: Option<nat>)

  const EMPTY_DISK := Disk([], None)

  function MaxNumber<R>(c: Codec<R>, rows: seq<R>): nat {
    if rows == [] then 0 else Max(MaxNumber(c, rows[..|rows| - 1]), c.number(rows[|rows| - 1]))
  }

  function NextNumber<R>(c: Codec<R>, d: Disk): nat {
    1 + (if d.sidecar.Some? then d.sidecar.value else MaxNumber(c, RowsIn(c, d.file)))
  }

  predicate HasKey<R>(c: Codec<R>, rows: seq<R>, k: Key) { exists i :: 0 <= i < |rows| && c.key(rows[i]) == k }

  ghost predicate Rising<R>(c: Codec<R>, rows: seq<R>) {
    forall i, j :: 0 <= i < j < |rows| ==> c.number(rows[i]) < c.number(rows[j])
  }

  ghost predicate DistinctKeys<R>(c: Codec<R>, rows: seq<R>) {
    forall i, j :: 0 <= i < j < |rows| ==> c.key(rows[i]) != c.key(rows[j])
  }

  lemma {:induction false} MaxIsBound<R>(c: Codec<R>, rows: seq<R>)
    ensures forall i :: 0 <= i < |rows| ==> c.number(rows[i]) <= MaxNumber(c, rows)
    ensures rows != [] ==> exists i :: 0 <= i < |rows| && c.number(rows[i]) == MaxNumber(c, rows)
  {
    if rows != [] {
      var init := rows[..|rows| - 1];
      MaxIsBound(c, init);
      assert MaxNumber(c, rows) == Max(MaxNumber(c, init), c.number(rows[|rows| - 1]));
      if init != [] && MaxNumber(c, rows) != c.number(rows[|rows| - 1]) {
        var i :| 0 <= i < |init| && c.number(init[i]) == MaxNumber(c, init);
        assert c.number(rows[i]) == MaxNumber(c, rows);
      }
    }
  }

  // ----- Rotation -------------------------------------------------------------------------------

  /** The newest lines, at most `most` of them, that fit into `budget` bytes. */
  function Newest(lines: seq<Bytes>, budget: int, most: nat): seq<Bytes> {
    if lines == [] || most == 0 || |lines[|lines| - 1]| > budget then []
    else
      var last := lines[|lines| - 1];
      Newest(lines[..|lines| - 1], budget - |last|, most - 1) + [last]
  }

  function Rotated(file: Bytes, incoming: nat): Bytes {
    if |file| + incoming <= MAX_SPOOL_BYTES then file
    else Flatten(Newest(Map(Ended, Lines(file)), Max(0, MAX_SPOOL_BYTES - incoming), MAX_SPOOL_RETAIN_ROWS))
  }

  lemma {:induction false} NewestIsSuffix(lines: seq<Bytes>, budget: int, most: nat) returns (k: nat)
    requires budget >= 0
    ensures k <= |lines| && Newest(lines, budget, most) == lines[k..] && |lines| - k <= most
    ensures |Flatten(lines[k..])| <= budget
    ensures k > 0 && |lines| - k < most ==> |lines[k - 1]| + |Flatten(lines[k..])| > budget
  {
    if lines == [] || most == 0 || |lines[|lines| - 1]| > budget {
      k := |lines|;
      assert lines[k..] == [];
    } else {
      var last, init := lines[|lines| - 1], lines[..|lines| - 1];
      k := NewestIsSuffix(init, budget - |last|, most - 1);
      assert lines[k..] == init[k..] + [last];
      FlattenAppend(init[k..], [last]);
      FlattenSingle(last);
    }
  }

  lemma MapTail<A, B>(f: A -> B, s: seq<A>, k: nat)
    requires k <= |s|
    ensures Map(f, s)[k..] == Map(f, s[k..])
  {
  }

  /**
   * Rotation keeps a contiguous newest run of rows: all of them when the new row still fits, else
   * at most 500 and as many as leave room for it. The file never grows past the limit if the new
   * row alone fits.
   */
  lemma RotationKeepsNewest<R(!new)>(c: Codec<R>, rows: seq<R>, incoming: nat) returns (k: nat)
    requires CodecOk(c)
    ensures k <= |rows| && Rotated(Encoded(c, rows), incoming) == Encoded(c, rows[k..])
    ensures |Encoded(c, rows)| + incoming <= MAX_SPOOL_BYTES ==> k == 0
    ensures incoming <= MAX_SPOOL_BYTES ==> |Rotated(Encoded(c, rows), incoming)| + incoming <= MAX_SPOOL_BYTES
    ensures k > 0 ==> |rows| - k <= MAX_SPOOL_RETAIN_ROWS
    ensures k > 0 && |rows| - k < MAX_SPOOL_RETAIN_ROWS ==>
      |Line(c, rows[k - 1])| + |Encoded(c, rows[k..])| > Max(0, MAX_SPOOL_BYTES - incoming)
  {
    if |Encoded(c, rows)| + incoming <= MAX_SPOOL_BYTES {
      k := 0;
      assert rows[0..] == rows;
    } else {
      k := NewestRows(c, rows, Max(0, MAX_SPOOL_BYTES - incoming));
    }
  }

  /** The lines of a whole file, with their newlines. */
  lemma EndedLines<R(!new)>(c: Codec<R>, rows: seq<R>)
    requires CodecOk(c)
    ensures Map(Ended, Lines(Encoded(c, rows))) == Map(Ended, Map(c.enc, rows))
  {
    LinesOfEncoded(c, rows, []);
    assert Encoded(c, rows) + [] == Encoded(c, rows);
  }

  lemma SuffixIsEncoded<R>(c: Codec<R>, rows: seq<R>, k: nat)
    requires k <= |rows|
    ensures Flatten(Map(Ended, Map(c.enc, rows))[k..]) == Encoded(c, rows[k..])
  {
    MapTail(c.enc, rows, k);
    MapTail(Ended, Map(c.enc, rows), k);
    FlattenIsEncoded(c, rows[k..]);
  }

  lemma NewestRows<R(!new)>(c: Codec<R>, rows: seq<R>, budget: nat) returns (k: nat)
    requires CodecOk(c)
    ensures k <= |rows| && |rows| - k <= MAX_SPOOL_RETAIN_ROWS
    ensures Flatten(Newest(Map(Ended, Lines(Encoded(c, rows))), budget, MAX_SPOOL_RETAIN_ROWS)) == Encoded(c, rows[k..])
    ensures |Encoded(c, rows[k..])| <= budget
    ensures k > 0 && |rows| - k < MAX_SPOOL_RETAIN_ROWS ==> |Line(c, rows[k - 1])| + |Encoded(c, rows[k..])| > budget
  {
    var lines := Map(Ended, Map(c.enc, rows));
    EndedLines(c, rows);
    k := NewestIsSuffix(lines, budget, MAX_SPOOL_RETAIN_ROWS);
    SuffixIsEncoded(c, rows, k);
  }

  // ----- Appending --------------------------------------------------------------------------------

  function NewLine<R>(c: Codec<R>, d: Disk, r: R): Bytes { Line(c, c.stamp(r, NextNumber(c, d))) }

  /** The disk after an append, and whether a row was written. */
  function Appended<R>(c: Codec<R>, d: Disk, r: R): (Disk, bool) {
    var d1 := d.(file := Repaired(c, d.file));
    if HasKey(c, RowsIn(c, d1.file), c.key(r)) then (d1, false)
    else
      var line := NewLine(c, d1, r);
      (Disk(Rotated(d1.file, |line|) + line, Some(NextNumber(c, d1))), true)
  }

  /** Where an append may be cut off: before each write, or after any number of bytes of the line. */
  datatype Crash = AtStart | AfterRepair | AfterNumber | InLine(written: nat)

  function CrashedIn<R>(c: Codec<R>, d: Disk, r: R, at: Crash): Disk {
    var d1 := d.(file := Repaired(c, d.file));
    if at == AtStart then d
    else if at == AfterRepair || HasKey(c, RowsIn(c, d1.file), c.key(r)) then d1
    else
      var line := NewLine(c, d1, r);
      if at == AfterNumber then d1.(sidecar := Some(NextNumber(c, d1)))
      else Disk(Rotated(d1.file, |line|) + line[..Min(at.written, |line|)], Some(NextNumber(c, d1)))
  }

  /** Where an append really ends: the scan for its key fails on a repaired file that is not text. */
  function CutOff<R>(c: Codec<R>, d: Disk, fail: Option<Crash>): Option<Crash> {
    if fail != Some(AtStart) && !IsUtf8(Repaired(c, d.file)) then Some(AfterRepair) else fail
  }

  /** Readable rows have rising numbers, below the counter if there is one, and distinct keys. */
  ghost predicate RowsOk<R>(c: Codec<R>, rows: seq<R>, sidecar: Option<nat>) {
    && Rising(c, rows) && DistinctKeys(c, rows)
    && (sidecar.Some? ==> forall i :: 0 <= i < |rows| ==> c.number(rows[i]) <= sidecar.value)
  }

  ghost predicate Shaped<R(!new)>(c: Codec<R>, file: Bytes, rows: seq<R>, tail: Bytes) {
    Torn(c, tail) && file == Encoded(c, rows) + tail
  }

  /** Whole rows, then perhaps a torn one. */
  ghost predicate DiskOk<R(!new)>(c: Codec<R>, d: Disk) {
    && (exists rows, tail :: Shaped(c, d.file, rows, tail))
    && RowsOk(c, RowsIn(c, d.file), d.sidecar)
  }

  lemma WholeIsOk<R(!new)>(c: Codec<R>, d: Disk, rows: seq<R>)
    requires CodecOk(c) && d.file == Encoded(c, rows) && RowsOk(c, rows, d.sidecar)
    ensures DiskOk(c, d) && RowsIn(c, d.file) == rows
  {
    WholeReadBack(c, rows);
    assert Encoded(c, rows) == Encoded(c, rows) + [];
    assert Shaped(c, d.file, rows, []);
  }

  lemma RepairedOk<R(!new)>(c: Codec<R>, d: Disk)
    requires CodecOk(c) && DiskOk(c, d)
    ensures Repaired(c, d.file) == Encoded(c, RowsIn(c, d.file))
    ensures DiskOk(c, d.(file := Repaired(c, d.file))) && RowsIn(c, Repaired(c, d.file)) == RowsIn(c, d.file)
    ensures IsUtf8(Repaired(c, d.file)) && Visible(c, Repaired(c, d.file)) == RowsIn(c, d.file)
  {
    EncodedIsText(c, RowsIn(c, d.file));
    var rows, tail :| Shaped(c, d.file, rows, tail);
    RepairKeepsRows(c, rows, tail);
    WholeIsOk(c, d.(file := Repaired(c, d.file)), RowsIn(c, d.file));
  }

  lemma NextIsAbove<R(!new)>(c: Codec<R>, d: Disk)
    requires DiskOk(c, d)
    ensures forall i :: 0 <= i < |RowsIn(c, d.file)| ==> c.number(RowsIn(c, d.file)[i]) < NextNumber(c, d)
  {
    MaxIsBound(c, RowsIn(c, d.file));
  }

  lemma SuffixOk<R>(c: Codec<R>, rows: seq<R>, sidecar: Option<nat>, k: nat)
    requires RowsOk(c, rows, sidecar) && k <= |rows|
    ensures RowsOk(c, rows[k..], sidecar)
  {
  }

  lemma OneLine<R>(c: Codec<R>, rows: seq<R>, r: R)
    ensures Encoded(c, rows + [r]) == Encoded(c, rows) + Line(c, r)
  {
    EncodedAppend(c, rows, [r]);
    assert Encoded(c, [r]) == Line(c, r) + Encoded(c, []) == Line(c, r);
  }

  /** A newer row with a new key may follow. */
  lemma OneMoreRow<R>(c: Codec<R>, rows: seq<R>, r: R)
    requires Rising(c, rows) && DistinctKeys(c, rows)
    requires forall i :: 0 <= i < |rows| ==> c.number(rows[i]) < c.number(r) && c.key(rows[i]) != c.key(r)
    ensures RowsOk(c, rows, Some(c.number(r))) && RowsOk(c, rows + [r], Some(c.number(r)))
  {
  }

  /** Whole rows followed by part of the line of a newer row are a good disk. */
  lemma PartialLine<R(!new)>(c: Codec<R>, rows: seq<R>, r: R, written: nat)
    requires CodecOk(c) && Rising(c, rows) && DistinctKeys(c, rows) && written <= |Line(c, r)|
    requires forall i :: 0 <= i < |rows| ==> c.number(rows[i]) < c.number(r) && c.key(rows[i]) != c.key(r)
    ensures var d := Disk(Encoded(c, rows) + Line(c, r)[..written], Some(c.number(r)));
      DiskOk(c, d) && RowsIn(c, d.file) == if written + 1 < |Line(c, r)| then rows else rows + [r]
  {
    OneMoreRow(c, rows, r);
    if written == |Line(c, r)| {
      OneLine(c, rows, r);
      assert Line(c, r)[..written] == Line(c, r);
      WholeIsOk(c, Disk(Encoded(c, rows) + Line(c, r), Some(c.number(r))), rows + [r]);
    } else {
      assert Line(c, r)[..written] == c.enc(r)[..written];
      TornLine(c, rows, r, written);
    }
  }

  /** Some bytes of a row after whole ones; all of them are the row. */
  lemma TornLine<R(!new)>(c: Codec<R>, rows: seq<R>, r: R, written: nat)
    requires CodecOk(c) && RowsOk(c, rows, Some(c.number(r))) && RowsOk(c, rows + [r], Some(c.number(r)))
    requires written <= |c.enc(r)|
    ensures var d := Disk(Encoded(c, rows) + c.enc(r)[..written], Some(c.number(r)));
      DiskOk(c, d) && RowsIn(c, d.file) == if written < |c.enc(r)| then rows else rows + [r]
  {
    var tail := c.enc(r)[..written];
    assert Torn(c, tail) && Shaped(c, Encoded(c, rows) + tail, rows, tail);
    TornTail(c, tail);
    LinesReadBack(c, rows, tail);
    assert written == |c.enc(r)| ==> tail == c.enc(r);
    assert rows + [] == rows;
  }

  /** The rotated file followed by any part of the new line is a good disk; which rows it shows. */
  lemma PartialLineOk<R(!new)>(c: Codec<R>, d: Disk, r: R, written: nat) returns (k: nat)
    requires CodecOk(c) && DiskOk(c, d) && d.file == Encoded(c, RowsIn(c, d.file))
    requires !HasKey(c, RowsIn(c, d.file), c.key(r)) && written <= |NewLine(c, d, r)|
    ensures k <= |RowsIn(c, d.file)|
    ensures var line := NewLine(c, d, r);
      var d' := Disk(Rotated(d.file, |line|) + line[..written], Some(NextNumber(c, d)));
      var kept := RowsIn(c, d.file)[k..];
      DiskOk(c, d') && RowsIn(c, d'.file) ==
        if written + 1 < |line| then kept else kept + [c.stamp(r, NextNumber(c, d))]
  {
    var rows, r' := RowsIn(c, d.file), c.stamp(r, NextNumber(c, d));
    k := RotationKeepsNewest(c, rows, |NewLine(c, d, r)|);
    NextIsAbove(c, d);
    SuffixOk(c, rows, None, k);
    assert c.number(r') == NextNumber(c, d) && c.key(r') == c.key(r);
    PartialLine(c, rows[k..], r', written);
  }

  /** A finished append keeps the spool good and ends it with the new row, or finds the key on disk. */
  lemma AppendIsOk<R(!new)>(c: Codec<R>, d: Disk, r: R) returns (k: nat)
    requires CodecOk(c) && DiskOk(c, d)
    ensures var (d', written) := Appended(c, d, r);
      && DiskOk(c, d') && k <= |RowsIn(c, d.file)|
      && (var kept := RowsIn(c, d.file)[k..];
          RowsIn(c, d'.file) == if written then kept + [c.stamp(r, NextNumber(c, d.(file := Repaired(c, d.file))))]
            else kept)
      && (!written ==> k == 0) && (written <==> !HasKey(c, RowsIn(c, d.file), c.key(r)))
  {
    k := 0;
    RepairedOk(c, d);
    var d1 := d.(file := Repaired(c, d.file));
    if !HasKey(c, RowsIn(c, d1.file), c.key(r)) {
      var line := NewLine(c, d1, r);
      k := PartialLineOk(c, d1, r, |line|);
      assert line[..|line|] == line;
    }
  }

  lemma CrashedLine<R>(c: Codec<R>, d: Disk, d1: Disk, r: R, at: Crash)
    requires d1 == d.(file := Repaired(c, d.file)) && at.InLine? && !HasKey(c, RowsIn(c, d1.file), c.key(r))
    ensures var line := NewLine(c, d1, r);
      CrashedIn(c, d, r, at)
        == Disk(Rotated(d1.file, |line|) + line[..Min(at.written, |line|)], Some(NextNumber(c, d1)))
  {
  }

  lemma CrashedBefore<R>(c: Codec<R>, d: Disk, d1: Disk, r: R, at: Crash)
    requires d1 == d.(file := Repaired(c, d.file)) && (!at.InLine? || HasKey(c, RowsIn(c, d1.file), c.key(r)))
    ensures var d' := CrashedIn(c, d, r, at); d' == d || d' == d1 || d' == d1.(sidecar := Some(NextNumber(c, d1)))
  {
  }

  /** A crash at any point of an append leaves a good spool. */
  lemma CrashIsOk<R(!new)>(c: Codec<R>, d: Disk, r: R, at: Crash)
    requires CodecOk(c) && DiskOk(c, d)
    ensures DiskOk(c, CrashedIn(c, d, r, at))
  {
    RepairedOk(c, d);
    var d1 := d.(file := Repaired(c, d.file));
    if at.InLine? && !HasKey(c, RowsIn(c, d1.file), c.key(r)) {
      CrashInLineIsOk(c, d, d1, r, at);
    } else {
      CrashBeforeIsOk(c, d, d1, r, at);
    }
  }

  lemma CrashInLineIsOk<R(!new)>(c: Codec<R>, d: Disk, d1: Disk, r: R, at: Crash)
    requires CodecOk(c) && DiskOk(c, d1) && d1.file == Encoded(c, RowsIn(c, d1.file))
    requires d1 == d.(file := Repaired(c, d.file)) && at.InLine? && !HasKey(c, RowsIn(c, d1.file), c.key(r))
    ensures DiskOk(c, CrashedIn(c, d, r, at))
  {
    CrashedLine(c, d, d1, r, at);
    var k := PartialLineOk(c, d1, r, Min(at.written, |NewLine(c, d1, r)|));
  }

  lemma CrashBeforeIsOk<R(!new)>(c: Codec<R>, d: Disk, d1: Disk, r: R, at: Crash)
    requires DiskOk(c, d) && DiskOk(c, d1)
    requires d1 == d.(file := Repaired(c, d.file)) && (!at.InLine? || HasKey(c, RowsIn(c, d1.file), c.key(r)))
    ensures DiskOk(c, CrashedIn(c, d, r, at))
  {
    NextIsAbove(c, d1);
    CrashedBefore(c, d, d1, r, at);
  }

  /** `n` is one more than the counter, or than the largest number in the file if there is no counter. */
  ghost predicate IsNext<R>(c: Codec<R>, d: Disk, n: nat) {
    if d.sidecar.Some? then n == d.sidecar.value + 1
    else if RowsIn(c, d.file) == [] then n == 1
    else
      && (exists i :: 0 <= i < |RowsIn(c, d.file)| && c.number(RowsIn(c, d.file)[i]) + 1 == n)
      && (forall i :: 0 <= i < |RowsIn(c, d.file)| ==> c.number(RowsIn(c, d.file)[i]) < n)
  }

  lemma NextIsNext<R>(c: Codec<R>, d: Disk)
    ensures IsNext(c, d, NextNumber(c, d))
  {
    MaxIsBound(c, RowsIn(c, d.file));
  }

  /** The first `k` rows make room: none if all fit, else as few as leave at most 500 rows that fit with the line. */
  predicate MakesRoom<R>(c: Codec<R>, rows: seq<R>, k: nat, incoming: nat) {
    && k <= |rows|
    && (|Encoded(c, rows)| + incoming <= 1_000_000 ==> k == 0)
    && (k > 0 ==>
          && |rows| - k <= 500
          && (incoming <= 1_000_000 ==> |Encoded(c, rows[k..])| + incoming <= 1_000_000)
          && (|rows| - k < 500 ==> |Encoded(c, rows[k - 1..])| > Max(0, 1_000_000 - incoming)))
  }

  lemma RotationMakesRoom<R(!new)>(c: Codec<R>, rows: seq<R>, incoming: nat) returns (k: nat)
    requires CodecOk(c)
    ensures MakesRoom(c, rows, k, incoming) && Rotated(Encoded(c, rows), incoming) == Encoded(c, rows[k..])
  {
    k := RotationKeepsNewest(c, rows, incoming);
    if k > 0 {
      assert rows[k - 1..] == [rows[k - 1]] + rows[k..];
    }
  }

  /**
   * What an append does, to the row: a key on disk leaves rows and counter as they are; a new one takes
   * the next number, makes room if it must, and becomes the last row.
   */
  lemma AppendExactly<R(!new)>(c: Codec<R>, d: Disk, r: R) returns (k: nat, n: nat)
    requires CodecOk(c) && DiskOk(c, d)
    ensures IsNext(c, d, n)
    ensures var rows, (d', written) := RowsIn(c, d.file), Appended(c, d, r);
      && (written <==> forall i :: 0 <= i < |rows| ==> c.key(rows[i]) != c.key(r))
      && (if written then
            MakesRoom(c, rows, k, |Line(c, c.stamp(r, n))|) && d'.sidecar == Some(n)
            && d'.file == Encoded(c, rows[k..] + [c.stamp(r, n)])
          else d'.sidecar == d.sidecar && d'.file == Encoded(c, rows))
  {
    n := NextNumber(c, d);
    NextIsNext(c, d);
    AfterRepairIs(c, d, r);
    var rows := RowsIn(c, d.file);
    k := RotationMakesRoom(c, rows, |Line(c, c.stamp(r, n))|);
    OneLine(c, rows[k..], c.stamp(r, n));
  }

  /** The repaired file holds the rows as whole lines, and leaves the next number and line as they are. */
  lemma AfterRepairIs<R(!new)>(c: Codec<R>, d: Disk, r: R)
    requires CodecOk(c) && DiskOk(c, d)
    ensures var d1, rows := d.(file := Repaired(c, d.file)), RowsIn(c, d.file);
      && d1.file == Encoded(c, rows) && RowsIn(c, d1.file) == rows
      && NextNumber(c, d1) == NextNumber(c, d) && NewLine(c, d1, r) == Line(c, c.stamp(r, NextNumber(c, d)))
  {
    RepairedOk(c, d);
  }

  /** And cut off: nothing, the repair, the number too, or so many bytes of the line as well. */
  lemma CrashExactly<R(!new)>(c: Codec<R>, d: Disk, r: R, at: Crash) returns (k: nat, n: nat)
    requires CodecOk(c) && DiskOk(c, d)
    ensures IsNext(c, d, n)
    ensures var rows, d' := RowsIn(c, d.file), CrashedIn(c, d, r, at);
      if at == AtStart then d' == d
      else if at == AfterRepair || exists i :: 0 <= i < |rows| && c.key(rows[i]) == c.key(r)
      then d' == Disk(Encoded(c, rows), d.sidecar)
      else if at == AfterNumber then d' == Disk(Encoded(c, rows), Some(n))
      else
        var line := Line(c, c.stamp(r, n));
        MakesRoom(c, rows, k, |line|)
        && d' == Disk(Encoded(c, rows[k..]) + line[..Min(at.written, |line|)], Some(n))
  {
    n := NextNumber(c, d);
    NextIsNext(c, d);
    AfterRepairIs(c, d, r);
    k := RotationMakesRoom(c, RowsIn(c, d.file), |Line(c, c.stamp(r, n))|);
  }

  lemma LostSidecarIsOk<R(!new)>(c: Codec<R>, d: Disk)
    requires DiskOk(c, d)
    ensures DiskOk(c, d.(sidecar := None))
  {
  }

  function CountKey<R>(c: Codec<R>, rows: seq<R>, k: Key): nat {
    if rows == [] then 0 else CountKey(c, rows[1..], k) + (if c.key(rows[0]) == k then 1 else 0)
  }

  lemma {:induction false} CountDistinct<R>(c: Codec<R>, rows: seq<R>, k: Key)
    requires DistinctKeys(c, rows)
    ensures CountKey(c, rows, k) == if HasKey(c, rows, k) then 1 else 0
  {
    if rows != [] {
      var tail := rows[1..];
      CountDistinct(c, tail, k);
      if HasKey(c, tail, k) {
        var i :| 0 <= i < |tail| && c.key(tail[i]) == k;
        assert c.key(rows[i + 1]) == k;
      }
      if HasKey(c, rows, k) && c.key(rows[0]) != k {
        var i :| 0 <= i < |rows| && c.key(rows[i]) == k;
        assert c.key(tail[i - 1]) == k;
      }
    }
  }

  /**
   * Replaying the message whose append crashed, at whatever point and even if the counter was
   * lost as well, leaves exactly one row for it.
   */
  lemma ReplayLeavesOneRow<R(!new)>(c: Codec<R>, d: Disk, r: R, again: R, at: Crash, lost: bool)
    requires CodecOk(c) && DiskOk(c, d) && c.key(again) == c.key(r)
    ensures var crashed := CrashedIn(c, d, r, at);
      var restarted := if lost then crashed.(sidecar := None) else crashed;
      CountKey(c, RowsIn(c, Appended(c, restarted, again).0.file), c.key(r)) == 1
  {
    CrashIsOk(c, d, r, at);
    var crashed := CrashedIn(c, d, r, at);
    var restarted := if lost then crashed.(sidecar := None) else crashed;
    var k := AppendIsOk(c, restarted, again);
    var rows := RowsIn(c, Appended(c, restarted, again).0.file);
    CountDistinct(c, rows, c.key(r));
    if Appended(c, restarted, again).1 {
      assert c.key(rows[|rows| - 1]) == c.key(r);
    }
  }

  // ----- Numbers over the whole life of the spool ------------------------------------------------

  /** `top` is the largest number a reader could ever have seen. */
  ghost predicate TopOk<R>(c: Codec<R>, d: Disk, top: nat) {
    var rows := RowsIn(c, d.file);
    (rows != [] ==> c.number(rows[|rows| - 1]) == top) && (d.sidecar.Some? ==> top <= d.sidecar.value)
  }

  /**
   * The next number is above everything a reader ever saw unless the counter is lost while the
   * spool shows no row at all; only then does numbering start over.
   */
  lemma NumbersStartOverExactlyWhen<R(!new)>(c: Codec<R>, d: Disk, top: nat)
    requires DiskOk(c, d) && TopOk(c, d, top) && top > 0
    ensures NextNumber(c, d) <= top <==> d.sidecar.None? && RowsIn(c, d.file) == []
  {
    var rows := RowsIn(c, d.file);
    MaxIsBound(c, rows);
  }

  /** A spool whose newest row leaves room for the next one is never emptied by rotation. */
  lemma RotationKeepsLastRow<R(!new)>(c: Codec<R>, rows: seq<R>, incoming: nat) returns (k: nat)
    requires CodecOk(c) && rows != [] && |Line(c, rows[|rows| - 1])| + incoming <= MAX_SPOOL_BYTES
    ensures k < |rows| && Rotated(Encoded(c, rows), incoming) == Encoded(c, rows[k..])
  {
    k := RotationKeepsNewest(c, rows, incoming);
    assert rows[|rows|..] == [];
  }

  // ----- A codec that meets the requirements ---------------------------------------------------

  datatype Tally = Tally(count: nat)

  function Zeros(n: nat): Bytes { seq(n, _ => 0) }

  /** Numbers in unary, ended by an e with an acute accent, a character of two bytes. */
  function UnaryCodec(): Codec<Tally> {
    Codec((t: Tally) => Zeros(t.count) + [0xC3, 0xA9],
          (b: Bytes) => if |b| >= 2 && b == Zeros(|b| - 2) + [0xC3, 0xA9] then Some(Tally(|b| - 2)) else None,
          (t: Tally) => ("", 0), (t: Tally) => t.count, (t: Tally, n: nat) => Tally(n))
  }

  lemma {:induction false} AsciiIsText(b: Bytes)
    requires forall i :: 0 <= i < |b| ==> b[i] <= 0x7F
    ensures IsUtf8(b)
  {
    if b != [] { AsciiIsText(b[1..]); }
  }

  lemma UnaryCodecOk()
    ensures CodecOk(UnaryCodec())
  {
    var c := UnaryCodec();
    forall t: Tally ensures IsUtf8(c.enc(t)) {
      AsciiIsText(Zeros(t.count));
      assert CharLength([0xC3, 0xA9]) == 2 && IsUtf8([0xC3, 0xA9]);
      TextThen(Zeros(t.count), [0xC3, 0xA9]);
    }
    forall t: Tally, n | 0 <= n < |c.enc(t)| ensures c.dec(c.enc(t)[..n]) == None {
      var head := c.enc(t)[..n];
      if n >= 2 { assert head[n - 2] == 0 && (Zeros(n - 2) + [0xC3, 0xA9])[n - 2] == 0xC3; }
    }
  }

  /** In it every row can be torn so that a reader finds nothing of what came before. */
  lemma UnaryRowsAreHidden(rows: seq<Tally>, t: Tally)
    ensures Visible(UnaryCodec(), Encoded(UnaryCodec(), rows) + UnaryCodec().enc(t)[..t.count + 1]) == []
  {
    var c := UnaryCodec();
    UnaryCodecOk();
    AsciiIsText(Zeros(t.count));
    assert c.enc(t)[..t.count] == Zeros(t.count);
    CutCharacterHidesRows(c, rows, t, t.count);
  }
}
