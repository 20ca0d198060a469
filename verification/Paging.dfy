/** Reading the spool page by page while it grows and rotates. */
module Paging {
  import opened Prelude

  /** How the reader looks at rows of type `R`. */
  datatype Lens<!R> = Lens(number: R -> nat, mine: R -> bool)

  function Unread<R>(l: Lens<R>, after: nat): R -> bool { (r: R) => l.number(r) > after && l.mine(r) }

  /** The oldest or the newest `limit` rows past the cursor, in file order. */
  function PendingRows<R>(l: Lens<R>, rows: seq<R>, after: nat, limit: int, oldestFirst: bool): seq<R> {
    Bounded(Filter(rows, Unread(l, after)), limit, oldestFirst)
  }

  function Bounded<R>(hits: seq<R>, limit: int, oldestFirst: bool): seq<R> {
    var n := Min(Max(0, limit), |hits|);
    if oldestFirst then hits[..n] else hits[|hits| - n..]
  }

  // ----- What a page is --------------------------------------------------------------------------

  /** Positions in rising order. */
  ghost predicate Ascending(at: seq<nat>) { forall j, k :: 0 <= j < k < |at| ==> at[j] < at[k] }

  /** `hits` are the wanted rows, in their order; `at` says where each of them stands. */
  ghost predicate Picks<R>(rows: seq<R>, wanted: R -> bool, hits: seq<R>, at: seq<nat>) {
    && |at| == |hits| && Ascending(at)
    && (forall j :: 0 <= j < |at| ==> at[j] < |rows| && rows[at[j]] == hits[j] && wanted(hits[j]))
  }

  ghost function WantedAt<R>(rows: seq<R>, wanted: R -> bool): set<nat> {
    set i: nat | i < |rows| && wanted(rows[i])
  }

  /**
   * `page` has as many of the wanted rows as there are, up to the limit, in file order; what is left out
   * comes after the whole page when the oldest come first, and before it otherwise.
   */
  ghost predicate IsPage<R>(rows: seq<R>, wanted: R -> bool, limit: int, oldestFirst: bool, page: seq<R>) {
    && |page| == Min(Max(0, limit), |WantedAt(rows, wanted)|)
    && exists at :: Picks(rows, wanted, page, at) && RestBeyond(rows, wanted, at, oldestFirst)
  }

  ghost predicate RestBeyond<R>(rows: seq<R>, wanted: R -> bool, at: seq<nat>, oldestFirst: bool) {
    forall i: nat, j: nat :: i < |rows| && wanted(rows[i]) && i !in at && j < |at| ==>
      if oldestFirst then at[j] < i else i < at[j]
  }

  /** Filtering picks all wanted rows. */
  lemma {:induction false} FilterPicks<R>(rows: seq<R>, wanted: R -> bool) returns (at: seq<nat>)
    ensures Picks(rows, wanted, Filter(rows, wanted), at)
    ensures forall i: nat :: i in at <==> i < |rows| && wanted(rows[i])
  {
    if rows == [] {
      at := [];
    } else {
      var init, last := rows[..|rows| - 1], rows[|rows| - 1];
      at := FilterPicks(init, wanted);
      FilterOneMore(init, last, wanted);
      assert rows == init + [last];
      if wanted(last) { at := at + [|init|]; }
    }
  }

  lemma {:induction false} AsManyAsPositions(at: seq<nat>, wanted: set<nat>)
    requires Ascending(at) && forall i: nat :: i in wanted <==> i in at
    ensures |wanted| == |at|
  {
    if at == [] {
      assert wanted == {};
    } else {
      var init, last := at[..|at| - 1], at[|at| - 1];
      assert at == init + [last];
      AsManyAsPositions(init, wanted - {last});
    }
  }

  lemma InTheRest(all: seq<nat>, n: nat, i: nat) returns (k: nat)
    requires n <= |all| && i in all
    ensures k < |all| && all[k] == i
    ensures i !in all[..n] ==> n <= k
    ensures i in all[..n] ==> k < n
  {
    assert all == all[..n] + all[n..];
    if i in all[..n] {
      var m: nat :| m < n && all[..n][m] == i;
      k := m;
    } else {
      var m: nat :| m < |all[n..]| && all[n..][m] == i;
      k := n + m;
    }
  }

  lemma FirstsArePage<R>(rows: seq<R>, wanted: R -> bool, hits: seq<R>, all: seq<nat>, n: nat)
    requires Picks(rows, wanted, hits, all) && n <= |hits|
    requires forall i: nat :: i in all <==> i < |rows| && wanted(rows[i])
    ensures Picks(rows, wanted, hits[..n], all[..n]) && RestBeyond(rows, wanted, all[..n], true)
  {
    forall i: nat, j: nat | i < |rows| && wanted(rows[i]) && i !in all[..n] && j < n
      ensures all[..n][j] < i
    {
      var k := InTheRest(all, n, i);
    }
  }

  lemma LastsArePage<R>(rows: seq<R>, wanted: R -> bool, hits: seq<R>, all: seq<nat>, m: nat)
    requires Picks(rows, wanted, hits, all) && m <= |hits|
    requires forall i: nat :: i in all <==> i < |rows| && wanted(rows[i])
    ensures Picks(rows, wanted, hits[m..], all[m..]) && RestBeyond(rows, wanted, all[m..], false)
  {
    forall i: nat, j: nat | i < |rows| && wanted(rows[i]) && i !in all[m..] && j < |all| - m
      ensures i < all[m..][j]
    {
      assert all == all[..m] + all[m..];
      var k := InTheRest(all, m, i);
    }
  }

  /** The bound takes a page of the wanted rows. */
  lemma PendingIsPage<R>(l: Lens<R>, rows: seq<R>, after: nat, limit: int, oldestFirst: bool)
    ensures IsPage(rows, Unread(l, after), limit, oldestFirst, PendingRows(l, rows, after, limit, oldestFirst))
  {
    var wanted := Unread(l, after);
    var hits := Filter(rows, wanted);
    var n := Min(Max(0, limit), |hits|);
    var all := FilterPicks(rows, wanted);
    AsManyAsPositions(all, WantedAt(rows, wanted));
    FirstsArePage(rows, wanted, hits, all, n);
    LastsArePage(rows, wanted, hits, all, |hits| - n);
  }

  ghost predicate Rising<R>(l: Lens<R>, rows: seq<R>) {
    forall i, j :: 0 <= i < j < |rows| ==> l.number(rows[i]) < l.number(rows[j])
  }

  /** Raising the cursor past no unread row changes nothing. */
  lemma {:induction false} SameUnread<R>(l: Lens<R>, rows: seq<R>, a: nat, b: nat)
    requires forall i :: 0 <= i < |rows| ==> l.number(rows[i]) > a && l.number(rows[i]) > b
    ensures Filter(rows, Unread(l, a)) == Filter(rows, Unread(l, b))
  {
    if rows != [] { SameUnread(l, rows[1..], a, b); }
  }

  /** Moving the cursor to the last row of a page leaves exactly the rows after the page. */
  lemma {:induction false} PageAdvances<R>(l: Lens<R>, rows: seq<R>, after: nat, k: nat)
    requires Rising(l, rows) && 1 <= k <= |Filter(rows, Unread(l, after))|
    ensures var hits := Filter(rows, Unread(l, after)); Filter(rows, Unread(l, l.number(hits[k - 1]))) == hits[k..]
    ensures l.number(Filter(rows, Unread(l, after))[k - 1]) > after
  {
    var hits, tail := Filter(rows, Unread(l, after)), rows[1..];
    FilterMember(rows, Unread(l, after), hits[k - 1]);
    assert Rising(l, tail);
    if Unread(l, after)(rows[0]) {
      if k == 1 {
        SameUnread(l, tail, after, l.number(rows[0]));
      } else {
        PageAdvances(l, tail, after, k - 1);
        FilterMember(tail, Unread(l, after), hits[k - 1]);
        var j :| 0 <= j < |tail| && tail[j] == hits[k - 1];
        assert l.number(rows[0]) < l.number(rows[j + 1]);
      }
    } else {
      PageAdvances(l, tail, after, k);
    }
  }

  // ----- Runs of a reader -----------------------------------------------------------------------

  /**
   * `history` is every row since the reader began, of which rotation has dropped the first `gone`; `read` what it
   * got. `hidden` tells that a crash has cut a character and nothing can be read before the next append.
   */
  datatype View<R> = View(history: seq<R>, gone: nat, hidden: bool, cursor: nat, read: seq<R>)

  datatype Event<R> = Append(r: R) | Rotate(dropped: nat) | Tear | Page(limit: nat)

  function OnDisk<R>(v: View<R>): seq<R> { if v.gone <= |v.history| then v.history[v.gone..] else [] }

  function PageOf<R>(l: Lens<R>, v: View<R>, limit: nat): seq<R> {
    PendingRows(l, if v.hidden then [] else OnDisk(v), v.cursor, limit, true)
  }

  function Turned<R>(l: Lens<R>, v: View<R>, page: seq<R>): View<R> {
    v.(read := v.read + page, cursor := if page == [] then v.cursor else l.number(page[|page| - 1]))
  }

  ghost predicate Next<R>(l: Lens<R>, v: View<R>, ev: Event<R>, v': View<R>) {
    match ev
    case Append(r) =>
      // an append repairs the file first
      v' == v.(history := v.history + [r], hidden := false)
      && l.number(r) > v.cursor && forall i :: 0 <= i < |v.history| ==> l.number(v.history[i]) < l.number(r)
    case Rotate(dropped) =>
      // rotation drops the oldest rows, none of them unread
      v' == v.(gone := v.gone + dropped)
      && dropped <= |OnDisk(v)| && forall i :: 0 <= i < dropped ==> !Unread(l, v.cursor)(OnDisk(v)[i])
    case Tear => v' == v.(hidden := true)
    case Page(limit) => limit >= 1 && v' == Turned(l, v, PageOf(l, v, limit))
  }

  /** What is still unread is on disk, and read and unread together are the one filter. */
  ghost predicate Inv<R>(l: Lens<R>, v: View<R>, start: nat) {
    && Rising(l, v.history) && v.gone <= |v.history|
    && Filter(OnDisk(v), Unread(l, v.cursor)) == Filter(v.history, Unread(l, v.cursor))
    && v.read + Filter(v.history, Unread(l, v.cursor)) == Filter(v.history, Unread(l, start))
    && v.cursor >= start
  }

  lemma {:induction false} DropNothing<R>(rows: seq<R>, p: R -> bool, k: nat)
    requires k <= |rows| && forall i :: 0 <= i < k ==> !p(rows[i])
    ensures Filter(rows[k..], p) == Filter(rows, p)
  {
    if k == 0 {
      assert rows[0..] == rows;
    } else {
      DropNothing(rows[1..], p, k - 1);
      assert rows[1..][k - 1..] == rows[k..];
    }
  }

  lemma AppendKeeps<R>(l: Lens<R>, v: View<R>, r: R, v': View<R>, start: nat)
    requires Inv(l, v, start) && Next(l, v, Append(r), v')
    ensures Inv(l, v', start)
  {
    assert OnDisk(v') == OnDisk(v) + [r];
    FilterOneMore(OnDisk(v), r, Unread(l, v.cursor));
    FilterOneMore(v.history, r, Unread(l, v.cursor));
    FilterOneMore(v.history, r, Unread(l, start));
    JoinMore(v.read, Filter(v.history, Unread(l, v.cursor)), [r]);
  }

  lemma RotateKeeps<R>(l: Lens<R>, v: View<R>, dropped: nat, v': View<R>, start: nat)
    requires Inv(l, v, start) && Next(l, v, Rotate(dropped), v')
    ensures Inv(l, v', start)
  {
    DropNothing(OnDisk(v), Unread(l, v.cursor), dropped);
    assert OnDisk(v') == OnDisk(v)[dropped..];
  }

  lemma PageKeeps<R>(l: Lens<R>, v: View<R>, limit: nat, v': View<R>, start: nat)
    requires Inv(l, v, start) && Next(l, v, Page(limit), v')
    ensures Inv(l, v', start)
    ensures !v.hidden && |PageOf(l, v, limit)| < limit ==> v'.read == Filter(v'.history, Unread(l, start))
  {
    var hits, page := Filter(OnDisk(v), Unread(l, v.cursor)), PageOf(l, v, limit);
    assert v.hidden ==> page == [];
    assert hits == page + hits[|page|..];
    JoinMore(v.read, page, hits[|page|..]);
    if page == [] {
      assert v'.read == v.read;
    } else {
      PageAdvances(l, v.history, v.cursor, |page|);
      PageAdvances(l, OnDisk(v), v.cursor, |page|);
    }
  }

  lemma StepKeeps<R>(l: Lens<R>, v: View<R>, ev: Event<R>, v': View<R>, start: nat)
    requires Inv(l, v, start) && Next(l, v, ev, v')
    ensures Inv(l, v', start)
  {
    match ev
    case Append(r) => AppendKeeps(l, v, r, v', start);
    case Rotate(dropped) => RotateKeeps(l, v, dropped, v', start);
    case Tear => assert OnDisk(v') == OnDisk(v);
    case Page(limit) => PageKeeps(l, v, limit, v', start);
  }

  ghost predicate IsRun<R>(l: Lens<R>, views: seq<View<R>>, events: seq<Event<R>>) {
    && |views| == |events| + 1
    && forall i :: 0 <= i < |events| ==> Next(l, views[i], events[i], views[i + 1])
  }

  /**
   * Paged reading refines one filter: whatever is appended or torn in between and whatever already
   * read rows rotation drops, the pages put together are the reader's rows after the starting cursor,
   * once each and in order, up to the cursor; the rest is still to come.
   */
  lemma {:induction false} PagesAreOneFilter<R>(l: Lens<R>, views: seq<View<R>>, events: seq<Event<R>>, n: nat)
    requires IsRun(l, views, events) && n < |views| && views[0].read == [] && views[0].gone == 0
      && Rising(l, views[0].history)
    ensures Inv(l, views[n], views[0].cursor)
    ensures var v := views[n];
      v.read + Filter(v.history, Unread(l, v.cursor)) == Filter(v.history, Unread(l, views[0].cursor))
  {
    if n == 0 {
      assert OnDisk(views[0]) == views[0].history;
    } else {
      PagesAreOneFilter(l, views, events, n - 1);
      StepKeeps(l, views[n - 1], events[n - 1], views[n], views[0].cursor);
    }
  }

  /** A page that comes back short from a file that can be read means the reader has everything. */
  lemma ShortPageIsTheEnd<R>(l: Lens<R>, views: seq<View<R>>, events: seq<Event<R>>, n: nat)
    requires IsRun(l, views, events) && n < |events| && views[0].read == [] && views[0].gone == 0
      && Rising(l, views[0].history)
    requires events[n].Page? && !views[n].hidden && |PageOf(l, views[n], events[n].limit)| < events[n].limit
    ensures views[n + 1].read == Filter(views[n + 1].history, Unread(l, views[0].cursor))
  {
    PagesAreOneFilter(l, views, events, n);
    PageKeeps(l, views[n], events[n].limit, views[n + 1], views[0].cursor);
  }
}
