/** A page built from two windows is the page of the two merged complete histories. */
module HistoryWindows {
  import opened Wrappers
  import opened History
  import opened HistoryMerge

  // ----- windows --------------------------------------------------------------------------------------------------

  lemma TakeCons(x: Row, s: seq<Row>, n: nat)
    requires n >= 1
    ensures Take([x] + s, n) == [x] + Take(s, n - 1)
  {
  }

  lemma TakeHead(s: seq<Row>, n: nat)
    requires s != [] && n >= 1
    ensures Take(s, n) != [] && Take(s, n)[0] == s[0] && Take(s, n)[1..] == Take(s[1..], n - 1)
  {
  }

  /** The first `n` rows of an interleaving take at most `n` from the first list. */
  lemma {:induction false} FirstWindow(x: seq<Row>, y: seq<Row>, n: nat, m: nat)
    requires n <= m
    ensures Take(Interleave(Take(x, m), y), n) == Take(Interleave(x, y), n)
    decreases |x| + |y|
  {
    if n > 0 && x != [] && y != [] {
      TakeHead(x, m);
      if x[0].time >= y[0].time {
        FirstWindow(x[1..], y, n - 1, m - 1);
        TakeCons(x[0], Interleave(x[1..], y), n);
        TakeCons(x[0], Interleave(Take(x, m)[1..], y), n);
      } else {
        FirstWindow(x, y[1..], n - 1, m);
        TakeCons(y[0], Interleave(x, y[1..]), n);
        TakeCons(y[0], Interleave(Take(x, m), y[1..]), n);
      }
    }
  }

  /** How many rows of a listing are at least as new as `t`. */
  function Since(x: seq<Row>, t: int): nat {
    if x == [] || x[0].time < t then 0 else 1 + Since(x[1..], t)
  }

  /** Rows behind enough others do not reach the first `n`. */
  lemma {:induction false} LateRows(x: seq<Row>, r: seq<Row>, n: nat)
    requires r != [] ==> Since(x, r[0].time) >= n
    ensures Take(Interleave(x, r), n) == Take(x, n)
    decreases |x|
  {
    if r != [] && n > 0 {
      LateRows(x[1..], r, n - 1);
      TakeCons(x[0], Interleave(x[1..], r), n);
      TakeCons(x[0], x[1..], n);
      assert [x[0]] + x[1..] == x;
    }
  }

  lemma {:induction false} LateTail(x: seq<Row>, y: seq<Row>, r: seq<Row>, n: nat)
    requires r != [] ==> |y| + Since(x, r[0].time) >= n && forall z :: z in y ==> z.time >= r[0].time
    ensures Take(Interleave(x, y + r), n) == Take(Interleave(x, y), n)
    decreases |x| + |y|
  {
    if r == [] {
      assert y + r == y;
    } else if y == [] {
      assert y + r == r;
      LateRows(x, r, n);
    } else if n > 0 {
      assert (y + r)[0] == y[0] && (y + r)[1..] == y[1..] + r && y[0] in y;
      if x == [] {
        assert Take(y + r, n) == Take(y, n);
      } else if x[0].time >= y[0].time {
        LateTail(x[1..], y, r, n - 1);
        TakeCons(x[0], Interleave(x[1..], y + r), n);
        TakeCons(x[0], Interleave(x[1..], y), n);
      } else {
        LateTail(x, y[1..], r, n - 1);
        TakeCons(y[0], Interleave(x, y[1..] + r), n);
        TakeCons(y[0], Interleave(x, y[1..]), n);
      }
    }
  }

  function Newer(y: seq<Row>, t: int): seq<Row> {
    if y == [] then [] else (if y[0].time > t then [y[0]] else []) + Newer(y[1..], t)
  }

  /** With `n` rows of the first list at least as new as `t`, only rows newer than `t` of the other come before. */
  lemma {:induction false} OnlyNewer(x: seq<Row>, y: seq<Row>, n: nat, t: int)
    requires |x| >= n && (forall i :: 0 <= i < n ==> x[i].time >= t) && NewestFirst(y)
    ensures Take(Interleave(x, Newer(y, t)), n) == Take(Interleave(x, y), n)
    decreases |x| + |y|
  {
    if n > 0 && y != [] {
      if y[0].time <= t {
        NoneNewer(y, t);
        OnlyNewer(x[1..], y, n - 1, t);
        TakeCons(x[0], Interleave(x[1..], y), n);
        TakeCons(x[0], x[1..], n);
        assert [x[0]] + x[1..] == x && Interleave(x[1..], []) == x[1..];
      } else {
        var z := Newer(y, t);
        assert z[0] == y[0] && z[1..] == Newer(y[1..], t);
        if x[0].time >= y[0].time {
          OnlyNewer(x[1..], y, n - 1, t);
          TakeCons(x[0], Interleave(x[1..], y), n);
          TakeCons(x[0], Interleave(x[1..], z), n);
        } else {
          OnlyNewer(x, y[1..], n - 1, t);
          TakeCons(y[0], Interleave(x, y[1..]), n);
          TakeCons(y[0], Interleave(x, z[1..]), n);
        }
      }
    }
  }

  lemma {:induction false} NoneNewer(y: seq<Row>, t: int)
    requires forall i :: 0 <= i < |y| ==> y[i].time <= t
    ensures Newer(y, t) == []
  {
    if y != [] {
      NoneNewer(y[1..], t);
    }
  }

  // ----- counting transactions ------------------------------------------------------------------------------------

  ghost function Ids(rows: seq<Row>): set<string> {
    set r | r in rows :: r.id
  }

  lemma {:induction false} IdsAreMany(rows: seq<Row>)
    ensures |Ids(rows)| <= |rows|
    ensures (forall i, j :: 0 <= i < j < |rows| ==> rows[i].id != rows[j].id) ==> |Ids(rows)| == |rows|
  {
    if rows == [] {
      assert Ids(rows) == {};
    } else {
      var rest := rows[1..];
      IdsAreMany(rest);
      IdsOfMore(rows);
      if forall i, j :: 0 <= i < j < |rows| ==> rows[i].id != rows[j].id {
        hide Ids;
        assert forall i, j :: 0 <= i < j < |rest| ==> rest[i].id != rest[j].id;
      }
    }
  }

  lemma IdsOfMore(rows: seq<Row>)
    requires rows != []
    ensures Ids(rows) == Ids(rows[1..]) + {rows[0].id}
    ensures (forall j :: 0 < j < |rows| ==> rows[0].id != rows[j].id) ==> rows[0].id !in Ids(rows[1..])
  {
    assert rows == [rows[0]] + rows[1..];
  }

  lemma SubsetIsSmaller(a: set<string>, b: set<string>)
    requires a <= b
    ensures |a| <= |b|
  {
    if a != b {
      assert b == a + (b - a) && |b| == |a| + |b - a|;
    }
  }

  lemma {:induction false} SinceIsPrefix(x: seq<Row>, t: int)
    requires NewestFirst(x)
    ensures Since(x, t) <= |x|
    ensures forall i :: 0 <= i < |x| ==> (x[i].time >= t <==> i < Since(x, t))
  {
    if x != [] && x[0].time >= t {
      SinceIsPrefix(x[1..], t);
    }
  }

  /** Every listed row is new or shared, and the shared ones are at least as new in the other listing. */
  lemma FreshAndShared(a: seq<Row>, b: seq<Row>, t: int)
    requires Listing(a) && Named(b) && Agree(a, b) && forall y :: y in b ==> y.time >= t
    ensures |b| <= |Fresh(a, b)| + Since(a, t)
  {
    FreshIsPart(a, b);
    SinceIsPrefix(a, t);
    var f, head := Fresh(a, b), a[..Since(a, t)];
    forall id | id in Ids(b) ensures id in Ids(f) + Ids(head) {
      var y :| y in b && y.id == id;
      if Has(a, id) {
        HasIsMembership(a, id);
        var i :| 0 <= i < |a| && a[i].id == id;
        assert a[i] in a && a[i].time >= t && head[i] in head;
      } else {
        assert y in f;
      }
    }
    IdsAreMany(b);
    IdsAreMany(f);
    IdsAreMany(head);
    SubsetIsSmaller(Ids(b), Ids(f) + Ids(head));
    assert |Ids(f) + Ids(head)| <= |Ids(f)| + |Ids(head)|;
  }

  lemma {:induction false} SinceTaken(x: seq<Row>, t: int, n: nat)
    requires NewestFirst(x)
    ensures Since(Take(x, n), t) == Min(n, Since(x, t))
  {
    if n > 0 && x != [] && x[0].time >= t {
      TakeHead(x, n);
      SinceTaken(x[1..], t, n - 1);
    }
  }

  lemma {:induction false} FreshConcat(a: seq<Row>, b: seq<Row>, c: seq<Row>)
    ensures Fresh(a, b + c) == Fresh(a, b) + Fresh(a, c)
  {
    if b == [] {
      assert b + c == c;
    } else {
      assert (b + c)[1..] == b[1..] + c;
      FreshConcat(a, b[1..], c);
    }
  }

  // ----- the order of the first rows survives the windows --------------------------------------------------------

  /** New rows beyond the window come too late. */
  lemma TailIsLate(a: seq<Row>, b: seq<Row>, n: nat)
    requires Listing(a) && Listing(b) && Agree(a, b)
    ensures Take(Interleave(Take(a, n), Fresh(a, b)), n) == Take(Interleave(Take(a, n), Fresh(a, Take(b, n))), n)
  {
    hide Interleave, Fresh, Since, Listing, Agree, Take, Drop;
    var head, tail := Take(b, n), Drop(b, n);
    HeadAndTail(b, n);
    FreshConcat(a, head, tail);
    var r := Fresh(a, tail);
    if r != [] {
      FreshHead(a, tail);
      EnoughBefore(a, b, n, r[0]);
    }
    LateTail(Take(a, n), Fresh(a, head), r, n);
  }

  lemma HeadAndTail(b: seq<Row>, n: nat)
    ensures b == Take(b, n) + Drop(b, n)
  {
  }

  lemma FreshHead(a: seq<Row>, b: seq<Row>)
    requires Fresh(a, b) != []
    ensures Fresh(a, b)[0] in b
  {
    hide Fresh;
    FreshIsPart(a, b);
    assert Fresh(a, b)[0] in Fresh(a, b);
  }

  /** Before a row beyond the window come `n` others. */
  lemma EnoughBefore(a: seq<Row>, b: seq<Row>, n: nat, x: Row)
    requires Listing(a) && Listing(b) && Agree(a, b) && x in Drop(b, n)
    ensures |Fresh(a, Take(b, n))| + Since(Take(a, n), x.time) >= n
    ensures forall z :: z in Fresh(a, Take(b, n)) ==> z.time >= x.time
  {
    hide Fresh, Since, Named, Has;
    var head := Take(b, n);
    NamedParts(b, n);
    FreshIsPart(a, head);
    OlderBeyond(b, n, x);
    FreshAndShared(a, head, x.time);
    SinceTaken(a, x.time, n);
  }

  lemma OlderBeyond(b: seq<Row>, n: nat, x: Row)
    requires NewestFirst(b) && x in Drop(b, n)
    ensures |Take(b, n)| == n && forall y :: y in Take(b, n) ==> y.time >= x.time
  {
    var head, tail := Take(b, n), Drop(b, n);
    var j :| 0 <= j < |tail| && tail[j] == x;
    assert b[n + j] == x;
    forall y | y in head ensures y.time >= x.time {
      var i :| 0 <= i < |head| && head[i] == y;
      assert b[i] == y;
    }
  }

  /** Rows that look new only because their copy lies beyond the first window come too late as well. */
  lemma SharedIsLate(a: seq<Row>, b: seq<Row>, n: nat)
    requires Listing(a) && Listing(b) && Agree(a, b)
    ensures Take(Interleave(Take(a, n), Fresh(a, b)), n) == Take(Interleave(Take(a, n), Fresh(Take(a, n), b)), n)
  {
    hide Interleave, Fresh;
    if |a| <= n {
      assert Take(a, n) == a;
    } else if n > 0 {
      var head, t := Take(a, n), a[n - 1].time;
      FreshIsPart(a, b);
      FreshIsPart(head, b);
      OnlyNewer(head, Fresh(a, b), n, t);
      OnlyNewer(head, Fresh(head, b), n, t);
      SameNewer(a, b, n);
    }
  }

  lemma {:induction false} SameNewer(a: seq<Row>, b: seq<Row>, n: nat)
    requires NewestFirst(a) && Named(a) && Named(b) && Agree(a, b) && 0 < n < |a|
    ensures Newer(Fresh(a, b), a[n - 1].time) == Newer(Fresh(Take(a, n), b), a[n - 1].time)
  {
    if b != [] {
      NamedTail(b);
      SameNewer(a, b[1..], n);
      var y, t, head := b[0], a[n - 1].time, Take(a, n);
      if y.time > t {
        HasIsMembership(a, y.id);
        HasIsMembership(head, y.id);
        SharedInWindow(a, b, n);
      }
      NewerCons(y, Fresh(a, b[1..]), t);
      NewerCons(y, Fresh(head, b[1..]), t);
    }
  }

  lemma NewerCons(y: Row, s: seq<Row>, t: int)
    ensures Newer([y] + s, t) == (if y.time > t then [y] else []) + Newer(s, t)
    ensures Newer([] + s, t) == Newer(s, t)
  {
    assert ([y] + s)[1..] == s && [] + s == s;
  }

  lemma SharedInWindow(a: seq<Row>, b: seq<Row>, n: nat)
    requires NewestFirst(a) && Agree(a, b) && 0 < n < |a| && b != [] && b[0].time > a[n - 1].time
    ensures Mentions(a, b[0].id) <==> Mentions(Take(a, n), b[0].id)
  {
    var y := b[0];
    assert y in b;
    if Mentions(a, y.id) {
      var i :| 0 <= i < |a| && a[i].id == y.id;
      assert a[i] in a && a[i].time == y.time;
      assert Take(a, n)[i] == a[i] && a[i] in Take(a, n);
    }
    if Mentions(Take(a, n), y.id) {
      var r :| r in Take(a, n) && r.id == y.id;
      assert r in a;
    }
  }

  /** The first `n` transactions of the merge are those of the two windows of `n` rows, in the same order. */
  lemma WindowKeepsOrder(a: seq<Row>, b: seq<Row>, n: nat)
    requires Listing(a) && Listing(b) && Agree(a, b)
    ensures Take(Order(Take(a, n), Take(b, n)), n) == Take(Order(a, b), n)
  {
    hide Interleave, Fresh;
    TakeIsListing(a, b, n);
    FirstWindow(a, Fresh(a, b), n, n);
    TailIsLate(a, b, n);
    SharedIsLate(a, Take(b, n), n);
  }

  lemma TakeIsListing(a: seq<Row>, b: seq<Row>, n: nat)
    requires Listing(a) && Listing(b) && Agree(a, b)
    ensures Listing(Take(a, n)) && Listing(Take(b, n)) && Agree(Take(a, n), Take(b, n)) && Agree(a, Take(b, n))
  {
    hide Listing, Take;
    TakeOne(a, n);
    TakeOne(b, n);
  }

  lemma TakeOne(a: seq<Row>, n: nat)
    requires Listing(a)
    ensures Listing(Take(a, n)) && forall x :: x in Take(a, n) ==> x in a
  {
  }

  // ----- the gateway ------------------------------------------------------------------------------------------------

  /** The other backend has a richer row of this transaction that its window does not reach. */
  ghost predicate RicherBeyond(r: Row, b: seq<Row>, n: nat) {
    exists y :: y in Drop(b, n) && y.id == r.id && y.fields > r.fields
  }

  /** A transaction the window lists is not listed again beyond it. */
  lemma ListedOnce(b: seq<Row>, n: nat, x: Row, y: Row)
    requires Named(b) && x in Take(b, n) && y in Drop(b, n)
    ensures x.id != y.id && x in b && y in b
  {
    var head, tail := Take(b, n), Drop(b, n);
    var i :| 0 <= i < |head| && head[i] == x;
    var j :| 0 <= j < |tail| && tail[j] == y;
    assert b[i] == x && b[n + j] == y;
  }

  lemma NamedOnce(b: seq<Row>, x: Row, y: Row)
    requires Named(b) && x in b && y in b && x.id == y.id
    ensures x == y
  {
    var i, j :| 0 <= i < |b| && 0 <= j < |b| && b[i] == x && b[j] == y;
  }

  lemma NamedParts(b: seq<Row>, n: nat)
    requires Named(b)
    ensures Named(Take(b, n))
    ensures forall y :: y in b <==> y in Take(b, n) || y in Drop(b, n)
  {
    forall y | y in Take(b, n) ensures y in b {}
    forall y | y in b ensures y in Take(b, n) || y in Drop(b, n) {
      var i :| 0 <= i < |b| && b[i] == y;
      if i < n {
        assert Take(b, n)[i] == y;
      } else {
        assert Drop(b, n)[i - n] == y;
      }
    }
  }

  lemma WindowKeepsRow(r: Row, b: seq<Row>, n: nat)
    requires Named(b)
    ensures Best(r, Take(b, n)).id == r.id
    ensures Best(r, Take(b, n)) == Best(r, b) <==> !RicherBeyond(r, b, n)
  {
    hide Best, Named, Take, Drop;
    var head, tail := Take(b, n), Drop(b, n);
    NamedParts(b, n);
    BestOf(r, b);
    BestOf(r, head);
    if Mentions(head, r.id) {
      var x :| x in head && x.id == r.id;
      forall y | y in tail ensures y.id != r.id {
        ListedOnce(b, n, x, y);
      }
    } else if Mentions(b, r.id) {
      var y :| y in b && y.id == r.id;
      forall z | z in tail && z.id == r.id ensures z == y {
        NamedOnce(b, y, z);
      }
    }
  }

  /** Served page and page of the whole: the same transactions, with the best row each listing gives of them. */
  lemma PageRows(local: Backend, remote: Backend, a: seq<Row>, b: seq<Row>, synced: bool, w: Window)
    requires Static(local, a) && Static(remote, b)
    requires Listing(a) && Listing(b) && Agree(a, b)
    requires w.limit >= 1 && !(synced && w == Window(0, 1))
    ensures var n := w.offset + w.limit;
            var rows := Slice(Order(a, b), w.offset, w.limit);
            && Answer(Fetched(local, n), Fetched(remote, n), synced, w) == Page(AllBest(rows, Take(b, n)))
            && Slice(MergedFeed([Listed(a), Listed(b)]), w.offset, w.limit) == AllBest(rows, b)
  {
    hide Fetched, MergedFeed, Order, AllBest, Slice, Take, Listing, Agree, Static;
    var n := w.offset + w.limit;
    PagedFetchIsWhole(local, a, n);
    PagedFetchIsWhole(remote, b, n);
    TakeIsListing(a, b, n);
    var a', b' := Take(a, n), Take(b, n);
    FeedIsOrdered(a, b);
    FeedIsOrdered(a', b');
    WindowKeepsOrder(a, b, n);
    EmptySlice(w.offset, w.limit);
    SliceOfBest(Order(a, b), b, w.offset, w.limit);
    SliceOfBest(Order(a', b'), b', w.offset, w.limit);
    SliceOfTake(Order(a', b'), Order(a, b), w.offset, w.limit);
  }

  /**
   The page served from two fetched windows shows the transactions of that page of the complete merged history, in
   the same order and at the same times, and each with the same row exactly if no richer one lies beyond the public
   window.
   */
  lemma PageOfWholeHistory(local: Backend, remote: Backend, a: seq<Row>, b: seq<Row>, synced: bool, w: Window)
    requires Static(local, a) && Static(remote, b)
    requires Listing(a) && Listing(b) && Agree(a, b)
    requires w.limit >= 1 && !(synced && w == Window(0, 1))
    ensures var reply := Answer(Fetched(local, w.offset + w.limit), Fetched(remote, w.offset + w.limit), synced, w);
            var whole := Slice(MergedFeed([Listed(a), Listed(b)]), w.offset, w.limit);
            reply.Page? && ShowsExactly(reply.rows, whole, Slice(Order(a, b), w.offset, w.limit), b, w.offset + w.limit)
  {
    hide Fetched, MergedFeed, Order, Answer, AllBest, Slice, Take, Listing, Agree, Static, ShowsExactly;
    PageRows(local, remote, a, b, synced, w);
    var order := Order(a, b);
    forall r | r in Slice(order, w.offset, w.limit) ensures r in order {
      var i :| 0 <= i < |Slice(order, w.offset, w.limit)| && Slice(order, w.offset, w.limit)[i] == r;
      InSlice(order, w.offset, w.limit, i);
    }
    OrderIsListing(a, b);
    BestRowsShow(Slice(order, w.offset, w.limit), a, b, w.offset + w.limit);
  }

  /**
   The transactions of `rows` at their times; the same row of each too, except where a richer one than in `rows`
   lies beyond the window of `n` rows.
   */
  ghost predicate ShowsExactly(shown: seq<Row>, whole: seq<Row>, rows: seq<Row>, b: seq<Row>, n: nat) {
    && SameTransactions(shown, rows) && SameTransactions(whole, rows)
    && forall i :: 0 <= i < |rows| ==> (shown[i] == whole[i] <==> !RicherBeyond(rows[i], b, n))
  }

  ghost predicate SameTransactions(x: seq<Row>, y: seq<Row>) {
    |x| == |y| && forall i :: 0 <= i < |x| ==> x[i].id == y[i].id && x[i].time == y[i].time
  }

  /** No transaction on this page has a richer row beyond the public window fetched for it. */
  ghost predicate HidesNothing(a: seq<Row>, b: seq<Row>, w: Window) {
    forall r :: r in Slice(Order(a, b), w.offset, w.limit) ==> !RicherBeyond(r, b, w.offset + w.limit)
  }

  /** The page is exactly the page of the complete merged history if and only if nothing richer lies beyond. */
  lemma PageIsWholeExactly(local: Backend, remote: Backend, a: seq<Row>, b: seq<Row>, synced: bool, w: Window)
    requires Static(local, a) && Static(remote, b)
    requires Listing(a) && Listing(b) && Agree(a, b)
    requires w.limit >= 1 && !(synced && w == Window(0, 1))
    ensures (Answer(Fetched(local, w.offset + w.limit), Fetched(remote, w.offset + w.limit), synced, w)
             == Page(Slice(MergedFeed([Listed(a), Listed(b)]), w.offset, w.limit))) <==> HidesNothing(a, b, w)
  {
    hide Fetched, MergedFeed, Order, Answer, Slice, Listing, Agree, Static, RicherBeyond;
    PageOfWholeHistory(local, remote, a, b, synced, w);
    var shown := Answer(Fetched(local, w.offset + w.limit), Fetched(remote, w.offset + w.limit), synced, w).rows;
    var whole := Slice(MergedFeed([Listed(a), Listed(b)]), w.offset, w.limit);
    SameRowsExactly(shown, whole, Slice(Order(a, b), w.offset, w.limit), b, w.offset + w.limit);
  }

  lemma SameRowsExactly(shown: seq<Row>, whole: seq<Row>, rows: seq<Row>, b: seq<Row>, n: nat)
    requires ShowsExactly(shown, whole, rows, b, n)
    ensures shown == whole <==> forall r :: r in rows ==> !RicherBeyond(r, b, n)
  {
    hide RicherBeyond;
    if forall r :: r in rows ==> !RicherBeyond(r, b, n) {
      forall i | 0 <= i < |rows| ensures shown[i] == whole[i] {
        assert rows[i] in rows;
      }
    }
    if shown == whole {
      forall r | r in rows ensures !RicherBeyond(r, b, n) {
        var i :| 0 <= i < |rows| && rows[i] == r;
        assert shown[i] == whole[i];
      }
    }
  }

  lemma BestRowsShow(rows: seq<Row>, a: seq<Row>, b: seq<Row>, n: nat)
    requires Listing(a) && Listing(b) && Agree(a, b)
    requires forall r :: r in rows ==> r in a || (r in b && !Mentions(a, r.id))
    ensures ShowsExactly(AllBest(rows, Take(b, n)), AllBest(rows, b), rows, b, n)
  {
    hide Best, Take, RicherBeyond, Named, NewestFirst, Agree, Mentions;
    forall i | 0 <= i < |rows|
      ensures Best(rows[i], Take(b, n)).id == Best(rows[i], b).id == rows[i].id
      ensures Best(rows[i], Take(b, n)).time == Best(rows[i], b).time == rows[i].time
      ensures Best(rows[i], Take(b, n)) == Best(rows[i], b) <==> !RicherBeyond(rows[i], b, n) {
      assert rows[i] in rows;
      WindowKeepsRow(rows[i], b, n);
      BestKeepsTime(rows[i], a, b, n);
    }
  }

  lemma BestKeepsTime(r: Row, a: seq<Row>, b: seq<Row>, n: nat)
    requires Listing(a) && Listing(b) && Agree(a, b) && (r in a || (r in b && !Mentions(a, r.id)))
    ensures Best(r, b).time == r.time && Best(r, b).id == r.id
    ensures Best(r, Take(b, n)).time == r.time && Best(r, Take(b, n)).id == r.id
  {
    hide Best;
    BestIsRichest(r, a, b);
    TakeIsListing(a, b, n);
    BestOf(r, Take(b, n));
    BestOf(r, b);
    if Mentions(Take(b, n), r.id) {
      var y :| y in Take(b, n) && y.id == r.id;
      assert y in b;
    }
  }

  lemma InSlice(s: seq<Row>, offset: nat, limit: nat, i: nat)
    requires i < |Slice(s, offset, limit)|
    ensures Slice(s, offset, limit)[i] in s
  {
  }

  lemma SliceOfBest(s: seq<Row>, b: seq<Row>, offset: nat, limit: nat)
    ensures Slice(AllBest(s, b), offset, limit) == AllBest(Slice(s, offset, limit), b)
  {
  }

  lemma SliceOfTake(s: seq<Row>, t: seq<Row>, offset: nat, limit: nat)
    requires Take(s, offset + limit) == Take(t, offset + limit)
    ensures Slice(s, offset, limit) == Slice(t, offset, limit)
  {
    SliceIsDropTake(s, offset, limit);
    SliceIsDropTake(t, offset, limit);
  }

  lemma SliceIsDropTake(s: seq<Row>, offset: nat, limit: nat)
    ensures Slice(s, offset, limit) == Drop(Take(s, offset + limit), offset)
  {
  }

  lemma EmptySlice(offset: nat, limit: nat)
    ensures Slice([], offset, limit) == []
  {
  }

  /** No two rows at the edge of the first `n` share their time. */
  predicate UntiedAt(b: seq<Row>, n: nat) {
    0 < n < |b| ==> b[n - 1].time > b[n].time
  }

  /** Nothing richer lies beyond a window without a tie at its edge. */
  lemma UntiedHidesNothing(a: seq<Row>, b: seq<Row>, w: Window)
    requires Listing(a) && Listing(b) && Agree(a, b) && UntiedAt(b, w.offset + w.limit)
    ensures HidesNothing(a, b, w)
  {
    hide Order, RicherBeyond, Listing, Agree, UntiedAt;
    var order, n := Order(a, b), w.offset + w.limit;
    var rows := Slice(order, w.offset, w.limit);
    forall r | r in rows ensures !RicherBeyond(r, b, n) {
      var i :| 0 <= i < |rows| && rows[i] == r;
      assert r == order[w.offset + i];
      RowHidesNothing(a, b, n, w.offset + i);
    }
  }

  lemma RowHidesNothing(a: seq<Row>, b: seq<Row>, n: nat, i: nat)
    requires Listing(a) && Listing(b) && Agree(a, b) && UntiedAt(b, n) && i < n && i < |Order(a, b)|
    ensures !RicherBeyond(Order(a, b)[i], b, n)
  {
    hide Order, Named, NewestFirst, Agree, UntiedAt;
    forall y | y in Drop(b, n) ensures y.id != Order(a, b)[i].id {
      var k := Position(Drop(b, n), y);
      NotThatOld(a, b, n, i, n + k);
    }
  }

  lemma Position(s: seq<Row>, y: Row) returns (k: nat)
    requires y in s
    ensures k < |s| && s[k] == y
  {
    k :| 0 <= k < |s| && s[k] == y;
  }

  lemma NotThatOld(a: seq<Row>, b: seq<Row>, n: nat, i: nat, k: nat)
    requires Listing(a) && Listing(b) && Agree(a, b) && n <= k < |b| && i < |Order(a, b)| && i < n
    requires UntiedAt(b, n)
    ensures Order(a, b)[i].id != b[k].id
  {
    hide Order, Named, NewestFirst, Agree, UntiedAt;
    if Order(a, b)[i].id == b[k].id {
      OlderThanWindow(a, b, n, i, k);
    }
  }

  /** A transaction listed after `n` newer ones is not among the first `n` of the merge. */
  lemma OlderThanWindow(a: seq<Row>, b: seq<Row>, n: nat, i: nat, k: nat)
    requires Listing(a) && Listing(b) && Agree(a, b) && n <= k < |b| && i < |Order(a, b)|
    requires UntiedAt(b, n) && Order(a, b)[i].id == b[k].id
    ensures i >= n
  {
    NewerBeforeEdge(b, n, k);
    hide Order, Named, NewestFirst, Agree, Ids, Mentions, UntiedAt;
    var order, head := Order(a, b), b[..n];
    OrderIsListing(a, b);
    assert order[i] in order && b[k] in b;
    SameTransaction(a, b, order[i], b[k]);
    forall id | id in Ids(head) ensures id in Ids(order[..i]) {
      var j := IdAt(head, id);
      var p := NewerIsBefore(a, b, i, b[j]);
      IdOf(order[..i], p);
    }
    DistinctIds(head, b);
    IdsAreMany(order[..i]);
    SubsetIsSmaller(Ids(head), Ids(order[..i]));
  }

  lemma NewerBeforeEdge(b: seq<Row>, n: nat, k: nat)
    requires NewestFirst(b) && UntiedAt(b, n) && n <= k < |b|
    ensures forall j :: 0 <= j < n ==> b[j].time > b[k].time
  {
  }

  lemma IdAt(rows: seq<Row>, id: string) returns (j: nat)
    requires id in Ids(rows)
    ensures j < |rows| && rows[j].id == id
  {
    var r :| r in rows && r.id == id;
    j :| 0 <= j < |rows| && rows[j] == r;
  }

  lemma IdOf(rows: seq<Row>, j: nat)
    requires j < |rows|
    ensures rows[j].id in Ids(rows)
  {
    assert rows[j] in rows;
  }

  lemma DistinctIds(head: seq<Row>, b: seq<Row>)
    requires Named(b) && head <= b
    ensures |Ids(head)| == |head|
  {
    hide Ids;
    IdsAreMany(head);
  }

  /** A listed row newer than the `i`th of the merge comes before it. */
  lemma NewerIsBefore(a: seq<Row>, b: seq<Row>, i: nat, y: Row) returns (p: nat)
    requires Listing(a) && Listing(b) && Agree(a, b) && i < |Order(a, b)|
    requires y in b && y.time > Order(a, b)[i].time
    ensures p < i && Order(a, b)[p].id == y.id
  {
    hide Order, Named, Agree;
    var order := Order(a, b);
    OrderIsListing(a, b);
    InOrder(order, a, b, y);
    p :| 0 <= p < |order| && order[p].id == y.id;
    assert order[p] in order;
    SameTransaction(a, b, order[p], y);
  }

  lemma SameTransaction(a: seq<Row>, b: seq<Row>, r: Row, y: Row)
    requires Named(b) && Agree(a, b) && y in b && r.id == y.id && (r in a || r in b)
    ensures r.time == y.time
  {
    if r in b {
      var i, j :| 0 <= i < |b| && 0 <= j < |b| && b[i] == r && b[j] == y;
    }
  }

  /** Where no tie crosses the edge of the public window, the page is exactly the page of the complete merge. */
  lemma PageIsExact(local: Backend, remote: Backend, a: seq<Row>, b: seq<Row>, synced: bool, w: Window)
    requires Static(local, a) && Static(remote, b)
    requires Listing(a) && Listing(b) && Agree(a, b)
    requires UntiedAt(b, w.offset + w.limit)
    requires w.limit >= 1 && !(synced && w == Window(0, 1))
    ensures Answer(Fetched(local, w.offset + w.limit), Fetched(remote, w.offset + w.limit), synced, w)
         == Page(Slice(MergedFeed([Listed(a), Listed(b)]), w.offset, w.limit))
  {
    hide Fetched, MergedFeed, Answer, Listing, Static, Agree, HidesNothing, UntiedAt, Slice;
    PageIsWholeExactly(local, remote, a, b, synced, w);
    UntiedHidesNothing(a, b, w);
  }

  lemma ListingIsNamed(b: seq<Row>)
    requires Listing(b)
    ensures Named(b)
  {
  }

  // ----- pages ------------------------------------------------------------------------------------------------------

  /** The rows of the first `count` pages of this size, asked for one after the other. */
  function Walked(local: Backend, remote: Backend, synced: bool, size: nat, count: nat): seq<Row> {
    if count == 0 then []
    else
      var reply := Served(local, remote, synced, Window((count - 1) * size, size));
      Walked(local, remote, synced, size, count - 1) + if reply.Page? then reply.rows else []
  }

  /** How many of `count` pages the gateway serves; it refuses windows that end beyond a thousand rows. */
  function Reach(size: nat, count: nat): nat
    requires size >= 1
  {
    Min(count, MAX_HISTORY_FETCH / size)
  }

  /**
   Walking the pages from the start shows every transaction of the merged history up to there, once and in order:
   no gap, no repeat. The rows too are those of the history, exactly if no page hides a richer one.
   */
  lemma {:induction false} PagesCoverHistory(local: Backend, remote: Backend, a: seq<Row>, b: seq<Row>, synced: bool,
                                             size: nat, count: nat)
    requires Static(local, a) && Static(remote, b)
    requires Listing(a) && Listing(b) && Agree(a, b)
    requires size >= 1 && !(synced && size == 1)
    ensures var walked := Walked(local, remote, synced, size, count);
            var whole := Take(MergedFeed([Listed(a), Listed(b)]), Reach(size, count) * size);
            && SameTransactions(walked, whole)
            && (walked == whole <==> HidesNothingUpTo(a, b, size, Reach(size, count)))
    decreases count
  {
    hide Served, MergedFeed, Take, Slice, Listing, Agree, Static, HidesNothing;
    var feed := MergedFeed([Listed(a), Listed(b)]);
    if count == 0 {
      TakeNone(feed);
    } else {
      PagesCoverHistory(local, remote, a, b, synced, size, count - 1);
      ReachStep(size, count);
      if count * size <= MAX_HISTORY_FETCH {
        var w := Window((count - 1) * size, size);
        ServedPage(local, remote, a, b, synced, w);
        TakeMore(feed, w.offset, size);
        JoinPages(Walked(local, remote, synced, size, count - 1), Take(feed, w.offset),
                  Served(local, remote, synced, w).rows, Slice(feed, w.offset, size));
        assert Reach(size, count - 1) == count - 1;
      } else {
        assert Served(local, remote, synced, Window((count - 1) * size, size)) == WindowTooLarge by {
          RefusedPage(local, remote, synced, Window((count - 1) * size, size));
        }
      }
    }
  }

  ghost predicate HidesNothingUpTo(a: seq<Row>, b: seq<Row>, size: nat, count: nat) {
    forall k :: 0 <= k < count ==> HidesNothing(a, b, Window(k * size, size))
  }

  lemma JoinPages(x: seq<Row>, y: seq<Row>, p: seq<Row>, q: seq<Row>)
    requires SameTransactions(x, y) && SameTransactions(p, q)
    ensures SameTransactions(x + p, y + q)
    ensures x + p == y + q <==> x == y && p == q
  {
    assert (x + p)[..|x|] == x && (x + p)[|x|..] == p && (y + q)[..|y|] == y && (y + q)[|y|..] == q;
  }

  lemma RefusedPage(local: Backend, remote: Backend, synced: bool, w: Window)
    requires w.offset + w.limit > MAX_HISTORY_FETCH
    ensures Served(local, remote, synced, w) == WindowTooLarge
  {
  }

  lemma TakeNone(s: seq<Row>)
    ensures Take(s, 0) == []
  {
  }

  lemma ReachStep(size: nat, count: nat)
    requires size >= 1 && count >= 1
    ensures (count - 1) * size + size == count * size
    ensures count * size <= MAX_HISTORY_FETCH <==> count <= MAX_HISTORY_FETCH / size
    ensures Reach(size, count) == if count * size <= MAX_HISTORY_FETCH then count else Reach(size, count - 1)
  {
    var most := MAX_HISTORY_FETCH / size;
    assert most * size <= MAX_HISTORY_FETCH < (most + 1) * size;
    if count <= most {
      Times(count, most, size);
    } else {
      Times(most + 1, count, size);
    }
  }

  lemma Times(x: nat, y: nat, size: nat)
    requires x <= y
    ensures x * size <= y * size
  {
  }

  lemma TakeMore(s: seq<Row>, m: nat, size: nat)
    ensures Take(s, m) + Slice(s, m, size) == Take(s, m + size)
  {
  }

  /** One page of the walk. */
  lemma ServedPage(local: Backend, remote: Backend, a: seq<Row>, b: seq<Row>, synced: bool, w: Window)
    requires Static(local, a) && Static(remote, b)
    requires Listing(a) && Listing(b) && Agree(a, b)
    requires w.limit >= 1 && !(synced && w == Window(0, 1)) && w.offset + w.limit <= MAX_HISTORY_FETCH
    ensures var reply := Served(local, remote, synced, w);
            var whole := Slice(MergedFeed([Listed(a), Listed(b)]), w.offset, w.limit);
            && reply.Page? && SameTransactions(reply.rows, whole)
            && (reply.rows == whole <==> HidesNothing(a, b, w))
  {
    hide Fetched, MergedFeed, Order, Answer, Slice, Listing, Agree, Static, HidesNothing, RicherBeyond;
    PageOfWholeHistory(local, remote, a, b, synced, w);
    PageIsWholeExactly(local, remote, a, b, synced, w);
  }

  // ----- the shortcut ---------------------------------------------------------------------------------------------

  /** The public listing has nothing newer than the newest own row, and no richer row of that transaction. */
  ghost predicate NotBehind(a: seq<Row>, b: seq<Row>) {
    && (a == [] ==> b == [])
    && (a != [] ==> forall y :: y in b ==> y.time <= a[0].time && (y.id == a[0].id ==> y.fields <= a[0].fields))
  }

  lemma NewestOfOrder(a: seq<Row>, b: seq<Row>)
    requires Listing(a) && Listing(b) && Agree(a, b)
    ensures a == [] ==> Order(a, b) == b
    ensures a != [] && (forall y :: y in b ==> y.time <= a[0].time) ==> Order(a, b) != [] && Order(a, b)[0] == a[0]
    ensures a != [] && (exists y :: y in b && y.time > a[0].time) ==>
              Order(a, b) != [] && Order(a, b)[0].time > a[0].time
  {
    hide Fresh, Listing, Agree, Has;
    AllFresh(b);
    FreshIsPart(a, b);
    if a != [] {
      if exists y :: y in b && y.time > a[0].time {
        var y :| y in b && y.time > a[0].time;
        NewerIsFresh(a, b, y);
      } else if Fresh(a, b) != [] {
        FreshHead(a, b);
      }
    }
  }

  /** A row newer than all of `a` is new, and so is the first row of what is new. */
  lemma NewerIsFresh(a: seq<Row>, b: seq<Row>, y: Row)
    requires Listing(a) && Listing(b) && Agree(a, b) && a != [] && y in b && y.time > a[0].time
    ensures Fresh(a, b) != [] && Fresh(a, b)[0].time > a[0].time
  {
    hide Fresh, Has;
    FreshIsPart(a, b);
    HasIsMembership(a, y.id);
    forall x | x in a ensures x.id != y.id {
      assert x.time <= a[0].time;
    }
    assert y in Fresh(a, b);
  }

  /**
   For a window of one row and an own indexer in sync, the gateway asks nobody else. It answers what the complete
   merge would exactly when the public listing is not ahead.
   */
  lemma ShortcutExactly(local: Backend, remote: Backend, a: seq<Row>, b: seq<Row>)
    requires Static(local, a) && Static(remote, b)
    requires Listing(a) && Listing(b) && Agree(a, b)
    ensures (Answer(Fetched(local, 1), Fetched(remote, 1), true, Window(0, 1))
             == Page(Slice(MergedFeed([Listed(a), Listed(b)]), 0, 1))) <==> NotBehind(a, b)
  {
    hide Fetched, MergedFeed, Order, Best, Listing, Agree, Static;
    PagedFetchIsWhole(local, a, 1);
    FeedIsOrdered(a, b);
    ListingIsNamed(b);
    NewestOfOrder(a, b);
    SliceOfBest(Order(a, b), b, 0, 1);
    var first := Slice(Order(a, b), 0, 1);
    assert Take(Take(a, 1), 1) == Take(a, 1);
    if a == [] {
      assert |AllBest(first, b)| == |first|;
    } else {
      assert Take(a, 1) == [a[0]] && first == [Order(a, b)[0]] && AllBest(first, b) == [Best(first[0], b)];
      OrderTimes(a, b);
      BestOf(a[0], b);
    }
  }

  lemma OrderTimes(a: seq<Row>, b: seq<Row>)
    requires Listing(a) && Listing(b) && Agree(a, b) && Order(a, b) != []
    ensures Best(Order(a, b)[0], b).time == Order(a, b)[0].time
  {
    hide Order, Best;
    OrderIsListing(a, b);
    assert Order(a, b)[0] in Order(a, b);
    BestIsRichest(Order(a, b)[0], a, b);
  }

  /** A backend that serves one fixed history. */
  function Serving(history: seq<Row>): Backend {
    (offset: nat, size: nat) => Listed(Slice(history, offset, size))
  }

  /** The shortcut misses a transaction only the public backend has. */
  lemma ShortcutMisses()
    ensures var older, newer := Row("old", 1, 1, ""), Row("new", 2, 1, "");
            var local, remote := Serving([older]), Serving([newer, older]);
            && Answer(Fetched(local, 1), Fetched(remote, 1), true, Window(0, 1)) == Page([older])
            && Slice(MergedFeed([Listed([older]), Listed([newer, older])]), 0, 1) == [newer]
  {
    hide MergedFeed, Order, Best;
    var older, newer := Row("old", 1, 1, ""), Row("new", 2, 1, "");
    var a, b := [older], [newer, older];
    assert Listing(a) && Listing(b) && Agree(a, b);
    FeedIsOrdered(a, b);
    SliceOfBest(Order(a, b), b, 0, 1);
    assert newer in b;
    OrderIsNew(a, b, newer, older);
  }

  lemma OrderIsNew(a: seq<Row>, b: seq<Row>, x: Row, y: Row)
    requires a == [y] && b == [x, y] && x.id != y.id && x.time > y.time
    ensures Order(a, b) == [x, y] && Best(x, b) == x
  {
    FreshOfTwo(a, x, y);
    assert [x][1..] == [] && Interleave(a, []) == a;
    assert Interleave(a, [x]) == [x] + a;
  }

  lemma FreshOfTwo(a: seq<Row>, x: Row, y: Row)
    requires |a| == 1 && a[0].id == y.id != x.id
    ensures Fresh(a, [x, y]) == [x]
  {
    var b := [x, y];
    assert Fresh(a, []) == [] && [y][1..] == [] && b[1..] == [y];
    assert Has(a, y.id) && a[1..] == [] && !Has([], x.id) && !Has(a, x.id);
    assert Fresh(a, [y]) == [] + Fresh(a, []);
    assert Fresh(a, b) == [x] + Fresh(a, [y]);
  }

  /**
   With equal times a richer row can lie beyond the window: the page shows a transaction of both backends with the
   own, poorer row.
   */
  lemma TiedRowsCanDiffer()
    ensures var own, rich, other := Row("tx", 1, 1, ""), Row("tx", 1, 2, ""), Row("other", 1, 1, "");
            var local, remote := Serving([own]), Serving([other, rich]);
            && Answer(Fetched(local, 1), Fetched(remote, 1), false, Window(0, 1)) == Page([own])
            && Slice(MergedFeed([Listed([own]), Listed([other, rich])]), 0, 1) == [rich]
  {
    hide MergedFeed, Order, Best, Answer, Fetched;
    var own, rich, other := Row("tx", 1, 1, ""), Row("tx", 1, 2, ""), Row("other", 1, 1, "");
    var a, b := [own], [other, rich];
    assert Listing(a) && Listing(b) && Agree(a, b);
    PageRows(Serving(a), Serving(b), a, b, false, Window(0, 1));
    TiedOrder(a, b, own, rich, other);
  }

  lemma TiedOrder(a: seq<Row>, b: seq<Row>, own: Row, rich: Row, other: Row)
    requires a == [own] && b == [other, rich] && own.id == rich.id != other.id && own.time == rich.time == other.time
    requires rich.fields > own.fields
    ensures Slice(Order(a, b), 0, 1) == [own] && Best(own, Take(b, 1)) == own && Best(own, b) == rich
    ensures AllBest([own], Take(b, 1)) == [own] && AllBest([own], b) == [rich]
  {
    FreshOfTwo(a, other, rich);
    assert b[1..] == [rich] && Take(b, 1) == [other];
    BestOfOne(own, other);
    BestOfOne(own, rich);
  }
}
