/** What the gateway's dictionary and stable sort make of two listings is their merge. */
module HistoryMerge {
  import opened Wrappers
  import opened History
  import S = Sorting

  ghost predicate NewestFirst(rows: seq<Row>) {
    forall i, j :: 0 <= i < j < |rows| ==> rows[i].time >= rows[j].time
  }

  /** No transaction occurs twice, and each has an id. */
  ghost predicate Named(rows: seq<Row>) {
    && (forall r :: r in rows ==> r.id != "")
    && (forall i, j :: 0 <= i < j < |rows| ==> rows[i].id != rows[j].id)
  }

  /** A backend lists each transaction once, newest first; transactions of one block share their time. */
  ghost predicate Listing(rows: seq<Row>) {
    NewestFirst(rows) && Named(rows)
  }

  /** The backends agree on when a transaction happened. */
  ghost predicate Agree(a: seq<Row>, b: seq<Row>) {
    forall x, y :: x in a && y in b && x.id == y.id ==> x.time == y.time
  }

  function Richer(a: Row, b: Row): Row {
    if b.fields > a.fields then b else a
  }

  lemma ListingTail(rows: seq<Row>)
    requires Listing(rows) && rows != []
    ensures Listing(rows[1..])
    ensures forall x :: x in rows[1..] ==> x.id != rows[0].id && x.time <= rows[0].time
    ensures forall x :: x in rows <==> x == rows[0] || x in rows[1..]
  {
    assert rows == [rows[0]] + rows[1..];
  }

  // ----- what the dictionary makes of two listings --------------------------------------------------------------

  function Entries(rows: seq<Row>): seq<Entry> {
    seq(|rows|, i requires 0 <= i < |rows| => Entry(Id(rows[i].id), rows[i]))
  }

  /** `rows` with the row of `p`'s transaction replaced if `p` is richer. */
  function Enrich(rows: seq<Row>, p: Row): seq<Row> {
    if rows == [] then []
    else if rows[0].id == p.id then [Richer(rows[0], p)] + rows[1..]
    else [rows[0]] + Enrich(rows[1..], p)
  }

  predicate Has(rows: seq<Row>, id: string) {
    rows != [] && (rows[0].id == id || Has(rows[1..], id))
  }

  /** What becomes of the rows already there, and which rows are new, when `b` is merged into `a`. */
  function EnrichAll(a: seq<Row>, b: seq<Row>): seq<Row>
    decreases |b|
  {
    if b == [] then a else EnrichAll(Enrich(a, b[0]), b[1..])
  }

  function Fresh(a: seq<Row>, b: seq<Row>): seq<Row> {
    if b == [] then []
    else (if Has(a, b[0].id) then [] else [b[0]]) + Fresh(a, b[1..])
  }

  lemma {:induction false} PutIntoEntries(a: seq<Row>, p: Row)
    requires p.id != ""
    ensures Put(Entries(a), Id(p.id), p) == Entries(if Has(a, p.id) then Enrich(a, p) else a + [p])
  {
    if a == [] {
      assert Entries([p]) == [Entry(Id(p.id), p)];
    } else {
      assert Entries(a)[1..] == Entries(a[1..]);
      assert a == [a[0]] + a[1..];
      if a[0].id != p.id {
        PutIntoEntries(a[1..], p);
        assert [a[0]] + (a[1..] + [p]) == a + [p];
        assert forall s :: Entries([a[0]] + s) == [Entries(a)[0]] + Entries(s);
      } else {
        assert Entries([p] + a[1..]) == [Entry(Id(p.id), p)] + Entries(a[1..]);
      }
    }
  }

  lemma {:induction false} HasIsMembership(rows: seq<Row>, id: string)
    ensures Has(rows, id) <==> Mentions(rows, id)
  {
    if rows != [] {
      HasIsMembership(rows[1..], id);
      assert rows == [rows[0]] + rows[1..];
      if Mentions(rows, id) {
        var r :| r in rows && r.id == id;
      }
      if Has(rows, id) && rows[0].id == id {
        assert rows[0] in rows;
      }
    }
  }

  lemma {:induction false} EnrichConcat(a: seq<Row>, f: seq<Row>, p: Row)
    requires Has(a, p.id)
    ensures Enrich(a + f, p) == Enrich(a, p) + f
    ensures Has(a + f, p.id)
  {
    assert (a + f)[1..] == a[1..] + f;
    if a[0].id != p.id {
      EnrichConcat(a[1..], f, p);
    }
  }

  lemma {:induction false} EnrichKeepsIds(a: seq<Row>, p: Row, id: string)
    ensures Has(Enrich(a, p), id) <==> Has(a, id)
  {
    if a != [] && a[0].id != p.id {
      EnrichKeepsIds(a[1..], p, id);
    }
  }

  lemma {:induction false} FreshAfterEnrich(a: seq<Row>, p: Row, b: seq<Row>)
    ensures Fresh(Enrich(a, p), b) == Fresh(a, b)
  {
    if b != [] {
      EnrichKeepsIds(a, p, b[0].id);
      FreshAfterEnrich(a, p, b[1..]);
    }
  }

  lemma {:induction false} HasConcat(a: seq<Row>, f: seq<Row>, id: string)
    ensures Has(a + f, id) <==> Has(a, id) || Has(f, id)
  {
    if a == [] {
      assert a + f == f;
    } else {
      assert (a + f)[1..] == a[1..] + f;
      HasConcat(a[1..], f, id);
    }
  }

  /** Merging listing `b` row by row into the rows `a` and the new rows `f` collected so far. */
  lemma {:induction false} PutListing(a: seq<Row>, f: seq<Row>, b: seq<Row>, anonymous: nat)
    requires Listing(b) && forall x :: x in b ==> !Has(f, x.id)
    ensures PutRows(Dictionary(Entries(a + f), anonymous), b)
         == Dictionary(Entries(EnrichAll(a, b) + (f + Fresh(a, b))), anonymous)
    decreases |b|
  {
    hide Entries, Put, Enrich, Has;
    if b == [] {
      assert f + [] == f;
    } else {
      var p, rest := b[0], b[1..];
      ListingTail(b);
      PutOne(a, f, p, anonymous);
      if Has(a, p.id) {
        PutListing(Enrich(a, p), f, rest, anonymous);
        FreshAfterEnrich(a, p, rest);
        assert [] + Fresh(a, rest) == Fresh(a, rest);
      } else {
        NothingToEnrich(a, p);
        forall x | x in rest ensures !Has(f + [p], x.id) {
          StillMissing(f, p, x.id);
        }
        PutListing(a, f + [p], rest, anonymous);
        assert (f + [p]) + Fresh(a, rest) == f + ([p] + Fresh(a, rest));
      }
    }
  }

  lemma StillMissing(f: seq<Row>, p: Row, id: string)
    requires !Has(f, id) && p.id != id
    ensures !Has(f + [p], id)
  {
    HasConcat(f, [p], id);
  }

  lemma PutOne(a: seq<Row>, f: seq<Row>, p: Row, anonymous: nat)
    requires p.id != "" && !Has(f, p.id)
    ensures PutRow(Dictionary(Entries(a + f), anonymous), p)
         == Dictionary(Entries(if Has(a, p.id) then Enrich(a, p) + f else a + (f + [p])), anonymous)
  {
    hide Entries, Put;
    PutIntoEntries(a + f, p);
    HasConcat(a, f, p.id);
    if Has(a, p.id) {
      EnrichConcat(a, f, p);
    } else {
      assert (a + f) + [p] == a + (f + [p]);
    }
  }

  lemma {:induction false} NothingToEnrich(a: seq<Row>, p: Row)
    requires !Has(a, p.id)
    ensures Enrich(a, p) == a
  {
    if a != [] {
      NothingToEnrich(a[1..], p);
    }
  }

  lemma {:induction false} AllFresh(b: seq<Row>)
    ensures EnrichAll([], b) == [] && Fresh([], b) == b
  {
    if b != [] {
      AllFresh(b[1..]);
    }
  }

  lemma RowsOfEntries(rows: seq<Row>)
    ensures Rows(Entries(rows)) == rows
  {
  }

  lemma CollectedListings(a: seq<Row>, b: seq<Row>)
    requires Listing(a) && Listing(b)
    ensures Rows(Collected(Dictionary([], 0), [Listed(a), Listed(b)]).entries) == EnrichAll(a, b) + Fresh(a, b)
  {
    hide PutRows;
    AllFresh(a);
    PutListing([], [], a, 0);
    assert Entries([] + []) == [] && [] + ([] + a) == a && a + [] == a;
    PutListing(a, [], b, 0);
    assert [] + Fresh(a, b) == Fresh(a, b);
    var first := Dictionary(Entries(a), 0);
    assert PutRows(Dictionary([], 0), a) == first;
    assert [Listed(a), Listed(b)][1..] == [Listed(b)] && [Listed(b)][1..] == [];
    assert Collected(Dictionary([], 0), [Listed(a), Listed(b)]) == Collected(first, [Listed(b)]);
    assert Collected(first, [Listed(b)]) == PutRows(first, b);
    RowsOfEntries(EnrichAll(a, b) + Fresh(a, b));
  }

  // ----- what the stable sort makes of it -----------------------------------------------------------------------

  /** Stable merge of two lists, newest first, `a` before `b` on a tie. */
  function Interleave(a: seq<Row>, b: seq<Row>): seq<Row>
    decreases |a| + |b|
  {
    if a == [] then b
    else if b == [] then a
    else if a[0].time >= b[0].time then [a[0]] + Interleave(a[1..], b)
    else [b[0]] + Interleave(a, b[1..])
  }

  lemma {:induction false} SortLeavesSorted(rows: seq<Row>)
    requires NewestFirst(rows)
    ensures SortByTime(rows) == rows
  {
    if rows != [] {
      SortLeavesSorted(rows[1..]);
    }
  }

  lemma {:induction false} InsertNewest(x: Row, a: seq<Row>, b: seq<Row>)
    requires forall i :: 0 <= i < |a| ==> x.time >= a[i].time
    ensures S.Insert(x, Interleave(a, b), NotOlder) == Interleave([x] + a, b)
    decreases |b|
  {
    assert ([x] + a)[1..] == a;
    if b == [] {
      assert Interleave(a, b) == a;
    } else if x.time < b[0].time {
      assert Interleave(a, b) == [b[0]] + Interleave(a, b[1..]);
      InsertNewest(x, a, b[1..]);
    }
  }

  lemma {:induction false} SortInterleaves(a: seq<Row>, b: seq<Row>)
    requires NewestFirst(a) && NewestFirst(b)
    ensures SortByTime(a + b) == Interleave(a, b)
  {
    if a == [] {
      assert a + b == b;
      SortLeavesSorted(b);
    } else {
      assert (a + b)[1..] == a[1..] + b;
      SortInterleaves(a[1..], b);
      InsertNewest(a[0], a[1..], b);
      assert [a[0]] + a[1..] == a;
    }
  }

  /** The row of `r`'s transaction once `b` is merged in: `b`'s own if that is richer. */
  function Best(r: Row, b: seq<Row>): Row {
    if b == [] then r
    else if b[0].id == r.id then Richer(r, b[0])
    else Best(r, b[1..])
  }

  function AllBest(rows: seq<Row>, b: seq<Row>): (m: seq<Row>)
    ensures |m| == |rows| && forall i :: 0 <= i < |rows| ==> m[i] == Best(rows[i], b)
  {
    seq(|rows|, i requires 0 <= i < |rows| => Best(rows[i], b))
  }

  /** The transactions in the order the merge shows them, with the row the first listing has of each. */
  function Order(a: seq<Row>, b: seq<Row>): seq<Row> {
    Interleave(a, Fresh(a, b))
  }

  lemma {:induction false} BestOf(r: Row, b: seq<Row>)
    requires Named(b)
    ensures Best(r, b).id == r.id
    ensures forall y :: y in b && y.id == r.id ==> Best(r, b) == Richer(r, y)
    ensures !Mentions(b, r.id) ==> Best(r, b) == r
    ensures Best(r, b) == r || Best(r, b) in b
  {
    if b != [] {
      assert b == [b[0]] + b[1..] && b[0] in b;
      NamedTail(b);
      if b[0].id != r.id {
        BestOf(r, b[1..]);
        if Mentions(b[1..], r.id) {
          var y :| y in b[1..] && y.id == r.id;
          assert y in b;
        }
      }
    }
  }

  lemma NamedTail(b: seq<Row>)
    requires Named(b) && b != []
    ensures Named(b[1..]) && forall y :: y in b[1..] ==> y in b && y.id != b[0].id
  {
  }

  ghost predicate Mentions(rows: seq<Row>, id: string) {
    exists r :: r in rows && r.id == id
  }

  lemma AllBestCons(x: Row, s: seq<Row>, b: seq<Row>)
    ensures AllBest([x] + s, b) == [Best(x, b)] + AllBest(s, b)
  {
    hide Best;
  }

  lemma BestOfOne(r: Row, p: Row)
    ensures Best(r, [p]) == (if p.id == r.id then Richer(r, p) else r) && Best(r, []) == r
  {
    assert [p][1..] == [];
  }

  /** Enriching a list with one row, and then with the rest. */
  lemma {:induction false} EnrichIsBest(a: seq<Row>, p: Row)
    requires Named(a)
    ensures Enrich(a, p) == AllBest(a, [p])
  {
    if a != [] {
      hide Best, Named;
      NamedTail(a);
      var x, rest := a[0], a[1..];
      assert a == [x] + rest;
      AllBestCons(x, rest, [p]);
      BestOfOne(x, p);
      if x.id == p.id {
        forall i | 0 <= i < |rest| ensures Best(rest[i], [p]) == rest[i] {
          assert rest[i] in rest;
          BestOfOne(rest[i], p);
        }
        assert AllBest(rest, [p]) == rest;
      } else {
        EnrichIsBest(rest, p);
      }
    }
  }

  lemma {:induction false} EnrichAllIsBest(a: seq<Row>, b: seq<Row>)
    requires Named(a) && Named(b)
    ensures EnrichAll(a, b) == AllBest(a, b)
    decreases |b|
  {
    if b == [] {
      assert AllBest(a, b) == a;
    } else {
      hide AllBest, Best, Named;
      NamedTail(b);
      EnrichIsBest(a, b[0]);
      var next := Enrich(a, b[0]);
      forall i | 0 <= i < |a| ensures next[i].id == a[i].id && Best(next[i], b[1..]) == Best(a[i], b) {
        BestTwice(a[i], b);
      }
      NamedAlike(a, next);
      EnrichAllIsBest(next, b[1..]);
      assert AllBest(next, b[1..]) == AllBest(a, b);
    }
  }

  lemma NamedAlike(a: seq<Row>, b: seq<Row>)
    requires Named(a) && |a| == |b| && forall i :: 0 <= i < |a| ==> b[i].id == a[i].id
    ensures Named(b)
  {
    forall r | r in b ensures r.id != "" {
      var i :| 0 <= i < |b| && b[i] == r;
      assert a[i] in a;
    }
  }

  lemma BestTwice(r: Row, b: seq<Row>)
    requires Named(b) && b != []
    ensures Best(r, [b[0]]).id == r.id && Best(Best(r, [b[0]]), b[1..]) == Best(r, b)
  {
    NamedTail(b);
    BestOfOne(r, b[0]);
    if b[0].id == r.id {
      assert !Mentions(b[1..], r.id);
      BestOf(Richer(r, b[0]), b[1..]);
    }
  }

  /** Interleaving looks at times only, so it commutes with what does not change them. */
  lemma {:induction false} InterleaveBest(a: seq<Row>, f: seq<Row>, b: seq<Row>)
    requires forall r :: r in a || r in f ==> Best(r, b).time == r.time
    ensures AllBest(Interleave(a, f), b) == Interleave(AllBest(a, b), AllBest(f, b))
    decreases |a| + |f|
  {
    hide Best, AllBest;
    if a != [] && f != [] {
      var x, y, a', f' := a[0], f[0], a[1..], f[1..];
      assert x in a && y in f && a == [x] + a' && f == [y] + f';
      AllBestCons(x, a', b);
      AllBestCons(y, f', b);
      assert AllBest(a, b)[1..] == AllBest(a', b) && AllBest(f, b)[1..] == AllBest(f', b);
      if x.time >= y.time {
        InterleaveBest(a', f, b);
        AllBestCons(x, Interleave(a', f), b);
      } else {
        InterleaveBest(a, f', b);
        AllBestCons(y, Interleave(a, f'), b);
      }
    }
  }

  lemma {:induction false} FreshIsPart(a: seq<Row>, b: seq<Row>)
    ensures forall x :: x in Fresh(a, b) <==> x in b && !Has(a, x.id)
    ensures Listing(b) ==> Listing(Fresh(a, b))
  {
    if b != [] {
      FreshIsPart(a, b[1..]);
      assert b == [b[0]] + b[1..];
      if Listing(b) {
        ListingTail(b);
        var rest := Fresh(a, b[1..]);
        forall k | 0 <= k < |rest| ensures rest[k].time <= b[0].time && rest[k].id != b[0].id && rest[k].id != "" {
          assert rest[k] in rest;
        }
      }
    }
  }

  /** The feed of two listings: every transaction in order, each with its richest row. */
  lemma FeedIsOrdered(a: seq<Row>, b: seq<Row>)
    requires Listing(a) && Listing(b) && Agree(a, b)
    ensures MergedFeed([Listed(a), Listed(b)]) == AllBest(Order(a, b), b)
  {
    hide Collected, Interleave, EnrichAll, Fresh, AllBest, Best;
    CollectedListings(a, b);
    EnrichAllIsBest(a, b);
    FreshIsPart(a, b);
    var f := Fresh(a, b);
    SameTimes(a, b);
    SameRows(f, b);
    forall r | r in a || r in f ensures Best(r, b).time == r.time {
      if r in a {
        var i :| 0 <= i < |a| && a[i] == r;
      } else {
        var i :| 0 <= i < |f| && f[i] == r;
      }
    }
    InterleaveBest(a, f, b);
    SortInterleaves(AllBest(a, b), f);
  }

  lemma SameTimes(a: seq<Row>, b: seq<Row>)
    requires Agree(a, b) && Named(b)
    ensures forall i :: 0 <= i < |a| ==> Best(a[i], b).time == a[i].time
    ensures NewestFirst(a) ==> NewestFirst(AllBest(a, b))
  {
    forall i | 0 <= i < |a| ensures Best(a[i], b).time == a[i].time {
      BestOf(a[i], b);
      assert a[i] in a;
      if Mentions(b, a[i].id) {
        var y :| y in b && y.id == a[i].id;
      }
    }
  }

  lemma SameRows(f: seq<Row>, b: seq<Row>)
    requires Named(b) && forall r :: r in f ==> r in b
    ensures AllBest(f, b) == f
  {
    forall i | 0 <= i < |f| ensures Best(f[i], b) == f[i] {
      assert f[i] in f;
      BestOf(f[i], b);
    }
  }

  // ----- the feed is what a merged history should be ------------------------------------------------------------

  /** Every row comes from a backend and is the richest one known for its transaction. */
  ghost predicate Richest(r: Row, a: seq<Row>, b: seq<Row>) {
    && (r in a || r in b)
    && (forall x :: (x in a || x in b) && x.id == r.id ==> x.fields <= r.fields)
  }

  /** The merge of two listings: richest rows, all transactions, newest first, none twice. */
  ghost predicate IsMerge(m: seq<Row>, a: seq<Row>, b: seq<Row>) {
    && (forall r :: r in m ==> Richest(r, a, b))
    && (forall x :: x in a || x in b ==> Mentions(m, x.id))
    && (forall i, j :: 0 <= i < j < |m| ==> m[i].time >= m[j].time && m[i].id != m[j].id)
  }

  lemma {:induction false} InterleaveParts(a: seq<Row>, f: seq<Row>)
    requires NewestFirst(a) && NewestFirst(f) && Named(a) && Named(f)
    requires forall x, y :: x in a && y in f ==> x.id != y.id
    ensures forall r :: r in Interleave(a, f) <==> r in a || r in f
    ensures Listing(Interleave(a, f))
    decreases |a| + |f|
  {
    if a != [] && f != [] {
      ListingTail(a);
      ListingTail(f);
      assert a[0] in a && f[0] in f;
      if a[0].time >= f[0].time {
        InterleaveParts(a[1..], f);
        ListingCons(a[0], Interleave(a[1..], f));
      } else {
        InterleaveParts(a, f[1..]);
        ListingCons(f[0], Interleave(a, f[1..]));
      }
    }
  }

  lemma ListingCons(x: Row, s: seq<Row>)
    requires Listing(s) && x.id != "" && forall y :: y in s ==> y.time <= x.time && y.id != x.id
    ensures Listing([x] + s) && forall r :: r in [x] + s <==> r == x || r in s
  {
  }

  lemma OrderIsListing(a: seq<Row>, b: seq<Row>)
    requires Listing(a) && Listing(b)
    ensures Listing(Order(a, b))
    ensures forall r :: r in Order(a, b) <==> r in a || (r in b && !Mentions(a, r.id))
  {
    hide Interleave, Fresh, Has;
    FreshIsPart(a, b);
    forall r | r in b ensures Has(a, r.id) <==> Mentions(a, r.id) {
      HasIsMembership(a, r.id);
    }
    InterleaveParts(a, Fresh(a, b));
  }

  /** The feed of two agreeing listings is their merge. */
  lemma FeedIsTheMerge(a: seq<Row>, b: seq<Row>)
    requires Listing(a) && Listing(b) && Agree(a, b)
    ensures IsMerge(MergedFeed([Listed(a), Listed(b)]), a, b)
  {
    hide Order, AllBest, Best, MergedFeed;
    FeedIsOrdered(a, b);
    OrderIsListing(a, b);
    var order, m := Order(a, b), MergedFeed([Listed(a), Listed(b)]);
    forall i | 0 <= i < |m| ensures Richest(m[i], a, b) && m[i].id == order[i].id && m[i].time == order[i].time {
      assert order[i] in order;
      BestIsRichest(order[i], a, b);
    }
    forall x | x in a || x in b ensures Mentions(m, x.id) {
      InOrder(order, a, b, x);
      var i :| 0 <= i < |order| && order[i].id == x.id;
      assert m[i] in m && m[i].id == x.id;
    }
  }

  lemma InOrder(order: seq<Row>, a: seq<Row>, b: seq<Row>, x: Row)
    requires forall r :: r in order <==> r in a || (r in b && !Mentions(a, r.id))
    requires x in a || x in b
    ensures exists i :: 0 <= i < |order| && order[i].id == x.id
  {
    if x in a || !Mentions(a, x.id) {
      assert x in order;
    } else {
      var y :| y in a && y.id == x.id;
      assert y in order;
    }
  }

  lemma BestIsRichest(r: Row, a: seq<Row>, b: seq<Row>)
    requires Named(a) && Named(b) && Agree(a, b)
    requires r in a || (r in b && !Mentions(a, r.id))
    ensures Richest(Best(r, b), a, b) && Best(r, b).id == r.id && Best(r, b).time == r.time
  {
    BestOf(r, b);
    forall x | (x in a || x in b) && x.id == r.id ensures x.fields <= Best(r, b).fields {
      if x in a && r in a {
        var i, j :| 0 <= i < |a| && 0 <= j < |a| && a[i] == x && a[j] == r;
        assert i == j;
      }
    }
    if Mentions(b, r.id) {
      var y :| y in b && y.id == r.id;
      if r in b {
        assert Best(r, b) == Richer(r, r);
      }
    }
  }
}
