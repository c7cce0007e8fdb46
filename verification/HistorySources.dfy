/** What the gateway answers when a source fails, and what it keeps of any rows, in whatever order they come. */
module HistorySources {
  import opened Wrappers
  import opened History
  import opened HistoryMerge
  import opened HistoryWindows
  import S = Sorting

  // ----- one source ------------------------------------------------------------------------------------------

  lemma OneListing(a: seq<Row>, other: Response)
    requires Listing(a) && !other.Listed?
    ensures MergedFeed([Listed(a), other]) == a && MergedFeed([other, Listed(a)]) == a
  {
    var none := Dictionary([], 0);
    assert [Listed(a), other][1..] == [other] && [other][1..] == [];
    assert [other, Listed(a)][1..] == [Listed(a)] && [Listed(a)][1..] == [];
    assert Collected(none, [Listed(a), other]) == Collected(PutRows(none, a), [other]) == PutRows(none, a);
    assert Collected(none, [other, Listed(a)]) == Collected(none, [Listed(a)]) == PutRows(none, a);
    AllFresh(a);
    PutListing([], [], a, 0);
    assert Entries([] + []) == [] && [] + ([] + a) == a;
    assert PutRows(none, a) == Dictionary(Entries(a), 0);
    RowsOfEntries(a);
    SortLeavesSorted(a);
  }

  lemma NoListing(one: Response, other: Response)
    requires !one.Listed? && !other.Listed?
    ensures MergedFeed([one, other]) == []
  {
    var none := Dictionary([], 0);
    assert Collected(none, []) == none;
    assert [other][0] == other && [other][1..] == [];
    assert Collected(none, [other]) == none;
    assert [one, other][0] == one && [one, other][1..] == [other];
    assert Collected(none, [one, other]) == none;
  }

  /** How a request fails: with the error status of the public source, else of the own one, else with none at all. */
  function Failing(own: Response, remote: Response): Reply {
    if remote.Rejected? && remote.status >= 400 then PassedOn(remote.status)
    else if own.Rejected? && own.status >= 400 then PassedOn(own.status)
    else NoSource
  }

  lemma LastFailureIs(own: Response, other: Response)
    ensures LastFailure([own, other]) == Failing(own, other)
  {
    assert [own, other][..1] == [own] && [own][..0] == [];
    assert LastFailure([own]) == if own.Rejected? && own.status >= 400 then PassedOn(own.status) else NoSource;
  }

  lemma TakenSlice(a: seq<Row>, w: Window)
    ensures Slice(Take(a, w.offset + w.limit), w.offset, w.limit) == Slice(a, w.offset, w.limit)
  {
    SliceIsDropTake(a, w.offset, w.limit);
    SliceIsDropTake(Take(a, w.offset + w.limit), w.offset, w.limit);
  }

  lemma OneAnswers(rows: seq<Row>, other: Response, own: bool, synced: bool, w: Window)
    requires Listing(rows) && !other.Listed? && w.limit >= 1
    ensures var (local, remote) := if own then (Listed(rows), other) else (other, Listed(rows));
            Answer(local, remote, synced, w)
            == if rows != [] || !own || synced then Page(Slice(rows, w.offset, w.limit))
               else Failing(Listed([]), other)
  {
    hide MergedFeed, Listing, LastFailure;
    OneListing(rows, other);
    EmptySlice(w.offset, w.limit);
    LastFailureIs(Listed(rows), other);
  }

  /**
   The own indexer answers and the public source does not: the request is answered from the own history alone. Only if
   that is empty and the indexer is not in sync, nothing is known, and the request fails as the public source did.
   */
  lemma OwnAlone(local: Backend, remote: Backend, a: seq<Row>, synced: bool, w: Window)
    requires Static(local, a) && Listing(a) && 1 <= w.limit && w.offset + w.limit <= MAX_HISTORY_FETCH
    requires !Fetched(remote, w.offset + w.limit).Listed?
    ensures Served(local, remote, synced, w)
         == if a != [] || synced then Page(Slice(a, w.offset, w.limit))
            else Failing(Listed([]), Fetched(remote, w.offset + w.limit))
  {
    hide Fetched, Listing, Static, Answer, Slice, Failing;
    var n := w.offset + w.limit;
    PagedFetchIsWhole(local, a, n);
    TakeOne(a, n);
    OneAnswers(Take(a, n), Fetched(remote, n), true, synced, w);
    TakenSlice(a, w);
  }

  /** The public source answers and the own indexer does not: the request is answered from the public history alone. */
  lemma PublicAlone(local: Backend, remote: Backend, b: seq<Row>, synced: bool, w: Window)
    requires Static(remote, b) && Listing(b) && 1 <= w.limit && w.offset + w.limit <= MAX_HISTORY_FETCH
    requires !Fetched(local, w.offset + w.limit).Listed?
    ensures Served(local, remote, synced, w) == Page(Slice(b, w.offset, w.limit))
  {
    hide Fetched, Listing, Static, Answer, Slice, Failing;
    var n := w.offset + w.limit;
    PagedFetchIsWhole(remote, b, n);
    TakeOne(b, n);
    OneAnswers(Take(b, n), Fetched(local, n), false, synced, w);
    TakenSlice(b, w);
  }

  /** Neither source answers: the request fails, with an error status if one of them gave one. */
  lemma NeitherAnswers(local: Backend, remote: Backend, synced: bool, w: Window)
    requires w.offset + w.limit <= MAX_HISTORY_FETCH
    requires !Fetched(local, w.offset + w.limit).Listed? && !Fetched(remote, w.offset + w.limit).Listed?
    ensures Served(local, remote, synced, w)
         == Failing(Fetched(local, w.offset + w.limit), Fetched(remote, w.offset + w.limit))
    ensures !Served(local, remote, synced, w).Page?
  {
    hide Fetched, MergedFeed, LastFailure;
    NoListing(Fetched(local, w.offset + w.limit), Fetched(remote, w.offset + w.limit));
    LastFailureIs(Fetched(local, w.offset + w.limit), Fetched(remote, w.offset + w.limit));
  }

  /** What the sources listed, own rows first. */
  function AllRows(local: Response, remote: Response): seq<Row> {
    (if local.Listed? then local.rows else []) + (if remote.Listed? then remote.rows else [])
  }

  /**
   An answer that nothing is known of an account is given exactly when no source listed a row and a source that may
   say so answered: the public one, or the own indexer in sync.
   */
  lemma NothingKnownExactly(local: Response, remote: Response, synced: bool, w: Window)
    requires AllRows(local, remote) == []
    ensures Answer(local, remote, synced, w) == Page([]) <==> (synced && local.Listed?) || remote.Listed?
    ensures Answer(local, remote, synced, w) != Page([]) ==> Answer(local, remote, synced, w) == Failing(local, remote)
  {
    hide LastFailure;
    var none := Dictionary([], 0);
    assert [local, remote][1..] == [remote] && [remote][1..] == [];
    assert local.Listed? ==> local.rows == [];
    assert remote.Listed? ==> remote.rows == [];
    assert Collected(none, [remote]) == none;
    assert Collected(none, [local, remote]) == none;
    assert MergedFeed([local, remote]) == [];
    LastFailureIs(local, remote);
  }

  // ----- any rows ----------------------------------------------------------------------------------------------------

  /**
   What the dictionary holds of the rows put in so far: rows it was given, one for each transaction and no poorer than
   any other of it, and each row without an id.
   */
  ghost predicate Holds(d: Dictionary, rows: seq<Row>) {
    OnlyThese(d, rows) && OneEach(d.entries) && Covers(d.entries, rows) && KeepsNameless(d.entries, rows)
  }

  ghost predicate OnlyThese(d: Dictionary, rows: seq<Row>) {
    forall e :: e in d.entries ==> e.row in rows && Keyed(e, d.anonymous)
  }

  ghost predicate OneEach(entries: seq<Entry>) {
    forall i, j :: 0 <= i < j < |entries| ==> entries[i].key != entries[j].key
  }

  ghost predicate Covers(entries: seq<Entry>, rows: seq<Row>) {
    forall x :: x in rows && x.id != "" ==> Covered(entries, x)
  }

  ghost predicate Covered(entries: seq<Entry>, x: Row) {
    exists e :: e in entries && e.key == Id(x.id) && e.row.fields >= x.fields
  }

  ghost predicate KeepsNameless(entries: seq<Entry>, rows: seq<Row>) {
    forall x: Row :: x.id == "" ==> multiset(Rows(entries))[x] == multiset(rows)[x]
  }

  ghost predicate Keyed(e: Entry, anonymous: nat) {
    match e.key
    case Id(id) => id == e.row.id != ""
    case Anonymous(n, time) => e.row.id == "" && 1 <= n <= anonymous
  }

  predicate HasKey(entries: seq<Entry>, key: Key) {
    exists e :: e in entries && e.key == key
  }

  /** A known key keeps its place and the richer row; a new one goes to the end. */
  lemma {:induction false} PutShape(entries: seq<Entry>, key: Key, row: Row) returns (k: nat)
    ensures !HasKey(entries, key) ==> Put(entries, key, row) == entries + [Entry(key, row)]
    ensures HasKey(entries, key) ==>
              && k < |entries| && entries[k].key == key
              && Put(entries, key, row)
                 == entries[k := if row.fields > entries[k].row.fields then Entry(key, row) else entries[k]]
  {
    k := 0;
    if entries != [] {
      assert entries == [entries[0]] + entries[1..];
      if entries[0].key != key {
        var m := PutShape(entries[1..], key, row);
        k := m + 1;
        assert HasKey(entries, key) <==> HasKey(entries[1..], key);
      } else {
        assert entries[0] in entries;
      }
    }
  }

  /** Putting in one more row. */
  lemma PutHolds(d: Dictionary, rows: seq<Row>, x: Row)
    requires Holds(d, rows)
    ensures Holds(PutRow(d, x), rows + [x])
  {
    hide Put, HasKey, OnlyThese, OneEach, Covers, KeepsNameless, Rows;
    var key := KeyOf(x, d.anonymous);
    var k := PutShape(d.entries, key, x);
    var anonymous := if x.id == "" then d.anonymous + 1 else d.anonymous;
    if HasKey(d.entries, key) {
      KnownIsNamed(d, rows, x);
      var here := if x.fields > d.entries[k].row.fields then Entry(key, x) else d.entries[k];
      ReplacedOnly(d, rows, x, k, here);
      ReplacedOnce(d.entries, k, here);
      ReplacedCovers(d.entries, rows, x, k, here);
      ReplacedNameless(d, rows, x, k, here);
    } else {
      NewOnly(d, rows, x);
      NewOnce(d.entries, Entry(key, x));
      NewCovers(d.entries, rows, x, Entry(key, x));
      NewNameless(d.entries, rows, Entry(key, x));
    }
  }

  lemma KnownIsNamed(d: Dictionary, rows: seq<Row>, x: Row)
    requires OnlyThese(d, rows) && HasKey(d.entries, KeyOf(x, d.anonymous))
    ensures x.id != ""
  {
    var e :| e in d.entries && e.key == KeyOf(x, d.anonymous);
    assert Keyed(e, d.anonymous);
  }

  lemma NewOnly(d: Dictionary, rows: seq<Row>, x: Row)
    requires OnlyThese(d, rows)
    ensures OnlyThese(Dictionary(d.entries + [Entry(KeyOf(x, d.anonymous), x)],
                                 if x.id == "" then d.anonymous + 1 else d.anonymous), rows + [x])
  {
    forall e | e in d.entries ensures e.row in rows + [x] && Keyed(e, d.anonymous + 1) && Keyed(e, d.anonymous) {
      assert e.row in rows;
    }
  }

  lemma NewOnce(entries: seq<Entry>, added: Entry)
    requires OneEach(entries) && !HasKey(entries, added.key)
    ensures OneEach(entries + [added])
  {
    forall i | 0 <= i < |entries| ensures entries[i].key != added.key {
      assert entries[i] in entries;
    }
  }

  lemma CoveredStill(entries: seq<Entry>, more: seq<Entry>, x: Row)
    requires Covered(entries, x) && forall e :: e in entries ==> e in more
    ensures Covered(more, x)
  {
  }

  lemma NewCovers(entries: seq<Entry>, rows: seq<Row>, x: Row, added: Entry)
    requires Covers(entries, rows) && added.row == x && (x.id != "" ==> added.key == Id(x.id))
    ensures Covers(entries + [added], rows + [x])
  {
    hide Covered;
    forall y | y in rows + [x] && y.id != "" ensures Covered(entries + [added], y) {
      if y in rows {
        CoveredStill(entries, entries + [added], y);
      } else {
        CoveredBy(entries + [added], added, y);
      }
    }
  }

  lemma CoveredBy(entries: seq<Entry>, e: Entry, x: Row)
    requires e in entries && e.key == Id(x.id) && e.row.fields >= x.fields
    ensures Covered(entries, x)
  {
  }

  lemma NewNameless(entries: seq<Entry>, rows: seq<Row>, added: Entry)
    requires KeepsNameless(entries, rows)
    ensures KeepsNameless(entries + [added], rows + [added.row])
  {
    assert Rows(entries + [added]) == Rows(entries) + [added.row];
  }

  lemma ReplacedOnly(d: Dictionary, rows: seq<Row>, x: Row, k: nat, here: Entry)
    requires OnlyThese(d, rows) && x.id != "" && k < |d.entries| && d.entries[k].key == Id(x.id)
    requires here == d.entries[k] || here == Entry(Id(x.id), x)
    ensures OnlyThese(Dictionary(d.entries[k := here], d.anonymous), rows + [x])
  {
    assert d.entries[k] in d.entries && Keyed(here, d.anonymous);
    forall e | e in d.entries[k := here] ensures e.row in rows + [x] && Keyed(e, d.anonymous) {
      assert e == here || e in d.entries;
    }
  }

  lemma ReplacedOnce(entries: seq<Entry>, k: nat, here: Entry)
    requires OneEach(entries) && k < |entries| && here.key == entries[k].key
    ensures OneEach(entries[k := here])
  {
  }

  lemma ReplacedCovers(entries: seq<Entry>, rows: seq<Row>, x: Row, k: nat, here: Entry)
    requires Covers(entries, rows) && x.id != "" && k < |entries| && entries[k].key == here.key == Id(x.id)
    requires here.row.fields >= x.fields && here.row.fields >= entries[k].row.fields
    ensures Covers(entries[k := here], rows + [x])
  {
    hide Covered;
    assert entries[k := here][k] == here;
    forall y | y in rows + [x] && y.id != "" ensures Covered(entries[k := here], y) {
      if y in rows {
        StillCovered(entries, k, here, y);
      } else {
        CoveredBy(entries[k := here], here, y);
      }
    }
  }

  lemma StillCovered(entries: seq<Entry>, k: nat, here: Entry, y: Row)
    requires Covered(entries, y) && k < |entries| && here.key == entries[k].key
    requires here.row.fields >= entries[k].row.fields
    ensures Covered(entries[k := here], y)
  {
    var e :| e in entries && e.key == Id(y.id) && e.row.fields >= y.fields;
    var i :| 0 <= i < |entries| && entries[i] == e;
    assert entries[k := here][i] in entries[k := here];
  }

  lemma ReplacedNameless(d: Dictionary, rows: seq<Row>, x: Row, k: nat, here: Entry)
    requires KeepsNameless(d.entries, rows) && OnlyThese(d, rows) && x.id != "" && k < |d.entries|
    requires d.entries[k].key == Id(x.id) && (here == d.entries[k] || here == Entry(Id(x.id), x))
    ensures KeepsNameless(d.entries[k := here], rows + [x])
  {
    assert d.entries[k] in d.entries && Keyed(d.entries[k], d.anonymous);
    assert Rows(d.entries[k := here]) == Rows(d.entries)[k := here.row];
  }

  lemma {:induction false} PutAllHolds(d: Dictionary, before: seq<Row>, rows: seq<Row>)
    requires Holds(d, before)
    ensures Holds(PutRows(d, rows), before + rows)
    decreases |rows|
  {
    hide Holds, PutRow;
    if rows == [] {
      assert before + rows == before;
    } else {
      PutHolds(d, before, rows[0]);
      PutAllHolds(PutRow(d, rows[0]), before + [rows[0]], rows[1..]);
      assert before + [rows[0]] + rows[1..] == before + rows;
    }
  }

  lemma CollectedBoth(d: Dictionary, local: Response, remote: Response)
    ensures var own, theirs := if local.Listed? then local.rows else [], if remote.Listed? then remote.rows else [];
            Collected(d, [local, remote]) == PutRows(PutRows(d, own), theirs)
  {
    hide PutRow;
    assert [local, remote][0] == local && [local, remote][1..] == [remote];
    assert [remote][0] == remote && [remote][1..] == [];
    var first := PutRows(d, if local.Listed? then local.rows else []);
    assert Collected(d, [local, remote]) == Collected(first, [remote]);
    assert Collected(first, [remote]) == Collected(PutRows(first, if remote.Listed? then remote.rows else []), []);
  }

  lemma CollectedHolds(local: Response, remote: Response)
    ensures Holds(Collected(Dictionary([], 0), [local, remote]), AllRows(local, remote))
  {
    var none := Dictionary([], 0);
    assert Holds(none, []);
    hide Holds;
    var own, theirs := if local.Listed? then local.rows else [], if remote.Listed? then remote.rows else [];
    var first := PutRows(none, own);
    PutAllHolds(none, [], own);
    assert [] + own == own;
    PutAllHolds(first, own, theirs);
    CollectedBoth(none, local, remote);
  }

  /** The rows of a feed: listed ones, newest first, one for each transaction, and every row without an id. */
  ghost predicate IsFeed(feed: seq<Row>, rows: seq<Row>) {
    && NewestFirst(feed)
    && (forall r :: r in feed ==> r in rows)
    && (forall i, j :: 0 <= i < j < |feed| && feed[i].id == feed[j].id ==> feed[i].id == "")
    && (forall x :: x in rows && x.id != "" ==> exists r :: r in feed && r.id == x.id && r.fields >= x.fields)
    && (forall x: Row :: x.id == "" ==> multiset(feed)[x] == multiset(rows)[x])
  }

  /** What the rows of two answers come to, whatever they are. */
  lemma FeedOfAnyRows(local: Response, remote: Response)
    ensures IsFeed(MergedFeed([local, remote]), AllRows(local, remote))
  {
    hide Collected, AllRows, Holds, Rows;
    CollectedHolds(local, remote);
    var d, rows := Collected(Dictionary([], 0), [local, remote]), AllRows(local, remote);
    SortedIsFeed(d, rows);
  }

  lemma SortedByTime(rows: seq<Row>)
    ensures NewestFirst(SortByTime(rows))
  {
    S.SortedDescends(rows, NotOlder, (r: Row) => r.time);
  }

  lemma RowIsHeld(d: Dictionary, rows: seq<Row>, r: Row)
    requires OnlyThese(d, rows) && r in SortByTime(Rows(d.entries))
    ensures r in rows
  {
    assert r in multiset(Rows(d.entries));
    var i :| 0 <= i < |d.entries| && Rows(d.entries)[i] == r;
    assert d.entries[i] in d.entries;
  }

  /** The entry of a transaction, as a row. */
  lemma RowOf(d: Dictionary, rows: seq<Row>, x: Row) returns (r: Row)
    requires OnlyThese(d, rows) && Covers(d.entries, rows) && x in rows && x.id != ""
    ensures r in Rows(d.entries) && r.id == x.id && r.fields >= x.fields
  {
    assert Covered(d.entries, x);
    var e :| e in d.entries && e.key == Id(x.id) && e.row.fields >= x.fields;
    var i :| 0 <= i < |d.entries| && d.entries[i] == e;
    assert Keyed(e, d.anonymous) && Rows(d.entries)[i] == e.row;
    r := e.row;
  }

  lemma NamelessSorted(d: Dictionary, rows: seq<Row>)
    requires KeepsNameless(d.entries, rows)
    ensures forall x: Row :: x.id == "" ==> multiset(SortByTime(Rows(d.entries)))[x] == multiset(rows)[x]
  {
    hide Rows;
  }

  /** How many rows name this transaction. */
  function Naming(id: string): Row -> nat {
    (r: Row) => if r.id == id then 1 else 0
  }

  lemma {:induction false} NamedAtMostOnce(d: Dictionary, rows: seq<Row>, id: string, n: nat)
    requires OnlyThese(d, rows) && OneEach(d.entries) && id != "" && n <= |d.entries|
    ensures S.SumBy(Rows(d.entries[n..]), Naming(id)) <= 1
    ensures S.SumBy(Rows(d.entries[n..]), Naming(id)) == 1 ==>
              exists i :: n <= i < |d.entries| && d.entries[i].key == Id(id)
    decreases |d.entries| - n
  {
    if n < |d.entries| {
      NamedAtMostOnce(d, rows, id, n + 1);
      var here, rest := d.entries[n], d.entries[n + 1..];
      assert here in d.entries && Keyed(here, d.anonymous);
      assert Rows(d.entries[n..]) == [here.row] + Rows(rest) && ([here.row] + Rows(rest))[1..] == Rows(rest);
      if here.row.id == id {
        assert here.key == Id(id);
      }
    }
  }

  lemma {:induction false} TwiceCounts(s: seq<Row>, i: nat, j: nat)
    requires i < j < |s| && s[i].id == s[j].id
    ensures S.SumBy(s, Naming(s[i].id)) >= 2
  {
    var f := Naming(s[i].id);
    assert s == s[..i] + [s[i]] + s[i + 1..j] + [s[j]] + s[j + 1..];
    S.SumByConcat(s[..i] + [s[i]] + s[i + 1..j] + [s[j]], s[j + 1..], f);
    S.SumByConcat(s[..i] + [s[i]] + s[i + 1..j], [s[j]], f);
    S.SumByConcat(s[..i] + [s[i]], s[i + 1..j], f);
    S.SumByConcat(s[..i], [s[i]], f);
    assert [s[i]][1..] == [] && [s[j]][1..] == [];
  }

  lemma NamedOnceSorted(d: Dictionary, rows: seq<Row>, i: nat, j: nat)
    requires OnlyThese(d, rows) && OneEach(d.entries)
    requires var feed := SortByTime(Rows(d.entries)); i < j < |feed| && feed[i].id == feed[j].id
    ensures SortByTime(Rows(d.entries))[i].id == ""
  {
    hide OnlyThese, OneEach, Naming, Rows;
    var feed := SortByTime(Rows(d.entries));
    var id := feed[i].id;
    TwiceCounts(feed, i, j);
    S.SortKeepsSum(Rows(d.entries), NotOlder, Naming(id));
    assert d.entries[0..] == d.entries;
    if id != "" {
      NamedAtMostOnce(d, rows, id, 0);
    }
  }

  lemma FeedIsHeld(d: Dictionary, rows: seq<Row>)
    requires OnlyThese(d, rows)
    ensures forall r :: r in SortByTime(Rows(d.entries)) ==> r in rows
  {
    hide OnlyThese, SortByTime, Rows;
    forall r | r in SortByTime(Rows(d.entries)) ensures r in rows {
      RowIsHeld(d, rows, r);
    }
  }

  lemma FeedNamesOnce(d: Dictionary, rows: seq<Row>)
    requires OnlyThese(d, rows) && OneEach(d.entries)
    ensures var feed := SortByTime(Rows(d.entries));
            forall i, j :: 0 <= i < j < |feed| && feed[i].id == feed[j].id ==> feed[i].id == ""
  {
    hide OnlyThese, OneEach, SortByTime, Rows;
    var feed := SortByTime(Rows(d.entries));
    forall i, j | 0 <= i < j < |feed| && feed[i].id == feed[j].id ensures feed[i].id == "" {
      NamedOnceSorted(d, rows, i, j);
    }
  }

  lemma FeedCovers(d: Dictionary, rows: seq<Row>, x: Row) returns (r: Row)
    requires OnlyThese(d, rows) && Covers(d.entries, rows) && x in rows && x.id != ""
    ensures r in SortByTime(Rows(d.entries)) && r.id == x.id && r.fields >= x.fields
  {
    hide OnlyThese, Covers, Rows;
    r := RowOf(d, rows, x);
    assert r in multiset(SortByTime(Rows(d.entries)));
  }

  lemma SortedIsFeed(d: Dictionary, rows: seq<Row>)
    requires Holds(d, rows)
    ensures IsFeed(SortByTime(Rows(d.entries)), rows)
  {
    hide OnlyThese, OneEach, Covers, KeepsNameless, NewestFirst, SortByTime, Rows;
    SortedByTime(Rows(d.entries));
    FeedIsHeld(d, rows);
    FeedNamesOnce(d, rows);
    NamelessSorted(d, rows);
    var feed := SortByTime(Rows(d.entries));
    forall x | x in rows && x.id != "" ensures exists r :: r in feed && r.id == x.id && r.fields >= x.fields {
      var r := FeedCovers(d, rows, x);
    }
  }
}
