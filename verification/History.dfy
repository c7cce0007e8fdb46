/**
 The account-history gateway: two backends, one feed.

 To serve a page it fetches only the newest `offset + limit` rows of each backend, merges them by
 transaction and slices. The page is nevertheless the page of the merged complete histories.
 */
module History {
  import opened Wrappers
  import S = Sorting

  const MAX_HISTORY_FETCH := 1000
  const PAGE := 100

  /** One history row: its transaction id (empty when it has none), its time, its number of fields, and the rest. */
  datatype Row = Row(id: string, time: int, fields: nat, body: string)

  datatype Response = Listed(rows: seq<Row>) | Rejected(status: nat) | Unreachable

  /** What a backend answers to (offset, limit). */
  type Backend = (nat, nat) -> Response

  function Take(s: seq<Row>, n: nat): seq<Row> {
    if n <= |s| then s[..n] else s
  }

  function Drop(s: seq<Row>, n: nat): seq<Row> {
    if n <= |s| then s[n..] else []
  }

  function Slice(s: seq<Row>, offset: nat, limit: nat): seq<Row> {
    Take(Drop(s, offset), limit)
  }

  // ----- the requested window ------------------------------------------------------------------

  datatype Window = Window(offset: nat, limit: nat)

  /** The clamped window; a parameter that is not a number resets both. */
  function RequestedWindow(limit: Option<int>, offset: Option<int>): (w: Window)
    ensures 1 <= w.limit <= PAGE
    ensures limit.None? || offset.None? ==> w == Window(0, 20)
    ensures limit.Some? && offset.Some? && 1 <= limit.value <= PAGE ==> w.limit == limit.value
    ensures limit.Some? && offset.Some? && limit.value < 1 ==> w.limit == 1
    ensures limit.Some? && offset.Some? && limit.value > PAGE ==> w.limit == PAGE
    ensures limit.Some? && offset.Some? ==> w.offset == if offset.value < 0 then 0 else offset.value
  {
    if limit.None? || offset.None? then Window(0, 20)
    else Window(Max(0, offset.value), Max(1, Min(PAGE, limit.value)))
  }

  // ----- fetching from one backend -------------------------------------------------------------

  function FetchFrom(serve: Backend, wanted: nat, rows: seq<Row>): Response
    decreases wanted - |rows|
  {
    if |rows| >= wanted then Listed(rows)
    else
      var size := Min(PAGE, wanted - |rows|);
      var response := serve(|rows|, size);
      if !response.Listed? then response
      else if |response.rows| < size then Listed(rows + response.rows)
      else FetchFrom(serve, wanted, rows + response.rows)
  }

  function Fetched(serve: Backend, wanted: nat): Response {
    if wanted <= PAGE then serve(0, wanted) else FetchFrom(serve, wanted, [])
  }

  /** Asks for at most 100 rows at a time. It ends whatever the backend answers. */
  method Fetch(serve: Backend, wanted: nat) returns (response: Response)
    ensures response == Fetched(serve, wanted)
  {
    if wanted <= PAGE {
      return serve(0, wanted);
    }
    var rows := [];
    while |rows| < wanted
      invariant FetchFrom(serve, wanted, rows) == Fetched(serve, wanted)
      decreases wanted - |rows|
    {
      var size := Min(PAGE, wanted - |rows|);
      response := serve(|rows|, size);
      if !response.Listed? {
        return;
      }
      rows := rows + response.rows;
      if |response.rows| < size {
        break;
      }
    }
    return Listed(rows);
  }

  /** A backend whose history does not change while it is read. */
  ghost predicate Static(serve: Backend, history: seq<Row>) {
    forall offset: nat, size: nat :: 1 <= size <= PAGE ==> serve(offset, size) == Listed(Slice(history, offset, size))
  }

  lemma {:induction false} PagedFetchFrom(serve: Backend, history: seq<Row>, wanted: nat, n: nat)
    requires Static(serve, history) && n <= |history| && n <= wanted
    ensures FetchFrom(serve, wanted, history[..n]) == Listed(Take(history, wanted))
    decreases wanted - n
  {
    if n < wanted {
      var size := Min(PAGE, wanted - n);
      var page := Slice(history, n, size);
      assert serve(n, size) == Listed(page);
      assert history[..n] + page == history[..n + |page|];
      if |page| == size {
        PagedFetchFrom(serve, history, wanted, n + size);
      }
    }
  }

  /** Fetching page by page yields what one unpaged request would. */
  lemma PagedFetchIsWhole(serve: Backend, history: seq<Row>, wanted: nat)
    requires Static(serve, history) && wanted >= 1
    ensures Fetched(serve, wanted) == Listed(Take(history, wanted))
  {
    if wanted > PAGE {
      assert history[..0] == [];
      PagedFetchFrom(serve, history, wanted, 0);
    }
  }

  // ----- merging ---------------------------------------------------------------------------------

  datatype Key = Id(id: string) | Anonymous(n: nat, time: int)
  datatype Entry = Entry(key: Key, row: Row)

  /** Insertion into the ordered dictionary of merged rows: a known key keeps its place and the richer row. */
  function Put(entries: seq<Entry>, key: Key, row: Row): seq<Entry> {
    if entries == [] then [Entry(key, row)]
    else if entries[0].key == key then
      (if row.fields > entries[0].row.fields then [Entry(key, row)] + entries[1..] else entries)
    else [entries[0]] + Put(entries[1..], key, row)
  }

  function KeyOf(row: Row, anonymous: nat): Key {
    if row.id == "" then Anonymous(anonymous + 1, row.time) else Id(row.id)
  }

  datatype Dictionary = Dictionary(entries: seq<Entry>, anonymous: nat)

  function PutRow(d: Dictionary, row: Row): Dictionary {
    Dictionary(Put(d.entries, KeyOf(row, d.anonymous), row), if row.id == "" then d.anonymous + 1 else d.anonymous)
  }

  function PutRows(d: Dictionary, rows: seq<Row>): Dictionary
    decreases |rows|
  {
    if rows == [] then d else PutRows(PutRow(d, rows[0]), rows[1..])
  }

  function Collected(d: Dictionary, responses: seq<Response>): Dictionary
    decreases |responses|
  {
    if responses == [] then d
    else Collected(if responses[0].Listed? then PutRows(d, responses[0].rows) else d, responses[1..])
  }

  function Rows(entries: seq<Entry>): seq<Row> {
    seq(|entries|, i requires 0 <= i < |entries| => entries[i].row)
  }

  predicate NotOlder(a: Row, b: Row) {
    a.time >= b.time
  }

  /** Stable sort, newest first. */
  function SortByTime(rows: seq<Row>): seq<Row> {
    S.Sort(rows, NotOlder)
  }

  function MergedFeed(responses: seq<Response>): seq<Row> {
    SortByTime(Rows(Collected(Dictionary([], 0), responses).entries))
  }

  method Collect(responses: seq<Response>) returns (entries: seq<Entry>)
    ensures entries == Collected(Dictionary([], 0), responses).entries
  {
    entries := [];
    var anonymous: nat := 0;
    ghost var all := Collected(Dictionary([], 0), responses);
    var i := 0;
    assert responses[0..] == responses;
    while i < |responses|
      invariant 0 <= i <= |responses|
      invariant Collected(Dictionary(entries, anonymous), responses[i..]) == all
    {
      assert responses[i..][0] == responses[i] && responses[i..][1..] == responses[i + 1..];
      if responses[i].Listed? {
        var rows := responses[i].rows;
        ghost var next := PutRows(Dictionary(entries, anonymous), rows);
        var j := 0;
        assert rows[0..] == rows;
        while j < |rows|
          invariant 0 <= j <= |rows|
          invariant PutRows(Dictionary(entries, anonymous), rows[j..]) == next
        {
          assert rows[j..][0] == rows[j] && rows[j..][1..] == rows[j + 1..];
          var key := KeyOf(rows[j], anonymous);
          if rows[j].id == "" {
            anonymous := anonymous + 1;
          }
          entries := Put(entries, key, rows[j]);
          j := j + 1;
        }
        assert rows[j..] == [];
      }
      i := i + 1;
    }
    assert responses[i..] == [];
  }

  // ----- answering a request ------------------------------------------------------------------------

  datatype Reply = Page(rows: seq<Row>) | WindowTooLarge | PassedOn(status: nat) | NoSource

  /** The last failure with an error status, if any. */
  function LastFailure(responses: seq<Response>): Reply {
    if responses == [] then NoSource
    else
      var last := responses[|responses| - 1];
      if last.Rejected? && last.status >= 400 then PassedOn(last.status)
      else LastFailure(responses[..|responses| - 1])
  }

  predicate TakesShortcut(local: Response, synced: bool, w: Window) {
    local.Listed? && synced && w == Window(0, 1)
  }

  function Answer(local: Response, remote: Response, synced: bool, w: Window): Reply {
    if TakesShortcut(local, synced, w) then Page(Take(local.rows, 1))
    else
      var feed := MergedFeed([local, remote]);
      if feed == [] then
        if (synced && local.Listed?) || remote.Listed? then Page([]) else LastFailure([local, remote])
      else Page(Slice(feed, w.offset, w.limit))
  }

  /** The reply to a request for one window. */
  function Served(local: Backend, remote: Backend, synced: bool, w: Window): Reply {
    if w.offset + w.limit > MAX_HISTORY_FETCH then WindowTooLarge
    else Answer(Fetched(local, w.offset + w.limit), Fetched(remote, w.offset + w.limit), synced, w)
  }

  /** Merging, sorting and slicing what both backends listed. */
  method MergedPage(mine: Response, theirs: Response, synced: bool, w: Window) returns (reply: Reply)
    requires !TakesShortcut(mine, synced, w)
    ensures reply == Answer(mine, theirs, synced, w)
  {
    hide SortByTime, Collected, LastFailure, Rows, Take, Slice;
    var entries := Collect([mine, theirs]);
    EmptyFeed(entries);
    if entries == [] {
      if (synced && mine.Listed?) || theirs.Listed? {
        return Page([]);
      }
      return LastFailure([mine, theirs]);
    }
    return Page(Slice(SortByTime(Rows(entries)), w.offset, w.limit));
  }

  method MergedHistory(local: Backend, remote: Backend, synced: bool, w: Window) returns (reply: Reply)
    ensures reply == Served(local, remote, synced, w)
  {
    hide Fetched, MergedFeed, LastFailure, Take, Slice;
    if w.offset + w.limit > MAX_HISTORY_FETCH {
      return WindowTooLarge;
    }
    var fetch: nat := w.offset + w.limit;
    var mine := Fetch(local, fetch);
    if mine.Listed? && synced && w.offset == 0 && w.limit == 1 {
      return Page(Take(mine.rows, 1));
    }
    var theirs := Fetch(remote, fetch);
    reply := MergedPage(mine, theirs, synced, w);
  }

  lemma EmptyFeed(entries: seq<Entry>)
    ensures SortByTime(Rows(entries)) == [] <==> entries == []
  {
    SortKeepsLength(Rows(entries));
  }

  lemma SortKeepsLength(rows: seq<Row>)
    ensures |SortByTime(rows)| == |rows|
  {
    assert |multiset(SortByTime(rows))| == |multiset(rows)|;
  }
}
