/** The corpus table and the pass over it: every item is written unless its row already carries its hash. */
module Upserts {
  import opened Wrappers
  import opened Sequences
  import opened CorpusDocs

  /** One server's turn: its document, the content hash of that, and the time. */
  datatype Item = Item(id: string, doc: Doc, hash: string, time: int)

  datatype Row = Row(doc: Doc, hash: string, indexedAt: int)

  /** The table and the statistics of the run. */
  datatype State = State(rows: map<string, Row>, written: nat, skipped: nat)

  predicate Stale(rows: map<string, Row>, item: Item) {
    item.id !in rows || rows[item.id].hash != item.hash
  }

  function Write(s: State, item: Item): State {
    State(s.rows[item.id := Row(item.doc, item.hash, item.time)], s.written + 1, s.skipped)
  }

  function Skip(s: State): State {
    State(s.rows, s.written, s.skipped + 1)
  }

  /** The first n items one by one. */
  function Pass(items: seq<Item>, n: nat, rows: map<string, Row>): State
    requires n <= |items|
  {
    if n == 0 then State(rows, 0, 0) else
      var before := Pass(items, n - 1, rows);
      if Stale(before.rows, items[n - 1]) then Write(before, items[n - 1]) else Skip(before)
  }

  function Ids(items: seq<Item>): seq<string> {
    seq(|items|, i requires 0 <= i < |items| => items[i].id)
  }

  ghost predicate UniqueItems(items: seq<Item>) {
    Distinct(Ids(items))
  }

  lemma OwnIdIsNew(items: seq<Item>, n: nat)
    requires UniqueItems(items) && n < |items|
    ensures forall i | 0 <= i < n :: items[i].id != items[n].id
  {
    forall i | 0 <= i < n ensures items[i].id != items[n].id {
      assert Ids(items)[i] != Ids(items)[n];
    }
  }

  lemma {:induction false} OthersUntouched(items: seq<Item>, n: nat, rows: map<string, Row>, id: string)
    requires n <= |items| && forall i | 0 <= i < n :: items[i].id != id
    ensures var after := Pass(items, n, rows).rows;
            (id in after <==> id in rows) && (id in rows ==> after[id] == rows[id])
  {
    if n > 0 {
      OthersUntouched(items, n - 1, rows, id);
    }
  }

  function Existing(rows: map<string, Row>, ids: seq<string>): map<string, Row> {
    map id | id in rows && id in ids :: rows[id]
  }

  /** What one turn does: the row is still the one that was read with the page at `done`. */
  lemma NextTurn(items: seq<Item>, rows: map<string, Row>, done: nat, i: nat, ids: seq<string>)
    requires UniqueItems(items) && done <= i < |items| && items[i].id in ids
    ensures var before, existing := Pass(items, i, rows), Existing(Pass(items, done, rows).rows, ids);
            Pass(items, i + 1, rows) == if Stale(existing, items[i]) then Write(before, items[i]) else Skip(before)
  {
    OwnIdIsNew(items, i);
    OthersUntouched(items, done, rows, items[i].id);
    OthersUntouched(items, i, rows, items[i].id);
  }

  // ----- what a pass leaves -----

  /** A row depends on nothing but its own old state, its own item and the time of its turn. */
  lemma {:induction false} RowAfter(items: seq<Item>, n: nat, rows: map<string, Row>, i: nat)
    requires UniqueItems(items) && i < n <= |items|
    ensures var item, after := items[i], Pass(items, n, rows).rows;
            item.id in after
            && after[item.id] == if Stale(rows, item) then Row(item.doc, item.hash, item.time) else rows[item.id]
  {
    OwnIdIsNew(items, n - 1);
    if i == n - 1 {
      OthersUntouched(items, n - 1, rows, items[i].id);
    } else {
      RowAfter(items, n - 1, rows, i);
    }
  }

  ghost function Outdated(items: seq<Item>, n: nat, rows: map<string, Row>): set<nat>
    requires n <= |items|
  {
    set i: nat | i < n && Stale(rows, items[i])
  }

  /** Every turn is counted once, and written counts the items that the original rows were out of date for. */
  lemma {:induction false} CountsAddUp(items: seq<Item>, n: nat, rows: map<string, Row>)
    requires UniqueItems(items) && n <= |items|
    ensures var s := Pass(items, n, rows); s.written + s.skipped == n && s.written == |Outdated(items, n, rows)|
  {
    if n > 0 {
      CountsAddUp(items, n - 1, rows);
      OwnIdIsNew(items, n - 1);
      OthersUntouched(items, n - 1, rows, items[n - 1].id);
      assert Outdated(items, n, rows)
          == Outdated(items, n - 1, rows) + if Stale(rows, items[n - 1]) then {n - 1} else {};
    }
  }

  // ----- interrupted and repeated runs -----

  /** The same documents, at whatever times. */
  ghost predicate SameTurns(a: seq<Item>, b: seq<Item>) {
    |a| == |b| && forall i | 0 <= i < |a| :: a[i].id == b[i].id && a[i].doc == b[i].doc && a[i].hash == b[i].hash
  }

  lemma SameTurnsUnique(a: seq<Item>, b: seq<Item>)
    requires SameTurns(a, b) && UniqueItems(a)
    ensures UniqueItems(b)
  {
    assert Ids(a) == Ids(b);
  }

  /** A document and its hash; indexed_at does not count. */
  function Content(rows: map<string, Row>, id: string): Option<(Doc, string)> {
    if id in rows then Some((rows[id].doc, rows[id].hash)) else None
  }

  /** A run that stopped after n turns, at the end of a chunk or at its limit. */
  datatype Attempt = Attempt(items: seq<Item>, n: nat)

  ghost predicate AttemptsAt(attempts: seq<Attempt>, items: seq<Item>) {
    forall a | a in attempts :: SameTurns(items, a.items) && a.n <= |items|
  }

  ghost function AfterAttempts(attempts: seq<Attempt>, rows: map<string, Row>): map<string, Row>
    requires forall a | a in attempts :: a.n <= |a.items|
  {
    if attempts == [] then rows else
      var last := attempts[|attempts| - 1];
      assert last in attempts;
      Pass(last.items, last.n, AfterAttempts(attempts[..|attempts| - 1], rows)).rows
  }

  lemma ContentAfter(items: seq<Item>, n: nat, rows: map<string, Row>, i: nat)
    requires UniqueItems(items) && n <= |items| && i < |items|
    ensures var item, after := items[i], Pass(items, n, rows).rows;
            Content(after, item.id)
            == if i < n && Stale(rows, item) then Some((item.doc, item.hash)) else Content(rows, item.id)
  {
    if i < n {
      RowAfter(items, n, rows, i);
    } else {
      OwnIdIsNew(items, i);
      OthersUntouched(items, n, rows, items[i].id);
    }
  }

  lemma {:induction false} AttemptsKeepOrSettle(items: seq<Item>, attempts: seq<Attempt>, rows: map<string, Row>,
                                                 i: nat)
    requires UniqueItems(items) && AttemptsAt(attempts, items) && i < |items|
    ensures var item, c := items[i], Content(AfterAttempts(attempts, rows), items[i].id);
            c == Content(rows, item.id) || (Stale(rows, item) && c == Some((item.doc, item.hash)))
  {
    if attempts != [] {
      var last := attempts[|attempts| - 1];
      assert last in attempts;
      AttemptsKeepOrSettle(items, attempts[..|attempts| - 1], rows, i);
      SameTurnsUnique(items, last.items);
      ContentAfter(last.items, last.n, AfterAttempts(attempts[..|attempts| - 1], rows), i);
    }
  }

  lemma {:induction false} AttemptsLeaveOthers(items: seq<Item>, attempts: seq<Attempt>, rows: map<string, Row>,
                                                id: string)
    requires AttemptsAt(attempts, items) && forall i | 0 <= i < |items| :: items[i].id != id
    ensures Content(AfterAttempts(attempts, rows), id) == Content(rows, id)
  {
    if attempts != [] {
      var last := attempts[|attempts| - 1];
      assert last in attempts;
      AttemptsLeaveOthers(items, attempts[..|attempts| - 1], rows, id);
      OthersUntouched(last.items, last.n, AfterAttempts(attempts[..|attempts| - 1], rows), id);
    }
  }

  lemma ResumedRow(items: seq<Item>, attempts: seq<Attempt>, again: seq<Item>, rows: map<string, Row>, i: nat)
    requires UniqueItems(items) && UniqueItems(again) && AttemptsAt(attempts, items) && SameTurns(items, again)
    requires i < |items|
    ensures Content(Pass(again, |again|, AfterAttempts(attempts, rows)).rows, items[i].id)
         == Content(Pass(items, |items|, rows).rows, items[i].id)
  {
    AttemptsKeepOrSettle(items, attempts, rows, i);
    ContentAfter(again, |again|, AfterAttempts(attempts, rows), i);
    ContentAfter(items, |items|, rows, i);
  }

  lemma ResumedOther(items: seq<Item>, attempts: seq<Attempt>, again: seq<Item>, rows: map<string, Row>, id: string)
    requires AttemptsAt(attempts, items) && SameTurns(items, again)
    requires forall i | 0 <= i < |items| :: items[i].id != id
    ensures Content(Pass(again, |again|, AfterAttempts(attempts, rows)).rows, id)
         == Content(Pass(items, |items|, rows).rows, id)
  {
    AttemptsLeaveOthers(items, attempts, rows, id);
    OthersUntouched(again, |again|, AfterAttempts(attempts, rows), id);
    OthersUntouched(items, |items|, rows, id);
  }

  /** However often a run is cut short before, a complete run gives every row the same document and hash as one
      uninterrupted run from the beginning. */
  lemma ResumedRunIsTheSame(items: seq<Item>, attempts: seq<Attempt>, again: seq<Item>, rows: map<string, Row>,
                            id: string)
    requires UniqueItems(items) && AttemptsAt(attempts, items) && SameTurns(items, again)
    ensures Content(Pass(again, |again|, AfterAttempts(attempts, rows)).rows, id)
         == Content(Pass(items, |items|, rows).rows, id)
  {
    SameTurnsUnique(items, again);
    if i :| 0 <= i < |items| && items[i].id == id {
      ResumedRow(items, attempts, again, rows, i);
    } else {
      ResumedOther(items, attempts, again, rows, id);
    }
  }

  lemma {:induction false} NothingStale(items: seq<Item>, n: nat, rows: map<string, Row>)
    requires n <= |items| && forall i | 0 <= i < n :: !Stale(rows, items[i])
    ensures Pass(items, n, rows) == State(rows, 0, n)
  {
    if n > 0 {
      NothingStale(items, n - 1, rows);
    }
  }

  /** One more run writes nothing, not even a time. */
  lemma SecondRunWritesNothing(items: seq<Item>, again: seq<Item>, n: nat, rows: map<string, Row>)
    requires UniqueItems(items) && SameTurns(items, again) && n <= |items|
    ensures var after := Pass(items, n, rows).rows; Pass(again, n, after) == State(after, 0, n)
  {
    var after := Pass(items, n, rows).rows;
    forall i | 0 <= i < n ensures !Stale(after, again[i]) {
      RowAfter(items, n, rows, i);
    }
    NothingStale(again, n, after);
  }

  // ----- is the corpus right? -----

  /** After a run a row holds its server's document exactly unless the old row carried that document's hash with
      another document. */
  lemma RowIsCurrentIff(items: seq<Item>, n: nat, rows: map<string, Row>, i: nat)
    requires UniqueItems(items) && i < n <= |items|
    ensures Pass(items, n, rows).rows.Keys >= {items[i].id}
    ensures Pass(items, n, rows).rows[items[i].id].doc == items[i].doc
       <==> (items[i].id in rows && rows[items[i].id].hash == items[i].hash ==> rows[items[i].id].doc == items[i].doc)
  {
    RowAfter(items, n, rows, i);
  }

  /** Every stored hash is the hash of the stored document. */
  ghost predicate Honest(rows: map<string, Row>, digest: Doc -> string) {
    forall id | id in rows :: rows[id].hash == digest(rows[id].doc)
  }

  lemma {:induction false} PassKeepsHonest(items: seq<Item>, n: nat, rows: map<string, Row>, digest: Doc -> string)
    requires n <= |items| && Honest(rows, digest)
    requires forall i | 0 <= i < n :: items[i].hash == digest(items[i].doc)
    ensures Honest(Pass(items, n, rows).rows, digest)
  {
    if n > 0 {
      PassKeepsHonest(items, n - 1, rows, digest);
    }
  }
}

/** ask_corpus_indexer.py, lines 116-174: the corpus, rebuilt in pages of the registry. */
module Indexer {
  import opened Wrappers
  import opened Sequences
  import opened Sorting
  import opened TextOrder
  import opened Upserts
  import opened CorpusDocs

  // ----- pages -----

  predicate IdAtMost(a: Server, b: Server) {
    AtMost(a.id, b.id)
  }

  /** WHERE server_id > cursor */
  function After(servers: seq<Server>, cursor: string): seq<Server> {
    if servers == [] then [] else
      var rest := After(servers[1..], cursor);
      if Less(cursor, servers[0].id) then [servers[0]] + rest else rest
  }

  function Prefix<T>(xs: seq<T>, n: nat): seq<T> {
    if n < |xs| then xs[..n] else xs
  }

  /** The query of lines 137-141. */
  function Page(registry: seq<Server>, cursor: string, take: nat): seq<Server> {
    Prefix(SortBy(After(registry, cursor), IdAtMost), take)
  }

  /** Everything a run without limit reads, in order. */
  function Queue(registry: seq<Server>): seq<Server> {
    SortBy(After(registry, ""), IdAtMost)
  }

  function ServerIds(servers: seq<Server>): seq<string> {
    seq(|servers|, i requires 0 <= i < |servers| => servers[i].id)
  }

  /** server_id is the primary key of the registry. */
  ghost predicate UniqueIds(servers: seq<Server>) {
    Distinct(ServerIds(servers))
  }

  lemma IdsDiffer(servers: seq<Server>, i: nat, j: nat)
    requires UniqueIds(servers) && i < j < |servers|
    ensures servers[i].id != servers[j].id
  {
    assert ServerIds(servers)[i] != ServerIds(servers)[j];
  }

  lemma UniqueTail(servers: seq<Server>)
    requires servers != [] && UniqueIds(servers)
    ensures UniqueIds(servers[1..]) && forall s | s in servers[1..] :: s.id != servers[0].id
  {
    assert ServerIds(servers[1..]) == ServerIds(servers)[1..];
    forall i | 1 <= i < |servers| ensures servers[i].id != servers[0].id {
      IdsDiffer(servers, 0, i);
    }
  }

  lemma UniquePrepend(s: Server, servers: seq<Server>)
    requires UniqueIds(servers) && forall x | x in servers :: x.id != s.id
    ensures UniqueIds([s] + servers)
  {
    var all := ServerIds([s] + servers);
    assert all == [s.id] + ServerIds(servers);
    forall i | 1 <= i < |all| ensures all[i] != all[0] {
      assert all[i] == servers[i - 1].id;
    }
  }

  ghost predicate Ascending(servers: seq<Server>) {
    forall i, j | 0 <= i < j < |servers| :: Less(servers[i].id, servers[j].id)
  }

  /** The cursor once n servers have been read. */
  function CursorAt(queue: seq<Server>, n: nat): string
    requires n <= |queue|
  {
    if n == 0 then "" else queue[n - 1].id
  }

  lemma IdAtMostOrders()
    ensures TotalPreorder(IdAtMost)
  {
    AtMostOrders();
  }

  lemma {:induction false} AfterKeeps(servers: seq<Server>, cursor: string, s: Server)
    ensures s in After(servers, cursor) <==> s in servers && Less(cursor, s.id)
  {
    if servers != [] {
      AfterKeeps(servers[1..], cursor, s);
      assert servers == [servers[0]] + servers[1..];
    }
  }

  lemma {:induction false} AfterIsUnique(servers: seq<Server>, cursor: string)
    requires UniqueIds(servers)
    ensures UniqueIds(After(servers, cursor))
  {
    if servers != [] {
      UniqueTail(servers);
      AfterIsUnique(servers[1..], cursor);
      forall s | s in After(servers[1..], cursor) ensures s.id != servers[0].id {
        AfterKeeps(servers[1..], cursor, s);
      }
      UniquePrepend(servers[0], After(servers[1..], cursor));
    }
  }

  lemma {:induction false} AfterTwice(servers: seq<Server>, cursor: string)
    ensures After(After(servers, ""), cursor) == After(servers, cursor)
  {
    if servers != [] {
      AfterTwice(servers[1..], cursor);
      assert ([servers[0]] + After(servers[1..], ""))[1..] == After(servers[1..], "");
    }
  }

  lemma {:induction false} AfterInsert(x: Server, xs: seq<Server>, cursor: string)
    requires SortedBy(xs, IdAtMost)
    ensures After(Insert(x, xs, IdAtMost), cursor)
         == if Less(cursor, x.id) then Insert(x, After(xs, cursor), IdAtMost) else After(xs, cursor)
  {
    if xs == [] {
    } else if IdAtMost(x, xs[0]) {
      assert ([x] + xs)[1..] == xs;
      forall y | y in After(xs, cursor) ensures IdAtMost(x, y) {
        AfterKeeps(xs, cursor, y);
        if y != xs[0] {
          AtMostIsTransitive(x.id, xs[0].id, y.id);
        }
      }
    } else {
      AfterInsert(x, xs[1..], cursor);
      var all := [xs[0]] + Insert(x, xs[1..], IdAtMost);
      assert all[1..] == Insert(x, xs[1..], IdAtMost);
      assert ([xs[0]] + After(xs[1..], cursor))[1..] == After(xs[1..], cursor);
    }
  }

  /** It does not matter whether rows are first sorted or first selected. */
  lemma {:induction false} AfterSort(xs: seq<Server>, cursor: string)
    ensures After(SortBy(xs, IdAtMost), cursor) == SortBy(After(xs, cursor), IdAtMost)
  {
    if xs != [] {
      IdAtMostOrders();
      SortByCorrect(xs[1..], IdAtMost);
      AfterSort(xs[1..], cursor);
      AfterInsert(xs[0], SortBy(xs[1..], IdAtMost), cursor);
      assert ([xs[0]] + After(xs[1..], cursor))[1..] == After(xs[1..], cursor);
    }
  }

  lemma {:induction false} InsertAscending(x: Server, xs: seq<Server>)
    requires Ascending(xs) && forall y | y in xs :: y.id != x.id
    ensures Ascending(Insert(x, xs, IdAtMost))
  {
    if xs == [] {
    } else if IdAtMost(x, xs[0]) {
      LessIsTotal(x.id, xs[0].id);
      forall j | 1 <= j < |xs| ensures Less(x.id, xs[j].id) {
        LessIsTransitive(x.id, xs[0].id, xs[j].id);
      }
    } else {
      InsertAscending(x, xs[1..]);
      InsertBag(x, xs[1..], IdAtMost);
      var rest := Insert(x, xs[1..], IdAtMost);
      forall j | 0 <= j < |rest| ensures Less(xs[0].id, rest[j].id) {
        assert rest[j] in multiset(rest);
        assert rest[j] == x || rest[j] in xs[1..];
      }
    }
  }

  lemma {:induction false} SortAscending(xs: seq<Server>)
    requires UniqueIds(xs)
    ensures Ascending(SortBy(xs, IdAtMost)) && multiset(SortBy(xs, IdAtMost)) == multiset(xs)
  {
    IdAtMostOrders();
    SortByCorrect(xs, IdAtMost);
    if xs != [] {
      UniqueTail(xs);
      SortAscending(xs[1..]);
      forall y | y in SortBy(xs[1..], IdAtMost) ensures y.id != xs[0].id {
        assert y in multiset(xs[1..]);
      }
      InsertAscending(xs[0], SortBy(xs[1..], IdAtMost));
    }
  }

  lemma {:induction false} AfterAscending(xs: seq<Server>, n: nat)
    requires Ascending(xs) && n < |xs|
    ensures After(xs, xs[n].id) == xs[n + 1..]
  {
    LessIsTotal(xs[n].id, xs[0].id);
    if n > 0 {
      AfterAscending(xs[1..], n - 1);
    } else {
      AllAfter(xs[1..], xs[0].id);
    }
  }

  lemma {:induction false} AllAfter(xs: seq<Server>, cursor: string)
    requires forall x | x in xs :: Less(cursor, x.id)
    ensures After(xs, cursor) == xs
  {
    if xs != [] {
      AllAfter(xs[1..], cursor);
    }
  }

  lemma QueueIsAscending(registry: seq<Server>)
    requires UniqueIds(registry)
    ensures Ascending(Queue(registry))
  {
    AfterIsUnique(registry, "");
    SortAscending(After(registry, ""));
  }

  lemma QueueIsUnique(registry: seq<Server>)
    requires UniqueIds(registry)
    ensures UniqueIds(Queue(registry))
  {
    QueueIsAscending(registry);
    var ids := ServerIds(Queue(registry));
    forall i, j | 0 <= i < j < |ids| ensures ids[i] != ids[j] {
      assert Less(Queue(registry)[i].id, Queue(registry)[j].id);
      LessIsTotal(ids[i], ids[j]);
    }
  }

  /** The queue is the registry without an empty id: the cursor starts at "", which is not after itself. */
  lemma QueueIsTheRegistry(registry: seq<Server>, s: Server)
    requires UniqueIds(registry)
    ensures s in Queue(registry) <==> s in registry && s.id != ""
  {
    AfterIsUnique(registry, "");
    SortAscending(After(registry, ""));
    AfterKeeps(registry, "", s);
    assert s in Queue(registry) <==> s in multiset(Queue(registry));
    assert s in After(registry, "") <==> s in multiset(After(registry, ""));
  }

  /** Keyset pagination: from the cursor left by n servers, the page is exactly the next servers of the queue. */
  lemma PageIsNext(registry: seq<Server>, n: nat, take: nat)
    requires UniqueIds(registry) && n <= |Queue(registry)|
    ensures Page(registry, CursorAt(Queue(registry), n), take) == Prefix(Queue(registry)[n..], take)
  {
    var queue := Queue(registry);
    if n > 0 {
      QueueIsAscending(registry);
      AfterTwice(registry, queue[n - 1].id);
      AfterSort(After(registry, ""), queue[n - 1].id);
      AfterAscending(queue, n - 1);
    }
  }

  // ----- the indexer -----

  /** What a run works from: the tables, `build_doc`, `_content_hash`, and the time of each turn. */
  datatype Source = Source(tables: Tables, build: (Server, seq<Label>, seq<string>) -> Doc, digest: Doc -> string,
                           clock: nat -> int)

  function Turn(src: Source, s: Server, labels: seq<Label>, cves: seq<string>, i: nat): Item {
    var doc := src.build(s, labels, cves);
    Item(s.id, doc, src.digest(doc), src.clock(i))
  }

  /** The i-th turn, from the tables as a whole. */
  function ItemOf(src: Source, s: Server, i: nat): Item {
    var t := src.tables;
    Turn(src, s, LabelsOf(t.axisRows, t.latest, s.id), CvesOf(t.links, t.advisories, s.id), i)
  }

  function Items(src: Source, servers: seq<Server>): seq<Item> {
    seq(|servers|, i requires 0 <= i < |servers| => ItemOf(src, servers[i], i))
  }

  /** Everything a run without limit goes through. */
  function AllItems(src: Source): seq<Item> {
    Items(src, Queue(src.tables.registry))
  }

  /** ASK_REINDEX_CHUNK */
  datatype Setting = Unset | Number(value: int) | Unreadable

  function ChunkSize(requested: int, env: Setting): (size: nat)
    ensures size >= 1
  {
    if requested > 0 then requested
    else match env
      case Unset => 2000
      case Number(n) => if n >= 1 then n else 1
      case Unreadable => 2000
  }

  datatype Outcome = Done(scanned: nat, written: nat, skipped: nat) | Interrupted

  /** How many servers a run is to read; a negative limit reads none. */
  function Quota(limit: int, available: nat): nat {
    if limit == 0 || limit >= available then available else if limit < 0 then 0 else limit
  }

  function Min(a: nat, b: nat): nat {
    if a <= b then a else b
  }

  /** How many servers that many chunks read. */
  function Reached(chunks: nat, size: nat, quota: nat): nat {
    if chunks == 0 then 0 else
      Min(Reached(chunks - 1, size, quota) + size, quota)
  }

  lemma {:induction false} ReachedIsTheProduct(chunks: nat, size: nat, quota: nat)
    ensures Reached(chunks, size, quota) == Min(chunks * size, quota)
  {
    if chunks > 0 {
      ReachedIsTheProduct(chunks - 1, size, quota);
      assert (chunks - 1) * size + size == chunks * size;
    }
  }

  /** So many chunks hold n servers, and fewer do not. */
  predicate FewestChunks(chunks: nat, size: nat, n: nat) {
    n <= chunks * size && (chunks > 0 ==> (chunks - 1) * size < n)
  }

  predicate ShortOf(chunks: nat, size: nat, quota: nat) {
    chunks > 0 ==> Reached(chunks - 1, size, quota) < quota
  }

  /** Without a limit every server is read, a positive limit bounds their number, a negative one lets none be read. */
  ghost predicate WithinLimit(limit: int, available: nat, scanned: nat) {
    && (limit == 0 ==> scanned == available)
    && (limit > 0 ==> scanned <= limit && scanned <= available && (scanned == limit || scanned == available))
    && (limit < 0 ==> scanned == 0)
  }

  /** As few chunks as hold the servers, of the size asked for, else of the one that the variable gives. */
  ghost predicate InChunks(requested: int, env: Setting, scanned: nat, chunks: nat) {
    && (requested > 0 ==> FewestChunks(chunks, requested, scanned))
    && (requested <= 0 && !env.Number? ==> FewestChunks(chunks, 2000, scanned))
    && (requested <= 0 && env.Number? ==> FewestChunks(chunks, if env.value < 1 then 1 else env.value, scanned))
  }

  lemma RunIsAsAsked(limit: int, requested: int, env: Setting, available: nat, chunks: nat)
    requires var quota, size := Quota(limit, available), ChunkSize(requested, env);
             Reached(chunks, size, quota) == quota && ShortOf(chunks, size, quota)
    ensures WithinLimit(limit, available, Quota(limit, available))
    ensures InChunks(requested, env, Quota(limit, available), chunks)
  {
    ReachedFully(chunks, ChunkSize(requested, env), Quota(limit, available));
  }

  lemma ReachedFully(chunks: nat, size: nat, quota: nat)
    requires Reached(chunks, size, quota) == quota && ShortOf(chunks, size, quota)
    ensures FewestChunks(chunks, size, quota)
  {
    ReachedIsTheProduct(chunks, size, quota);
    if chunks > 0 {
      ReachedIsTheProduct(chunks - 1, size, quota);
    }
  }

  /** Line 135. */
  function Take(limit: int, size: nat, n: nat): nat
    requires limit == 0 || n < limit
  {
    if limit == 0 || size <= limit - n then size else limit - n
  }

  /** The page of a run that has read n servers holds the next ones, as many as a chunk and the quota allow. */
  lemma NextPage(registry: seq<Server>, n: nat, limit: int, size: nat)
    requires UniqueIds(registry) && size >= 1 && n <= |Queue(registry)|
    requires limit == 0 || n < limit
    ensures var queue := Queue(registry);
            var page, quota := Page(registry, CursorAt(queue, n), Take(limit, size, n)), Quota(limit, |queue|);
            && n + |page| == Min(n + size, quota)
            && page == queue[n..n + |page|]
            && (page == [] <==> n == quota)
            && (page != [] ==> page[|page| - 1].id == CursorAt(queue, n + |page|))
  {
    PageIsNext(registry, n, Take(limit, size, n));
  }

  /** One turn from the dictionaries of its page. */
  function ItemFrom(src: Source, axisMap: map<string, seq<Label>>, cveMap: map<string, seq<string>>, s: Server,
                    i: nat): Item
  {
    Turn(src, s, Entry(axisMap, s.id), Entry(cveMap, s.id), i)
  }

  ghost predicate PageHolds(src: Source, axisMap: map<string, seq<Label>>, cveMap: map<string, seq<string>>,
                            servers: seq<Server>, items: seq<Item>, done: nat)
  {
    && done + |servers| <= |items|
    && forall i | 0 <= i < |servers| :: items[done + i] == ItemFrom(src, axisMap, cveMap, servers[i], done + i)
  }

  /** The dictionaries restricted to a page say of its servers what the whole tables say. */
  lemma PageItems(src: Source, axisMap: map<string, seq<Label>>, cveMap: map<string, seq<string>>, queue: seq<Server>,
                  servers: seq<Server>, done: nat)
    requires done + |servers| <= |queue| && servers == queue[done..done + |servers|]
    requires forall sid | sid in ServerIds(servers) ::
               Entry(axisMap, sid) == LabelsOf(src.tables.axisRows, src.tables.latest, sid)
    requires forall sid | sid in ServerIds(servers) ::
               Entry(cveMap, sid) == CvesOf(src.tables.links, src.tables.advisories, sid)
    ensures PageHolds(src, axisMap, cveMap, servers, Items(src, queue), done)
  {
    forall i | 0 <= i < |servers|
      ensures Items(src, queue)[done + i] == ItemFrom(src, axisMap, cveMap, servers[i], done + i)
    {
      assert servers[i].id == ServerIds(servers)[i] && queue[done + i] == servers[i];
    }
  }

  /** Lines 144-167 for the page at `done`: `before` is the table as the session sees it. */
  method IndexPage(src: Source, servers: seq<Server>, done: nat, before: State, ghost queue: seq<Server>,
                   ghost start: map<string, Row>)
    returns (after: State)
    requires UniqueItems(Items(src, queue)) && done + |servers| <= |queue| && servers == queue[done..done + |servers|]
    requires before == Pass(Items(src, queue), done, start)
    ensures after == Pass(Items(src, queue), done + |servers|, start)
  {
    var sids := ServerIds(servers);
    var axisMap := AxisLabelsFor(src.tables.axisRows, sids, src.tables.latest);
    var cveMap := CveIdsFor(src.tables.links, src.tables.advisories, sids);
    PageItems(src, axisMap, cveMap, queue, servers, done);
    after := UpsertPage(src, servers, done, before, axisMap, cveMap, Items(src, queue), start);
  }

  method UpsertPage(src: Source, servers: seq<Server>, done: nat, before: State, axisMap: map<string, seq<Label>>,
                    cveMap: map<string, seq<string>>, ghost items: seq<Item>, ghost start: map<string, Row>)
    returns (after: State)
    requires UniqueItems(items) && PageHolds(src, axisMap, cveMap, servers, items, done)
    requires before == Pass(items, done, start)
    ensures after == Pass(items, done + |servers|, start)
  {
    var sids := ServerIds(servers);
    var existing := Existing(before.rows, sids);
    after := before;
    for i := 0 to |servers|
      invariant after == Pass(items, done + i, start)
    {
      var item := ItemFrom(src, axisMap, cveMap, servers[i], done + i);
      assert item == items[done + i] && item.id == sids[i];
      NextTurn(items, start, done, done + i, sids);
      if !Stale(existing, item) {
        after := Skip(after);
        continue;
      }
      after := Write(after, item);
    }
  }

  /** The query, from the cursor that n servers have left; none is read exactly when all that were asked for are
      read already. */
  method ReadPage(src: Source, lastSid: string, limit: int, size: nat, n: nat, ghost queue: seq<Server>)
    returns (servers: seq<Server>, cursor: string)
    requires UniqueIds(src.tables.registry) && size >= 1 && (limit == 0 || n < limit)
    requires queue == Queue(src.tables.registry) && n <= |queue| && lastSid == CursorAt(queue, n)
    ensures UniqueItems(Items(src, queue))
    ensures n + |servers| == Min(n + size, Quota(limit, |queue|))
    ensures servers == queue[n..n + |servers|]
    ensures servers == [] <==> n == Quota(limit, |queue|)
    ensures cursor == CursorAt(queue, n + |servers|)
  {
    servers := Page(src.tables.registry, lastSid, Take(limit, size, n));
    NextPage(src.tables.registry, n, limit, size);
    cursor := if servers == [] then lastSid else servers[|servers| - 1].id;
    QueueIsUnique(src.tables.registry);
    assert Ids(Items(src, queue)) == ServerIds(queue);
  }

  /** Lines 135-167: one chunk up to its commit. */
  method IndexChunk(src: Source, lastSid: string, limit: int, size: nat, n: nat, before: State,
                    ghost queue: seq<Server>, ghost start: map<string, Row>)
    returns (read: nat, cursor: string, after: State)
    requires UniqueIds(src.tables.registry) && size >= 1 && (limit == 0 || n < limit)
    requires queue == Queue(src.tables.registry) && n <= |queue| && lastSid == CursorAt(queue, n)
    requires before == Pass(Items(src, queue), n, start)
    ensures n + read == Min(n + size, Quota(limit, |queue|))
    ensures read == 0 <==> n == Quota(limit, |queue|)
    ensures cursor == CursorAt(queue, n + read) && after == Pass(Items(src, queue), n + read, start)
  {
    var servers;
    servers, cursor := ReadPage(src, lastSid, limit, size, n, queue);
    read := |servers|;
    if servers == [] {
      return read, cursor, before;
    }
    after := IndexPage(src, servers, n, before, queue, start);
  }

  /** A run that has committed that many chunks. */
  ghost predicate RunAt(src: Source, start: map<string, Row>, limit: int, size: nat, chunks: nat, scanned: nat,
                        lastSid: string, state: State)
  {
    var queue := Queue(src.tables.registry);
    && scanned == Reached(chunks, size, Quota(limit, |queue|)) && scanned <= Quota(limit, |queue|)
    && lastSid == CursorAt(queue, scanned)
    && state == Pass(Items(src, queue), scanned, start)
  }

  method ContinueRun(src: Source, limit: int, size: nat, scanned: nat, lastSid: string, before: State,
                     ghost start: map<string, Row>, ghost chunks: nat)
    returns (read: nat, cursor: string, after: State)
    requires UniqueIds(src.tables.registry) && size >= 1 && (limit == 0 || scanned < limit)
    requires RunAt(src, start, limit, size, chunks, scanned, lastSid, before)
    ensures read == 0 <==> scanned == Quota(limit, |Queue(src.tables.registry)|)
    ensures RunAt(src, start, limit, size, chunks + 1, scanned + read, cursor, after)
  {
    read, cursor, after := IndexChunk(src, lastSid, limit, size, scanned, before, Queue(src.tables.registry), start);
  }

  predicate NoneFails(chunks: nat, failing: set<nat>) {
    chunks == 0 || (NoneFails(chunks - 1, failing) && chunks - 1 !in failing)
  }

  class Corpus {
    var rows: map<string, Row>

    constructor (start: map<string, Row>)
      ensures rows == start
    {
      rows := start;
    }

    /** `reindex`, where `failing` holds the chunks whose work raises before their commit: the chunks before the first
        of them are kept, that one is rolled back. */
    method Reindex(src: Source, limit: int, requested: int, env: Setting, failing: set<nat>)
      returns (o: Outcome, chunks: nat)
      requires UniqueIds(src.tables.registry)
      modifies this
      ensures var items := AllItems(src);
              var quota := Quota(limit, |items|);
              var n := Reached(chunks, ChunkSize(requested, env), quota);
              && n <= quota && NoneFails(chunks, failing)
              && var s := Pass(items, n, old(rows));
                 && rows == s.rows
                 && (o.Interrupted? ==> chunks in failing && n < quota)
                 && (o.Done? ==> n == quota && o == Done(n, s.written, s.skipped))
      ensures o.Done? ==> WithinLimit(limit, |AllItems(src)|, o.scanned) && InChunks(requested, env, o.scanned, chunks)
    {
      var size, state, scanned, lastSid := ChunkSize(requested, env), State(rows, 0, 0), 0, "";
      ghost var start, quota := rows, Quota(limit, |Queue(src.tables.registry)|);
      chunks := 0;
      while true
        invariant rows == state.rows && NoneFails(chunks, failing) && scanned <= quota
        invariant ShortOf(chunks, size, quota)
        invariant RunAt(src, start, limit, size, chunks, scanned, lastSid, state)
        decreases quota - scanned
      {
        if limit != 0 && scanned >= limit {
          break;
        }
        var read, cursor, pending := ContinueRun(src, limit, size, scanned, lastSid, state, start, chunks);
        if read == 0 {
          break;
        }
        if chunks in failing {
          return Interrupted, chunks;
        }
        scanned, lastSid, state, chunks := scanned + read, cursor, pending, chunks + 1;
        rows := state.rows;
      }
      o := Done(scanned, state.written, state.skipped);
      RunIsAsAsked(limit, requested, env, |Queue(src.tables.registry)|, chunks);
    }
  }

  // ----- what a run means -----

  lemma AllItemsAreUnique(src: Source)
    requires UniqueIds(src.tables.registry)
    ensures UniqueItems(AllItems(src))
  {
    QueueIsUnique(src.tables.registry);
    assert Ids(AllItems(src)) == ServerIds(Queue(src.tables.registry));
  }

  lemma TurnOf(src: Source, s: Server) returns (i: nat)
    requires UniqueIds(src.tables.registry) && s in src.tables.registry && s.id != ""
    ensures i < |AllItems(src)| && AllItems(src)[i] == ItemOf(src, s, i)
  {
    QueueIsTheRegistry(src.tables.registry, s);
    var queue := Queue(src.tables.registry);
    i :| 0 <= i < |queue| && queue[i] == s;
  }

  lemma ItemHasAServer(src: Source, i: nat) returns (s: Server)
    requires UniqueIds(src.tables.registry) && i < |AllItems(src)|
    ensures s in src.tables.registry && s.id != "" && AllItems(src)[i] == ItemOf(src, s, i)
  {
    s := Queue(src.tables.registry)[i];
    QueueIsTheRegistry(src.tables.registry, s);
  }

  /** A run without limit reaches the whole registry exactly when no id is empty; the ids it reaches are registered. */
  lemma EveryServerHasATurnIff(src: Source)
    requires UniqueIds(src.tables.registry)
    ensures (forall s | s in src.tables.registry :: s.id in Ids(AllItems(src)))
       <==> (forall s | s in src.tables.registry :: s.id != "")
    ensures forall id | id in Ids(AllItems(src)) :: id in ServerIds(src.tables.registry)
  {
    forall s | s in src.tables.registry ensures s.id in Ids(AllItems(src)) <==> s.id != "" {
      if s.id != "" {
        var i := TurnOf(src, s);
        assert Ids(AllItems(src))[i] == s.id;
      } else if s.id in Ids(AllItems(src)) {
        var i :| 0 <= i < |Ids(AllItems(src))| && Ids(AllItems(src))[i] == s.id;
        var t := ItemHasAServer(src, i);
      }
    }
    forall id | id in Ids(AllItems(src)) ensures id in ServerIds(src.tables.registry) {
      var i :| 0 <= i < |Ids(AllItems(src))| && Ids(AllItems(src))[i] == id;
      var t := ItemHasAServer(src, i);
      var k :| 0 <= k < |src.tables.registry| && src.tables.registry[k] == t;
      assert ServerIds(src.tables.registry)[k] == id;
    }
  }

  /** A server with an empty id, alone in the registry, is never reached. */
  lemma EmptyIdHasNoTurn(src: Source, s: Server)
    requires src.tables.registry == [s] && s.id == ""
    ensures UniqueIds(src.tables.registry) && AllItems(src) == []
  {
    assert After(src.tables.registry, "") == [];
  }

  ghost predicate NoCollisions(digest: Doc -> string) {
    forall a, b :: digest(a) == digest(b) ==> a == b
  }

  /** After a complete run the corpus holds for every server with an id the document that the whole tables give it;
      rows of other ids are as before. */
  lemma CorpusMatchesTheTables(src: Source, rows: map<string, Row>, s: Server, other: string)
    requires UniqueIds(src.tables.registry) && s in src.tables.registry && s.id != ""
    requires src.build == BuildDoc && NoCollisions(src.digest) && Honest(rows, src.digest)
    requires other !in ServerIds(src.tables.registry)
    ensures var after := Pass(AllItems(src), |AllItems(src)|, rows).rows;
            && s.id in after && after[s.id].doc == DocOf(src.tables, s)
            && after[s.id].hash == src.digest(after[s.id].doc)
            && (other in after <==> other in rows) && (other in rows ==> after[other] == rows[other])
  {
    var items := AllItems(src);
    AllItemsAreUnique(src);
    var i := TurnOf(src, s);
    RowAfter(items, |items|, rows, i);
    forall k | 0 <= k < |items| ensures items[k].id != other {
      EveryServerHasATurnIff(src);
      assert Ids(items)[k] == items[k].id;
    }
    OthersUntouched(items, |items|, rows, other);
  }

  ghost predicate SameRows(t: Tables, u: Tables) {
    && t.registry == u.registry && t.latest == u.latest && t.advisories == u.advisories
    && multiset(t.axisRows) == multiset(u.axisRows) && multiset(t.links) == multiset(u.links)
    && UniqueKeys(t.axisRows) && UniqueKeys(u.axisRows)
  }

  /** Runs over the same rows in any order go through the same documents, so all that holds of a rerun holds of
      one that reads its rows in another order. */
  lemma RowOrderGivesTheSameTurns(src: Source, other: Source)
    requires SameRows(src.tables, other.tables) && src.build == BuildDoc == other.build && src.digest == other.digest
    ensures SameTurns(AllItems(src), AllItems(other))
  {
    var queue := Queue(src.tables.registry);
    forall i | 0 <= i < |queue| ensures ItemOf(src, queue[i], i).doc == ItemOf(other, queue[i], i).doc {
      RowOrderIsIrrelevant(queue[i], src.tables, other.tables);
    }
  }

  /** Once new advisories are linked, the next run leaves the row of every server without a new link as it is. */
  lemma NewLinksRewriteOnlyLinked(src: Source, next: Source, more: seq<Link>, rows: map<string, Row>, s: Server)
    requires UniqueIds(src.tables.registry) && s in src.tables.registry && s.id != ""
    requires src.build == BuildDoc == next.build && src.digest == next.digest
    requires next.tables == WithLinks(src.tables, more) && forall l | l in more :: l.sid != s.id
    ensures var after := Pass(AllItems(src), |AllItems(src)|, rows).rows;
            var later := Pass(AllItems(next), |AllItems(next)|, after).rows;
            s.id in after && s.id in later && later[s.id] == after[s.id]
  {
    AllItemsAreUnique(src);
    AllItemsAreUnique(next);
    var i := TurnOf(src, s);
    var k := TurnOf(next, s);
    NewLinksTouchOnlyLinked(src.tables, more, s);
    RowAfter(AllItems(src), |AllItems(src)|, rows, i);
    RowAfter(AllItems(next), |AllItems(next)|, Pass(AllItems(src), |AllItems(src)|, rows).rows, k);
  }
}
