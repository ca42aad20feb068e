// AgentAPIService.list_tasks and what a client sees that follows next_cursor.
module TaskList {
  import opened Wrappers
  import opened Text
  import opened JsonSize
  import opened Base64Url
  import opened Paging

  const MAX_LIMIT := 100

  function CursorKey(c: JsonCodec, cursor: Text): Result<Option<Key>, Error> {
    if cursor == [] then Ok(None)
    else
      var k := DecodeCursor(c, cursor);
      if k.Err? then Err(k.error) else Ok(Some(k.value))
  }

  predicate AllTrusted(rows: seq<Row>) { forall i :: 0 <= i < |rows| ==> rows[i].trusted }

  function List(c: JsonCodec, table: seq<Row>, limit: int, cursor: Text): Result<Page, Error> {
    if limit < 1 || limit > MAX_LIMIT then Err(InvalidLimit)
    else
      var key := CursorKey(c, cursor);
      if key.Err? then Err(key.error)
      else
        var rows := ListTaskSummaries(table, key.value, limit + 1);
        var page := Take(rows, limit);
        if !AllTrusted(page) then Err(StateUntrusted)
        else Ok(Page(page, if |rows| > limit then Some(EncodeCursor(c, page[limit - 1].key)) else None))
  }

  class AgentAPIService {
    var tasks: seq<Row>

    // No status filter: every task the caller may see is listed.
    method ListTasks(c: JsonCodec, limit: int, cursor: Text) returns (r: Result<Page, Error>)
      ensures r == List(c, tasks, limit, cursor)
    {
      if limit < 1 || limit > MAX_LIMIT {
        return Err(InvalidLimit);
      }
      var key: Option<Key> := None;
      if cursor != [] {
        var decoded := DecodeCursor(c, cursor);
        if decoded.Err? {
          return Err(decoded.error);
        }
        key := Some(decoded.value);
      }
      var rows := ListTaskSummaries(tasks, key, limit + 1);
      var page := Take(rows, limit);
      var items: seq<Row> := [];
      var i := 0;
      while i < |page|
        invariant 0 <= i <= |page| && items == page[..i] && AllTrusted(items)
      {
        if !page[i].trusted {
          return Err(StateUntrusted);
        }
        items := items + [page[i]];
        i := i + 1;
      }
      assert items == page;
      var next: Option<Text> := None;
      if |rows| > limit {
        next := Some(EncodeCursor(c, page[|page| - 1].key));
      }
      return Ok(Page(items, next));
    }
  }

  // A page is refused for its limit exactly outside 1 to 100, and has no more rows than that.
  lemma LimitsAreChecked(c: JsonCodec, table: seq<Row>, limit: int, cursor: Text)
    requires Lawful(c)
    ensures limit < 1 || limit > 100 ==> List(c, table, limit, cursor) == Err(InvalidLimit)
    ensures List(c, table, limit, cursor).Ok? ==>
              && 1 <= limit <= 100 && |List(c, table, limit, cursor).value.rows| <= limit
              && AllTrusted(List(c, table, limit, cursor).value.rows)
  {}

  // ---- Following the cursor ------------------------------------------------------------------

  // One request of a client: the table as it is then, and the page returned.
  datatype Visit = Visit(table: seq<Row>, page: Page)

  // The cursor the client sends after these visits.
  function CursorAfter(run: seq<Visit>): Text {
    if run == [] || run[|run| - 1].page.next.None? then [] else run[|run| - 1].page.next.value
  }

  // A client that starts without a cursor and follows next_cursor; tables may differ
  // arbitrarily between its requests.
  ghost predicate IsRun(c: JsonCodec, limit: int, run: seq<Visit>)
    decreases |run|
  {
    run == [] ||
    var n := |run| - 1;
    && IsRun(c, limit, run[..n])
    && (n > 0 ==> run[n - 1].page.next.Some?)
    && DistinctIds(run[n].table)
    && List(c, run[n].table, limit, CursorAfter(run[..n])) == Ok(run[n].page)
  }

  function Keys(rows: seq<Row>): (r: seq<Key>)
    ensures |r| == |rows| && forall i :: 0 <= i < |rows| ==> r[i] == rows[i].key
  {
    seq(|rows|, i requires 0 <= i < |rows| => rows[i].key)
  }

  function Emitted(run: seq<Visit>): seq<Key>
    decreases |run|
  {
    if run == [] then [] else Emitted(run[..|run| - 1]) + Keys(run[|run| - 1].page.rows)
  }

  ghost predicate Falling(keys: seq<Key>) {
    forall i, j :: 0 <= i < j < |keys| ==> Before(keys[j], keys[i])
  }

  // A task is in every table of the run.
  ghost predicate Throughout(run: seq<Visit>, k: Key)
    decreases |run|
  {
    run == [] || (Throughout(run[..|run| - 1], k) && k in Keys(run[|run| - 1].table))
  }

  // What one page guarantees about the keys in the table and the keys it lists.
  ghost predicate Covers(listed: seq<Key>, limit: int, cursor: Option<Key>, keys: seq<Key>, more: bool) {
    && Falling(keys)
    && (forall k :: k in keys ==> k in listed && Matches(k, cursor))
    && (more ==> |keys| == limit > 0)
    && (forall k :: k in listed && Matches(k, cursor) && k !in keys ==> more && Before(k, keys[|keys| - 1]))
  }

  lemma KeyOfRow(rows: seq<Row>, k: Key)
    ensures k in Keys(rows) <==> exists i :: 0 <= i < |rows| && rows[i].key == k
  {
    if i :| 0 <= i < |rows| && rows[i].key == k {
      assert Keys(rows)[i] == k;
    }
  }

  lemma ListedKeys(table: seq<Row>, cursor: Option<Key>, rows: seq<Row>, k: Key)
    requires forall r :: r in rows ==> r in table && Matches(r.key, cursor)
    requires k in Keys(rows)
    ensures k in Keys(table) && Matches(k, cursor)
  {
    KeyOfRow(rows, k);
    var i :| 0 <= i < |rows| && rows[i].key == k;
    assert rows[i] in rows;
    var j :| 0 <= j < |table| && table[j] == rows[i];
    KeyOfRow(table, k);
  }

  // A matching key the page leaves out follows the page's last key.
  lemma LeftOut(table: seq<Row>, cursor: Option<Key>, limit: nat, r: Row)
    requires DistinctIds(table) && limit > 0 && r in table && Matches(r.key, cursor)
    requires r.key !in Keys(Take(ListTaskSummaries(table, cursor, limit + 1), limit))
    ensures var rows := ListTaskSummaries(table, cursor, limit + 1);
      |rows| == limit + 1 && Before(r.key, rows[limit - 1].key)
  {
    var rows := ListTaskSummaries(table, cursor, limit + 1);
    QueryIs(table, cursor, limit + 1);
    var page := Take(rows, limit);
    KeyOfRow(page, r.key);
    assert forall i :: 0 <= i < |page| ==> page[i] == rows[i] && rows[i] != r;
    if r in rows {
      var i :| 0 <= i < |rows| && rows[i] == r;
    }
  }

  lemma QueryFalls(table: seq<Row>, cursor: Option<Key>, limit: nat)
    requires DistinctIds(table)
    ensures var rows := ListTaskSummaries(table, cursor, limit + 1);
      Falling(Keys(Take(rows, limit)))
      && forall k :: k in Keys(Take(rows, limit)) ==> k in Keys(table) && Matches(k, cursor)
  {
    QueryIs(table, cursor, limit + 1);
    var rows := ListTaskSummaries(table, cursor, limit + 1);
    var page := Take(rows, limit);
    forall r | r in page ensures r in rows {}
    forall k | k in Keys(page) ensures k in Keys(table) && Matches(k, cursor) {
      ListedKeys(table, cursor, page, k);
    }
  }

  lemma QueryLeavesOut(table: seq<Row>, cursor: Option<Key>, limit: nat, k: Key)
    requires DistinctIds(table) && limit > 0 && k in Keys(table) && Matches(k, cursor)
    requires k !in Keys(Take(ListTaskSummaries(table, cursor, limit + 1), limit))
    ensures var rows := ListTaskSummaries(table, cursor, limit + 1);
      |rows| > limit && Before(k, rows[limit - 1].key)
  {
    KeyOfRow(table, k);
    var j :| 0 <= j < |table| && table[j].key == k;
    LeftOut(table, cursor, limit, table[j]);
  }

  lemma QueryCovers(table: seq<Row>, cursor: Option<Key>, limit: nat)
    requires DistinctIds(table) && limit > 0
    ensures var rows := ListTaskSummaries(table, cursor, limit + 1);
      Covers(Keys(table), limit, cursor, Keys(Take(rows, limit)), |rows| > limit)
  {
    var rows := ListTaskSummaries(table, cursor, limit + 1);
    var keys := Keys(Take(rows, limit));
    QueryFalls(table, cursor, limit);
    forall k | k in Keys(table) && Matches(k, cursor) && k !in keys
      ensures |rows| > limit && Before(k, keys[|keys| - 1])
    {
      QueryLeavesOut(table, cursor, limit, k);
    }
  }

  lemma OnePage(c: JsonCodec, table: seq<Row>, limit: int, cursor: Text, page: Page)
    requires DistinctIds(table) && List(c, table, limit, cursor) == Ok(page)
    ensures CursorKey(c, cursor).Ok?
    ensures Covers(Keys(table), limit, CursorKey(c, cursor).value, Keys(page.rows), page.next.Some?)
    ensures page.next.Some? ==> |page.rows| == limit > 0 && page.next.value == EncodeCursor(c, page.rows[limit - 1].key)
  {
    QueryCovers(table, CursorKey(c, cursor).value, limit);
  }

  // The cursor a page hands out leads on from its last key.
  lemma NextLeadsOn(c: JsonCodec, k: Key)
    requires Lawful(c) && CursorKey(c, EncodeCursor(c, k)).Ok?
    ensures CursorKey(c, EncodeCursor(c, k)).value == Some(k)
  {
    CursorRoundTrip(c, k);
    CursorIsNotEmpty(c, k);
  }

  lemma CursorIsNotEmpty(c: JsonCodec, k: Key)
    requires Lawful(c)
    ensures EncodeCursor(c, k) != []
  {
    PayloadSize(k);
    assert c.loads(c.dumps(Payload(k))) == Some(Payload(k));
  }

  // After some pages: a falling list of keys, whole pages as long as there is a next one, and
  // every task present throughout already listed or still ahead.
  ghost predicate Progress(limit: int, run: seq<Visit>)
    requires run != []
  {
    Whole(limit, Emitted(run), |run|, run[|run| - 1].page) && NothingMissed(run, Emitted(run))
  }

  ghost predicate Whole(limit: int, out: seq<Key>, pages: nat, last: Page) {
    && Falling(out)
    && (last.next.Some? ==>
          && limit > 0 && |last.rows| == limit && out != [] && |out| == pages * limit
          && out[|out| - 1] == last.rows[limit - 1].key)
  }

  ghost predicate NothingMissed(run: seq<Visit>, out: seq<Key>)
    requires run != []
  {
    forall k :: Throughout(run, k) && k !in out ==>
      run[|run| - 1].page.next.Some? && out != [] && Before(k, out[|out| - 1])
  }

  lemma FallingOn(out: seq<Key>, keys: seq<Key>)
    requires Falling(out) && Falling(keys) && out != []
    requires forall k :: k in keys ==> Before(k, out[|out| - 1])
    ensures Falling(out + keys)
  {
    forall i, j | 0 <= i < |out| && 0 <= j < |keys| ensures Before(keys[j], out[i]) {
      assert keys[j] in keys;
      if i < |out| - 1 {
        BeforeTransitive(keys[j], out[|out| - 1], out[i]);
      }
    }
  }

  lemma LastPage(c: JsonCodec, limit: int, run: seq<Visit>)
    requires IsRun(c, limit, run) && run != []
    ensures var n := |run| - 1; var cursor, page := CursorAfter(run[..n]), run[n].page;
      && CursorKey(c, cursor).Ok?
      && Covers(Keys(run[n].table), limit, CursorKey(c, cursor).value, Keys(page.rows), page.next.Some?)
      && (page.next.Some? ==> |page.rows| == limit > 0)
      && (page.next.Some? ==> page.next.value == EncodeCursor(c, page.rows[limit - 1].key))
  {
    var n := |run| - 1;
    OnePage(c, run[n].table, limit, CursorAfter(run[..n]), run[n].page);
  }

  // Putting a page after what was listed so far.
  lemma Advance(before: seq<Key>, listed: seq<Key>, limit: int, keys: seq<Key>, more: bool, k: Key)
    requires before != [] && Falling(before) && Covers(listed, limit, Some(before[|before| - 1]), keys, more)
    ensures Falling(before + keys)
    ensures more ==> |before + keys| == |before| + limit && (before + keys)[|before + keys| - 1] == keys[limit - 1]
    ensures k in listed && k !in before + keys && Before(k, before[|before| - 1]) ==>
              more && Before(k, (before + keys)[|before + keys| - 1])
  {
    FallingOn(before, keys);
    assert k !in before + keys ==> k !in keys;
  }

  lemma StillAhead(limit: int, run: seq<Visit>, k: Key)
    requires |run| > 1 && Throughout(run, k) && k !in Emitted(run)
    requires Progress(limit, run[..|run| - 1])
    ensures var before := Emitted(run[..|run| - 1]);
      k in Keys(run[|run| - 1].table) && before != [] && Before(k, before[|before| - 1])
  {}

  lemma NextPage(limit: int, run: seq<Visit>, last: Key)
    requires |run| > 1 && Progress(limit, run[..|run| - 1]) && run[|run| - 2].page.next.Some?
    requires last == run[|run| - 2].page.rows[limit - 1].key
    requires var page := run[|run| - 1].page;
      Covers(Keys(run[|run| - 1].table), limit, Some(last), Keys(page.rows), page.next.Some?)
    ensures Progress(limit, run)
  {
    var n := |run| - 1;
    var before, listed := Emitted(run[..n]), Keys(run[n].table);
    var keys, more := Keys(run[n].page.rows), run[n].page.next.Some?;
    assert run[..n][n - 1] == run[n - 1];
    Advance(before, listed, limit, keys, more, last);
    forall k | Throughout(run, k) && k !in Emitted(run)
      ensures more && Before(k, Emitted(run)[|Emitted(run)| - 1])
    {
      StillAhead(limit, run, k);
      Advance(before, listed, limit, keys, more, k);
    }
    assert |before| + limit == |run| * limit;
  }

  lemma FirstPage(limit: int, v: Visit)
    requires Covers(Keys(v.table), limit, None, Keys(v.page.rows), v.page.next.Some?)
    ensures Progress(limit, [v])
  {
    OnlyVisit(v);
    NothingMissedAtFirst(v, limit);
    assert |[v]| * limit == limit;
    assert Whole(limit, Keys(v.page.rows), 1, v.page);
  }

  lemma NothingMissedAtFirst(v: Visit, limit: int)
    requires Covers(Keys(v.table), limit, None, Keys(v.page.rows), v.page.next.Some?)
    ensures NothingMissed([v], Keys(v.page.rows))
  {
    var out := Keys(v.page.rows);
    forall k | Throughout([v], k) && k !in out
      ensures v.page.next.Some? && out != [] && Before(k, out[|out| - 1])
    {
      OnlyTable(v, k);
    }
  }

  lemma OnlyVisit(v: Visit)
    ensures Emitted([v]) == Keys(v.page.rows)
  {
    assert [v][..0] == [];
    assert Emitted([v]) == Emitted([v][..0]) + Keys(v.page.rows);
  }

  lemma OnlyTable(v: Visit, k: Key)
    requires Throughout([v], k)
    ensures k in Keys(v.table)
  {}

  lemma InitIsRun(c: JsonCodec, limit: int, run: seq<Visit>)
    requires IsRun(c, limit, run) && |run| > 1
    ensures IsRun(c, limit, run[..|run| - 1]) && run[|run| - 2].page.next.Some?
    ensures CursorAfter(run[..|run| - 1]) == run[|run| - 2].page.next.value
  {}

  lemma {:induction false} RunProgresses(c: JsonCodec, limit: int, run: seq<Visit>)
    requires Lawful(c) && IsRun(c, limit, run) && run != []
    ensures Progress(limit, run)
    decreases |run|
  {
    LastPage(c, limit, run);
    if |run| == 1 {
      assert run[..0] == [] && run == [run[0]];
      FirstPage(limit, run[0]);
    } else {
      InitIsRun(c, limit, run);
      RunProgresses(c, limit, run[..|run| - 1]);
      LastCursor(c, limit, run);
      NextPage(limit, run, run[|run| - 2].page.rows[limit - 1].key);
    }
  }

  // The cursor sent for the last page stands for the last key of the page before.
  lemma LastCursor(c: JsonCodec, limit: int, run: seq<Visit>)
    requires Lawful(c) && IsRun(c, limit, run) && |run| > 1
    ensures limit > 0 && |run[|run| - 2].page.rows| == limit
    ensures CursorKey(c, CursorAfter(run[..|run| - 1])) == Ok(Some(run[|run| - 2].page.rows[limit - 1].key))
  {
    InitIsRun(c, limit, run);
    LastPage(c, limit, run[..|run| - 1]);
    LastPage(c, limit, run);
    NextLeadsOn(c, run[|run| - 2].page.rows[limit - 1].key);
  }

  // A client that follows next_cursor to the end has seen every task that was there
  // throughout, each task at most once and in strictly descending order, whatever was inserted,
  // removed or rewritten between its requests.
  lemma PagesCoverTheList(c: JsonCodec, limit: int, run: seq<Visit>, k: Key)
    requires Lawful(c) && IsRun(c, limit, run) && run != []
    ensures Falling(Emitted(run))
    ensures run[|run| - 1].page.next.None? && Throughout(run, k) ==>
              exists i :: 0 <= i < |Emitted(run)| && Emitted(run)[i] == k
                          && forall j :: 0 <= j < |Emitted(run)| && Emitted(run)[j] == k ==> j == i
  {
    RunProgresses(c, limit, run);
    if run[|run| - 1].page.next.None? && Throughout(run, k) {
      var out := Emitted(run);
      var i :| 0 <= i < |out| && out[i] == k;
      BeforeIrreflexive(k);
    }
  }

  function Elements<T>(s: seq<T>): set<T> { set x | x in s }

  lemma ElementsOf<T>(init: seq<T>, last: T)
    ensures Elements(init + [last]) == Elements(init) + {last}
  {}

  lemma LastIsNew(init: seq<Key>, last: Key)
    requires Falling(init + [last])
    ensures Falling(init) && last !in init
  {
    var keys := init + [last];
    forall i | 0 <= i < |init| ensures init[i] != last {
      assert Before(keys[|init|], keys[i]);
      BeforeIrreflexive(last);
    }
    forall i, j | 0 <= i < j < |init| ensures Before(init[j], init[i]) {
      assert Before(keys[j], keys[i]);
    }
  }

  lemma {:induction false} FallingIsDistinct(keys: seq<Key>)
    requires Falling(keys)
    ensures |Elements(keys)| == |keys|
  {
    if keys != [] {
      var init, last := keys[..|keys| - 1], keys[|keys| - 1];
      assert keys == init + [last];
      LastIsNew(init, last);
      FallingIsDistinct(init);
      ElementsOf(init, last);
    }
  }

  lemma {:induction false} EmittedIsListed(c: JsonCodec, limit: int, run: seq<Visit>, k: Key) returns (i: nat)
    requires IsRun(c, limit, run) && k in Emitted(run)
    ensures i < |run| && k in Keys(run[i].table)
    decreases |run|
  {
    i := |run| - 1;
    OnePage(c, run[i].table, limit, CursorAfter(run[..i]), run[i].page);
    if k !in Keys(run[i].page.rows) {
      i := EmittedIsListed(c, limit, run[..i], k);
    }
  }

  // At the first listed key or after it.
  predicate NotAhead(k: Key, out: seq<Key>) {
    out != [] && (k == out[0] || Before(k, out[0]))
  }

  // It terminates, whatever is inserted between pages: as long as there is a next cursor, the
  // pages so far fit into any set that holds every listed task not newer than the first one.
  lemma PagingEnds(c: JsonCodec, limit: int, run: seq<Visit>, universe: set<Key>)
    requires Lawful(c) && IsRun(c, limit, run) && run != []
    requires forall i, k {:trigger k in Keys(run[i].table)} ::
               0 <= i < |run| && k in Keys(run[i].table) && NotAhead(k, Emitted(run)) ==> k in universe
    ensures run[|run| - 1].page.next.Some? ==> |run| * limit <= |universe|
  {
    RunProgresses(c, limit, run);
    var out := Emitted(run);
    assert run[|run| - 1].page.next.Some? ==> |out| == |run| * limit;
    forall k | k in out ensures k in universe {
      var j :| 0 <= j < |out| && out[j] == k;
      var i := EmittedIsListed(c, limit, run, k);
      assert k in Keys(run[i].table);
    }
    FallingIsDistinct(out);
    SubsetSize(Elements(out), universe);
  }

  lemma NotAheadIsNotNewer(k: Key, out: seq<Key>)
    requires NotAhead(k, out)
    ensures !Before(out[0], k)
  {
    if Before(out[0], k) {
      if k != out[0] {
        BeforeTransitive(k, out[0], k);
      }
      BeforeIrreflexive(k);
    }
  }

  // So tasks that arrive newer than the first listed one cost no page at all: the pages are as
  // many as the first table fills.
  lemma NewerTasksCostNoPage(c: JsonCodec, limit: int, run: seq<Visit>)
    requires Lawful(c) && IsRun(c, limit, run) && run != [] && Emitted(run) != []
    requires forall i, k {:trigger k in Keys(run[i].table)} ::
               0 < i < |run| && k in Keys(run[i].table) ==> k in Keys(run[0].table) || Before(Emitted(run)[0], k)
    ensures run[|run| - 1].page.next.Some? ==> |run| * limit <= |run[0].table|
  {
    OldTasksOnly(run, Emitted(run));
    PagingEnds(c, limit, run, Elements(Keys(run[0].table)));
    AtMostAsMany(Keys(run[0].table));
  }

  lemma OldTasksOnly(run: seq<Visit>, out: seq<Key>)
    requires run != [] && out != []
    requires forall i, k {:trigger k in Keys(run[i].table)} ::
               0 < i < |run| && k in Keys(run[i].table) ==> k in Keys(run[0].table) || Before(out[0], k)
    ensures forall i, k {:trigger k in Keys(run[i].table)} ::
              0 <= i < |run| && k in Keys(run[i].table) && NotAhead(k, out) ==> k in Elements(Keys(run[0].table))
  {
    forall i, k {:trigger k in Keys(run[i].table)}
      | 0 <= i < |run| && k in Keys(run[i].table) && NotAhead(k, out)
      ensures k in Elements(Keys(run[0].table))
    {
      NotAheadIsNotNewer(k, out);
    }
  }

  lemma {:induction false} AtMostAsMany<T>(s: seq<T>)
    ensures |Elements(s)| <= |s|
  {
    if s != [] {
      var init, last := s[..|s| - 1], s[|s| - 1];
      assert s == init + [last];
      AtMostAsMany(init);
      ElementsOf(init, last);
    }
  }

  lemma SubsetSize<T>(a: set<T>, b: set<T>)
    requires a <= b
    ensures |a| <= |b|
  {
    assert b == a + (b - a);
  }

  // A page's cursor can be followed unless its last key does not fit a cursor.
  lemma FollowingFailsExactly(c: JsonCodec, table: seq<Row>, limit: int, cursor: Text, page: Page)
    requires Lawful(c) && DistinctIds(table) && List(c, table, limit, cursor) == Ok(page) && page.next.Some?
    ensures CursorKey(c, page.next.value).Ok? <==> Addressable(page.rows[limit - 1].key)
  {
    OnePage(c, table, limit, cursor, page);
    CursorRoundTrip(c, page.rows[limit - 1].key);
    CursorIsNotEmpty(c, page.rows[limit - 1].key);
  }
}
