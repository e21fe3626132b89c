/**
  The chat history over a table that does not change: the paged listing (`getChatHistory`)
  and the batched export (`iterateChatHistoryForExport`) of chat.service.ts. Both start from
  the rows that match the same filter.
*/
module HistoryExport {
  import opened Common

  /** A matching row; `id` stands for the position of its string id in the database's collation. */
  datatype Row = Row(id: int, closedAt: int)

  const PAGE_SIZE := 20

  datatype Order = ByIdDesc | ByClosedAtDesc

  /** Equal closing times are broken by one fixed order. */
  predicate Precedes(o: Order, a: Row, b: Row) {
    match o
    case ByIdDesc => a.id > b.id
    case ByClosedAtDesc => a.closedAt > b.closedAt || (a.closedAt == b.closedAt && a.id > b.id)
  }

  predicate DistinctIds(rows: seq<Row>) {
    forall i, j :: 0 <= i < j < |rows| ==> rows[i].id != rows[j].id
  }

  ghost predicate Ordered(o: Order, rows: seq<Row>) {
    forall i, j :: 0 <= i < j < |rows| ==> Precedes(o, rows[i], rows[j])
  }

  // ---------------------------------------------------------------- orderBy

  function Insert(o: Order, r: Row, rows: seq<Row>): seq<Row> {
    if rows == [] || Precedes(o, r, rows[0]) then [r] + rows else [rows[0]] + Insert(o, r, rows[1..])
  }

  function Sort(o: Order, rows: seq<Row>): seq<Row> {
    if rows == [] then [] else Insert(o, rows[0], Sort(o, rows[1..]))
  }

  lemma {:induction false} InsertElements(o: Order, r: Row, rows: seq<Row>)
    ensures multiset(Insert(o, r, rows)) == multiset{r} + multiset(rows)
  {
    if rows != [] && !Precedes(o, r, rows[0]) {
      InsertElements(o, r, rows[1..]);
      assert rows == [rows[0]] + rows[1..];
    }
  }

  lemma {:induction false} InsertOrdered(o: Order, r: Row, rows: seq<Row>)
    requires Ordered(o, rows) && forall i :: 0 <= i < |rows| ==> rows[i].id != r.id
    ensures Ordered(o, Insert(o, r, rows))
  {
    if rows != [] && !Precedes(o, r, rows[0]) {
      InsertOrdered(o, r, rows[1..]);
      InsertElements(o, r, rows[1..]);
      var rest := Insert(o, r, rows[1..]);
      forall i | 0 <= i < |rest| ensures Precedes(o, rows[0], rest[i]) {
        assert rest[i] in multiset(rest);
        if rest[i] != r {
          assert rest[i] in multiset(rows[1..]);
          var j :| 0 <= j < |rows[1..]| && rows[1..][j] == rest[i];
          assert Precedes(o, rows[0], rows[j + 1]);
        }
      }
    }
  }

  lemma {:induction false} SortShape(o: Order, rows: seq<Row>)
    requires DistinctIds(rows)
    ensures multiset(Sort(o, rows)) == multiset(rows)
    ensures Ordered(o, Sort(o, rows)) && |Sort(o, rows)| == |rows|
  {
    if rows != [] {
      assert rows == [rows[0]] + rows[1..];
      SortShape(o, rows[1..]);
      var sorted := Sort(o, rows[1..]);
      forall i | 0 <= i < |sorted| ensures sorted[i].id != rows[0].id {
        assert sorted[i] in multiset(sorted);
        assert sorted[i] in rows[1..];
      }
      InsertElements(o, rows[0], sorted);
      InsertOrdered(o, rows[0], sorted);
      assert |Sort(o, rows)| == |multiset(Sort(o, rows))|;
    }
  }

  lemma OrderedDistinct(rows: seq<Row>)
    requires Ordered(ByIdDesc, rows)
    ensures DistinctIds(rows)
  {
    forall i, j | 0 <= i < j < |rows| ensures rows[i].id != rows[j].id {
      assert Precedes(ByIdDesc, rows[i], rows[j]);
    }
  }

  // ---------------------------------------------------------------- findMany

  /** Position of the row with the id; the length when there is none. */
  function Position(rows: seq<Row>, id: int): (k: nat)
    ensures k <= |rows|
  {
    if rows == [] || rows[0].id == id then 0 else 1 + Position(rows[1..], id)
  }

  function Slice(rows: seq<Row>, skip: nat, take: nat): seq<Row> {
    if skip >= |rows| then []
    else if skip + take >= |rows| then rows[skip..]
    else rows[skip..skip + take]
  }

  /** Sorted rows from the cursor's row on, then `skip`, then `take`. */
  function FindMany(o: Order, rows: seq<Row>, cursor: Option<int>, skip: nat, take: nat): seq<Row> {
    var sorted := Sort(o, rows);
    Slice(if cursor.Some? then sorted[Position(sorted, cursor.value)..] else sorted, skip, take)
  }

  lemma {:induction false} PositionOf(rows: seq<Row>, k: nat)
    requires DistinctIds(rows) && k < |rows|
    ensures Position(rows, rows[k].id) == k
  {
    if k > 0 {
      PositionOf(rows[1..], k - 1);
    }
  }

  // ---------------------------------------------------------------- the export

  function Flatten(batches: seq<seq<Row>>): seq<Row> {
    if batches == [] then [] else batches[0] + Flatten(batches[1..])
  }

  lemma {:induction false} FlattenSnoc(batches: seq<seq<Row>>, last: seq<Row>)
    ensures Flatten(batches + [last]) == Flatten(batches) + last
  {
    if batches == [] {
      assert batches + [last] == [last];
    } else {
      assert (batches + [last])[1..] == batches[1..] + [last];
      FlattenSnoc(batches[1..], last);
    }
  }

  /** Up to `take` rows from position `k` on. */
  function From(sorted: seq<Row>, k: nat, take: nat): seq<Row>
    requires k <= |sorted|
  {
    if k + take >= |sorted| then sorted[k..] else sorted[k..k + take]
  }

  lemma SliceIsFrom(sorted: seq<Row>, k: nat, take: nat)
    requires k <= |sorted|
    ensures Slice(sorted, k, take) == From(sorted, k, take)
    ensures k > 0 ==> Slice(sorted[k - 1..], 1, take) == From(sorted, k, take)
  {
    if k > 0 {
      var tail := sorted[k - 1..];
      if 1 + take >= |tail| {
        assert tail[1..] == sorted[k..];
      } else {
        assert tail[1..1 + take] == sorted[k..k + take];
      }
    }
  }

  /** The query for the batch after the first `k` rows, through the cursor of the last of them. */
  lemma NextBatch(rows: seq<Row>, k: nat, batchSize: nat, cursor: Option<int>)
    requires DistinctIds(rows) && k <= |Sort(ByIdDesc, rows)|
    requires cursor == if k == 0 then None else Some(Sort(ByIdDesc, rows)[k - 1].id)
    ensures FindMany(ByIdDesc, rows, cursor, if k == 0 then 0 else 1, batchSize)
         == From(Sort(ByIdDesc, rows), k, batchSize)
  {
    hide Sort;
    var sorted := Sort(ByIdDesc, rows);
    SortShape(ByIdDesc, rows);
    OrderedDistinct(sorted);
    SliceIsFrom(sorted, k, batchSize);
    if k > 0 {
      PositionOf(sorted, k - 1);
    }
  }

  /**
    The cursor loop ends, and its batches, none of them empty or larger than asked for,
    concatenate to all matching rows in descending id order. A batch size of zero exports nothing.
  */
  method IterateChatHistoryForExport(rows: seq<Row>, batchSize: nat) returns (batches: seq<seq<Row>>)
    requires DistinctIds(rows)
    ensures batchSize == 0 ==> batches == []
    ensures batchSize > 0 ==> Flatten(batches) == Sort(ByIdDesc, rows)
    ensures forall i :: 0 <= i < |batches| ==> 0 < |batches[i]| <= batchSize
  {
    hide Sort;
    hide FindMany;
    hide Flatten;
    batches := [];
    var cursor := None;
    ghost var sorted := Sort(ByIdDesc, rows);
    ghost var k := 0;
    FlattenNothing();
    while true
      invariant k <= |sorted| && Flatten(batches) == sorted[..k]
      invariant cursor == if k == 0 then None else Some(sorted[k - 1].id)
      invariant batchSize == 0 ==> batches == []
      invariant forall i :: 0 <= i < |batches| ==> 0 < |batches[i]| <= batchSize
      decreases |sorted| - k
    {
      NextBatch(rows, k, batchSize, cursor);
      var items := FindMany(ByIdDesc, rows, cursor, if cursor == None then 0 else 1, batchSize);
      if |items| == 0 {
        return;
      }
      FlattenSnoc(batches, items);
      assert sorted[..k] + items == sorted[..k + |items|];
      batches := batches + [items];
      k := k + |items|;
      if |items| < batchSize {
        return;
      }
      cursor := Some(items[|items| - 1].id);
    }
  }

  lemma FlattenNothing()
    ensures Flatten([]) == []
  {}

  // ---------------------------------------------------------------- the listing

  function HistoryPage(rows: seq<Row>, page: nat): seq<Row>
    requires page >= 1
  {
    FindMany(ByClosedAtDesc, rows, None, (page - 1) * PAGE_SIZE, PAGE_SIZE)
  }

  /** Pages 1 up to `n`, one after the other. */
  function Pages(rows: seq<Row>, n: nat): seq<Row> {
    if n == 0 then [] else Pages(rows, n - 1) + HistoryPage(rows, n)
  }

  lemma {:induction false} PagesArePrefix(rows: seq<Row>, n: nat)
    ensures
      var sorted := Sort(ByClosedAtDesc, rows);
      Pages(rows, n) == if n * PAGE_SIZE >= |sorted| then sorted else sorted[..n * PAGE_SIZE]
  {
    if n > 0 {
      PagesArePrefix(rows, n - 1);
    }
  }

  /**
    Leafing through all pages of the listing shows exactly the rows of the export, each once,
    although the two orders differ.
  */
  lemma ExportIsWhatIsListed(rows: seq<Row>, exported: seq<Row>, n: nat)
    requires DistinctIds(rows) && exported == Sort(ByIdDesc, rows) && n * PAGE_SIZE >= |rows|
    ensures multiset(exported) == multiset(rows) == multiset(Pages(rows, n))
    ensures Ordered(ByIdDesc, exported) && Ordered(ByClosedAtDesc, Pages(rows, n))
    ensures forall r :: r in rows ==> multiset(Pages(rows, n))[r] == 1
  {
    SortShape(ByIdDesc, rows);
    SortShape(ByClosedAtDesc, rows);
    PagesArePrefix(rows, n);
    forall r | r in rows ensures multiset(rows)[r] == 1 {
      OncePerRow(rows, r);
    }
  }

  lemma {:induction false} OncePerRow(rows: seq<Row>, r: Row)
    requires DistinctIds(rows) && r in rows
    ensures multiset(rows)[r] == 1
  {
    assert rows == [rows[0]] + rows[1..];
    if rows[0] == r {
      assert r !in rows[1..];
    } else {
      OncePerRow(rows[1..], r);
    }
  }

  /** Both orders in plain terms: the export by falling id, the listing by closing time, latest first, in pages of 20. */
  lemma OrdersMean(rows: seq<Row>, exported: seq<Row>, i: nat, j: nat)
    requires DistinctIds(rows) && exported == Sort(ByIdDesc, rows) && i < j < |exported|
    ensures exported[i].id > exported[j].id
    ensures |Sort(ByClosedAtDesc, rows)| == |rows|
    ensures j < |rows| && Sort(ByClosedAtDesc, rows)[i].closedAt >= Sort(ByClosedAtDesc, rows)[j].closedAt
  {
    hide Sort;
    SortShape(ByIdDesc, rows);
    SortShape(ByClosedAtDesc, rows);
    assert Precedes(ByIdDesc, exported[i], exported[j]);
    assert Precedes(ByClosedAtDesc, Sort(ByClosedAtDesc, rows)[i], Sort(ByClosedAtDesc, rows)[j]);
  }

  /** The `k`-th row of a page is the row that many places after the pages before it. */
  lemma PageRow(rows: seq<Row>, page: nat, k: nat)
    requires DistinctIds(rows) && page >= 1
    ensures k < |HistoryPage(rows, page)| <==> k < 20 && (page - 1) * 20 + k < |rows|
    ensures k < |HistoryPage(rows, page)| ==>
      && |Sort(ByClosedAtDesc, rows)| == |rows|
      && HistoryPage(rows, page)[k] == Sort(ByClosedAtDesc, rows)[(page - 1) * 20 + k]
  {
    hide Sort;
    SortShape(ByClosedAtDesc, rows);
  }
}
