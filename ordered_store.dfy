/**
 * The document store as the app's pagers see it: one query gives an ordered
 * result set, a document snapshot remembers its place in that result set,
 * and `startAfter(snapshot)` + `limit(k)` returns the next `k` documents.
 */
module OrderedStore {
  import opened Wrappers
  import Arith

  /** A document snapshot: its position in the query's ordered result set and its data. */
  datatype Snapshot<T> = Snapshot(pos: nat, data: T)

  /** Where a query resumes: the start without a cursor, just after the cursor otherwise. */
  function StartOf<T>(cursor: Option<Snapshot<T>>): nat {
    match cursor
    case None => 0
    case Some(d) => d.pos + 1
  }

  /** How many documents a page starting at `start` holds. */
  function PageLength(total: nat, start: nat, k: nat): nat {
    if start >= total then 0 else Min(k, total - start)
  }

  /** `query(rows, startAfter(cursor)?, limit(k))`: the next `k` documents after the cursor. */
  function Query<T>(rows: seq<T>, cursor: Option<Snapshot<T>>, k: nat): (page: seq<Snapshot<T>>)
    ensures |page| <= k
    ensures StartOf(cursor) + |page| <= |rows| || page == []
    ensures |page| < k ==> StartOf(cursor) + |page| >= |rows|
    ensures forall i :: 0 <= i < |page| ==>
              page[i].pos == StartOf(cursor) + i && page[i].data == rows[StartOf(cursor) + i]
  {
    var start := StartOf(cursor);
    var n := PageLength(|rows|, start, k);
    seq(n, i requires 0 <= i < n => Snapshot(start + i, rows[start + i]))
  }

  /** `snapshot.docs.map(d => d.data())`. */
  function Data<T>(page: seq<Snapshot<T>>): (r: seq<T>)
    ensures |r| == |page| && forall i :: 0 <= i < |page| ==> r[i] == page[i].data
  {
    seq(|page|, i requires 0 <= i < |page| => page[i].data)
  }

  /** `docs[docs.length - 1] ?? null`. */
  function LastDoc<T>(page: seq<Snapshot<T>>): (r: Option<Snapshot<T>>)
    ensures r.None? <==> page == []
    ensures r.Some? ==> r.value == page[|page| - 1]
  {
    if page == [] then None else Some(page[|page| - 1])
  }

  /** A page holds exactly the documents of the result set that follow the cursor, up to `k`. */
  lemma QueryData<T>(rows: seq<T>, cursor: Option<Snapshot<T>>, k: nat)
    requires StartOf(cursor) <= |rows|
    ensures Data(Query(rows, cursor, k)) == rows[StartOf(cursor)..StartOf(cursor) + |Query(rows, cursor, k)|]
  {
  }

  /** Resuming after a page's last document continues exactly where the page stopped. */
  lemma LastDocResumes<T>(rows: seq<T>, cursor: Option<Snapshot<T>>, k: nat)
    requires Query(rows, cursor, k) != []
    ensures StartOf(LastDoc(Query(rows, cursor, k))) == StartOf(cursor) + |Query(rows, cursor, k)|
  {
  }

  function Remaining<T>(rows: seq<T>, cursor: Option<Snapshot<T>>): nat {
    if StartOf(cursor) <= |rows| then |rows| - StartOf(cursor) else 0
  }

  /**
   * Paging as the infinite-scroll pagers do it: fetch a page, stop after a
   * page shorter than `k`, otherwise resume after its last document.
   */
  function Drain<T>(rows: seq<T>, cursor: Option<Snapshot<T>>, k: nat): seq<T>
    requires k > 0
    decreases Remaining(rows, cursor)
  {
    var page := Query(rows, cursor, k);
    if |page| < k then Data(page)
    else Data(page) + Drain(rows, LastDoc(page), k)
  }

  /** Number of queries `Drain` issues: one extra, empty query when the remainder is a multiple of `k`. */
  function DrainQueries<T>(rows: seq<T>, cursor: Option<Snapshot<T>>, k: nat): nat
    requires k > 0
    decreases Remaining(rows, cursor)
  {
    var page := Query(rows, cursor, k);
    if |page| < k then 1 else 1 + DrainQueries(rows, LastDoc(page), k)
  }

  /** One query of `Drain`: its page, then the rest from the page's last document if the page was full. */
  lemma DrainStep<T>(rows: seq<T>, cursor: Option<Snapshot<T>>, k: nat)
    requires k > 0
    ensures var page := Query(rows, cursor, k);
            Drain(rows, cursor, k) == Data(page) + (if |page| < k then [] else Drain(rows, LastDoc(page), k))
            && DrainQueries(rows, cursor, k) == 1 + (if |page| < k then 0 else DrainQueries(rows, LastDoc(page), k))
  {
    var page := Query(rows, cursor, k);
    if |page| < k {
      assert Data(page) + [] == Data(page);
    }
  }

  /** Draining from a cursor yields every document after it, in order, exactly once. */
  lemma {:induction false} DrainAll<T>(rows: seq<T>, cursor: Option<Snapshot<T>>, k: nat)
    requires k > 0 && StartOf(cursor) <= |rows|
    ensures Drain(rows, cursor, k) == rows[StartOf(cursor)..]
    decreases Remaining(rows, cursor)
  {
    var page := Query(rows, cursor, k);
    if |page| < k {
      ShortPageIsRest(rows, cursor, k);
    } else {
      LastDocResumes(rows, cursor, k);
      DrainAll(rows, LastDoc(page), k);
      FullPageSplits(rows, cursor, k);
    }
  }

  /** A page shorter than `k` holds all the documents after the cursor. */
  lemma ShortPageIsRest<T>(rows: seq<T>, cursor: Option<Snapshot<T>>, k: nat)
    requires StartOf(cursor) <= |rows| && |Query(rows, cursor, k)| < k
    ensures Data(Query(rows, cursor, k)) == rows[StartOf(cursor)..]
  {
    QueryData(rows, cursor, k);
  }

  /** A full page is followed by the documents after its last one. */
  lemma FullPageSplits<T>(rows: seq<T>, cursor: Option<Snapshot<T>>, k: nat)
    requires k > 0 && StartOf(cursor) <= |rows| && |Query(rows, cursor, k)| == k
    ensures StartOf(cursor) + k <= |rows|
    ensures Data(Query(rows, cursor, k)) + rows[StartOf(cursor) + k..] == rows[StartOf(cursor)..]
  {
    var start := StartOf(cursor);
    QueryData(rows, cursor, k);
    assert rows[start..] == rows[start..start + k] + rows[start + k..];
  }

  /** Draining issues one query per full page plus the final short (possibly empty) one. */
  lemma {:induction false} DrainQueryCount<T>(rows: seq<T>, cursor: Option<Snapshot<T>>, k: nat)
    requires k > 0 && StartOf(cursor) <= |rows|
    ensures DrainQueries(rows, cursor, k) == Remaining(rows, cursor) / k + 1
    decreases Remaining(rows, cursor)
  {
    var page := Query(rows, cursor, k);
    if |page| == k {
      LastDocResumes(rows, cursor, k);
      DrainQueryCount(rows, LastDoc(page), k);
      Arith.DivStep(Remaining(rows, LastDoc(page)), k);
    }
  }
}
