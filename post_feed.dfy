/**
 * The infinite-scroll post loaders of the main feed (PostComponent) and the
 * profile feed (ProfileFeedLayout): a single-flight guard, a cursor kept
 * across loads, an append that drops posts whose id is already listed, and
 * `hasMore` taken from the raw page length. The main feed starts empty and
 * reads all posts 9 at a time; the profile feed starts from the posts it is
 * given and reads that user's posts 6 at a time.
 */
module PostFeed {
  import opened Wrappers
  import opened Posts
  import opened OrderedStore
  import Sorting

  /** `limit(9)` of the all-posts query. */
  const FEED_PAGE_SIZE: nat := 9
  /** `limit(6)` of the per-user query. */
  const PROFILE_PAGE_SIZE: nat := 6

  /** The posts of `fetched` whose id is not in `ids`, in order. */
  function Fresh(fetched: seq<Post>, ids: set<Option<string>>): (r: seq<Post>)
    ensures |r| <= |fetched|
  {
    if fetched == [] then []
    else
      var rest := Fresh(fetched[1..], ids);
      if fetched[0].id !in ids then [fetched[0]] + rest else rest
  }

  /** The filter keeps exactly the fetched posts whose id is not in `ids`. */
  lemma {:induction false} FreshSpec(fetched: seq<Post>, ids: set<Option<string>>)
    ensures var r := Fresh(fetched, ids);
            (forall i :: 0 <= i < |r| ==> r[i].id !in ids && r[i] in fetched)
            && (forall p :: p in fetched && p.id !in ids ==> p in r)
  {
    if fetched != [] {
      var rest := Fresh(fetched[1..], ids);
      var r := Fresh(fetched, ids);
      FreshSpec(fetched[1..], ids);
      var kept := fetched[0].id !in ids;
      assert r == if kept then [fetched[0]] + rest else rest;
      forall i | 0 <= i < |r| ensures r[i].id !in ids && r[i] in fetched {
        if !kept || i > 0 {
          var k := if kept then i - 1 else i;
          assert r[i] == rest[k] && rest[k] in fetched[1..];
        }
      }
      forall p | p in fetched && p.id !in ids ensures p in r {
        if p != fetched[0] { assert p in fetched[1..]; }
      }
    }
  }

  /** The list after a load: the old list unchanged, then the fetched posts with new ids. */
  function AppendNew(prev: seq<Post>, fetched: seq<Post>): seq<Post> {
    prev + Fresh(fetched, Ids(prev))
  }

  /**
   * After a load the old list is unchanged at the front; what follows are
   * fetched posts whose ids were not listed, and every such fetched post.
   */
  lemma AppendNewSpec(prev: seq<Post>, fetched: seq<Post>)
    ensures var r := AppendNew(prev, fetched);
            |r| >= |prev| && r[..|prev|] == prev
            && (forall i :: |prev| <= i < |r| ==> r[i].id !in Ids(prev) && r[i] in fetched)
            && (forall p :: p in fetched && p.id !in Ids(prev) ==> p in r[|prev|..])
  {
    var r := AppendNew(prev, fetched);
    FreshSpec(fetched, Ids(prev));
    assert r[|prev|..] == Fresh(fetched, Ids(prev));
  }

  lemma IdsConcat(s: seq<Post>, t: seq<Post>)
    ensures Ids(s + t) == Ids(s) + Ids(t)
  {
    forall x | x in Ids(s + t) ensures x in Ids(s) + Ids(t) {
      var i :| 0 <= i < |s + t| && (s + t)[i].id == x;
      if i >= |s| { assert t[i - |s|].id == x; }
    }
    forall x | x in Ids(s) ensures x in Ids(s + t) {
      var i :| 0 <= i < |s| && s[i].id == x;
      assert (s + t)[i].id == x;
    }
    forall x | x in Ids(t) ensures x in Ids(s + t) {
      var i :| 0 <= i < |t| && t[i].id == x;
      assert (s + t)[i + |s|].id == x;
    }
  }

  lemma {:induction false} FreshConcat(a: seq<Post>, b: seq<Post>, ids: set<Option<string>>)
    ensures Fresh(a + b, ids) == Fresh(a, ids) + Fresh(b, ids)
  {
    if a != [] {
      FreshConcat(a[1..], b, ids);
      assert (a + b)[1..] == a[1..] + b;
    } else {
      assert a + b == b;
    }
  }

  /** Ids that no fetched post carries make no difference to the filter. */
  lemma {:induction false} FreshIgnores(b: seq<Post>, ids: set<Option<string>>, extra: set<Option<string>>)
    requires forall i :: 0 <= i < |b| ==> b[i].id !in extra
    ensures Fresh(b, ids + extra) == Fresh(b, ids)
  {
    if b != [] { FreshIgnores(b[1..], ids, extra); }
  }

  lemma {:induction false} FreshIds(a: seq<Post>, ids: set<Option<string>>)
    ensures Ids(Fresh(a, ids)) <= Ids(a)
  {
    var r := Fresh(a, ids);
    FreshSpec(a, ids);
    forall x | x in Ids(r) ensures x in Ids(a) {
      var i :| 0 <= i < |r| && r[i].id == x;
      var j :| 0 <= j < |a| && a[j] == r[i];
    }
  }

  /** Loading `a` then `b` appends what loading `a + b` at once would, when the store's ids are distinct. */
  lemma AppendNewConcat(prev: seq<Post>, a: seq<Post>, b: seq<Post>)
    requires DistinctIds(a + b)
    ensures AppendNew(AppendNew(prev, a), b) == AppendNew(prev, a + b)
  {
    var fa := Fresh(a, Ids(prev));
    assert forall i :: 0 <= i < |b| ==> b[i].id !in Ids(fa) by {
      FreshIds(a, Ids(prev));
      forall i | 0 <= i < |b| ensures b[i].id !in Ids(a) {
        forall j | 0 <= j < |a| ensures a[j].id != b[i].id {
          assert (a + b)[j] == a[j] && (a + b)[|a| + i] == b[i];
        }
      }
    }
    calc {
      AppendNew(AppendNew(prev, a), b);
      prev + fa + Fresh(b, Ids(prev + fa));
      { IdsConcat(prev, fa); }
      prev + fa + Fresh(b, Ids(prev) + Ids(fa));
      { FreshIgnores(b, Ids(prev), Ids(fa)); }
      prev + fa + Fresh(b, Ids(prev));
      { FreshConcat(a, b, Ids(prev)); }
      AppendNew(prev, a + b);
    }
  }

  /** Distinct ids stay distinct when a page whose own ids are distinct is appended. */
  lemma {:induction false} AppendNewDistinct(prev: seq<Post>, fetched: seq<Post>)
    requires DistinctIds(prev) && DistinctIds(fetched)
    ensures DistinctIds(AppendNew(prev, fetched))
  {
    var f := Fresh(fetched, Ids(prev));
    FreshDistinct(fetched, Ids(prev));
    FreshSpec(fetched, Ids(prev));
    var r := prev + f;
    forall i, j | 0 <= i < j < |r| ensures r[i].id != r[j].id {
      if j >= |prev| && i < |prev| {
        assert r[j] == f[j - |prev|];
        assert r[i].id in Ids(prev);
      } else if i >= |prev| {
        assert r[i] == f[i - |prev|] && r[j] == f[j - |prev|];
      }
    }
  }

  lemma {:induction false} FreshDistinct(fetched: seq<Post>, ids: set<Option<string>>)
    requires DistinctIds(fetched)
    ensures DistinctIds(Fresh(fetched, ids))
  {
    if fetched != [] {
      var rest := Fresh(fetched[1..], ids);
      HeadNotInTail(fetched);
      FreshDistinct(fetched[1..], ids);
      if fetched[0].id !in ids {
        FreshIds(fetched[1..], ids);
        ConsDistinct(fetched[0], rest);
      }
    }
  }

  /** In a list with distinct ids, the tail has distinct ids and none of them is the head's. */
  lemma HeadNotInTail(s: seq<Post>)
    requires s != [] && DistinctIds(s)
    ensures DistinctIds(s[1..]) && s[0].id !in Ids(s[1..])
  {
    DistinctSlice(s, 1, |s|);
    assert s[1..|s|] == s[1..];
    forall k | 0 <= k < |s[1..]| ensures s[1..][k].id != s[0].id {
      assert s[1..][k] == s[k + 1];
    }
  }

  /** Putting a post with a new id in front keeps ids distinct. */
  lemma ConsDistinct(x: Post, rest: seq<Post>)
    requires DistinctIds(rest) && x.id !in Ids(rest)
    ensures DistinctIds([x] + rest)
  {
    var r := [x] + rest;
    forall i, j | 0 <= i < j < |r| ensures r[i].id != r[j].id {
      assert r[j] == rest[j - 1];
      if i > 0 { assert r[i] == rest[i - 1]; }
    }
  }

  /** A page made only of already-listed posts leaves the list as it was. */
  lemma {:induction false} AllDuplicatesKeepList(prev: seq<Post>, fetched: seq<Post>)
    requires forall i :: 0 <= i < |fetched| ==> fetched[i].id in Ids(prev)
    ensures AppendNew(prev, fetched) == prev
  {
    if fetched != [] {
      AllDuplicatesKeepList(prev, fetched[1..]);
    }
  }

  /** The loader's state: list, loading flag, more-pages flag and cursor. */
  datatype FeedState = FeedState(
    posts: seq<Post>,
    loading: bool,
    hasMore: bool,
    lastDoc: Option<Snapshot<Post>>)

  /**
   * One call of `loadMorePosts` against the query's ordered result set
   * `rows` with page size `k`. `fetchOk` is false when the read throws: the
   * loading flag was already set and, with no `finally`, stays set.
   */
  function LoadStep(st: FeedState, rows: seq<Post>, k: nat, fetchOk: bool): FeedState {
    if st.loading || !st.hasMore then st
    else if !fetchOk then st.(loading := true)
    else
      var page := Query(rows, st.lastDoc, k);
      FeedState(AppendNew(st.posts, Data(page)), false, |page| > 0, LastDoc(page))
  }

  /** A failed read leaves the loader stuck: every later load is a no-op. */
  lemma StuckAfterFailure(st: FeedState, rows: seq<Post>, k: nat, rows': seq<Post>, ok': bool)
    requires !st.loading && st.hasMore
    ensures var failed := LoadStep(st, rows, k, false);
            failed.loading && failed.posts == st.posts
            && LoadStep(failed, rows', k, ok') == failed
  {
  }

  /**
   * A load whose fetched page is non-empty keeps `hasMore` even when every
   * fetched post was a duplicate and nothing was appended.
   */
  lemma DuplicatePageKeepsHasMore(st: FeedState, rows: seq<Post>, k: nat)
    requires !st.loading && st.hasMore
    requires var page := Query(rows, st.lastDoc, k);
             page != [] && forall i :: 0 <= i < |page| ==> page[i].data.id in Ids(st.posts)
    ensures LoadStep(st, rows, k, true).hasMore
    ensures LoadStep(st, rows, k, true).posts == st.posts
  {
    var page := Query(rows, st.lastDoc, k);
    AllDuplicatesKeepList(st.posts, Data(page));
  }

  function Measure(st: FeedState, rows: seq<Post>): nat {
    if st.hasMore then Remaining(rows, st.lastDoc) + 1 else 0
  }

  /** Scrolling to the end: load until a load sets `hasMore` to false, every read succeeding. */
  function LoadAll(st: FeedState, rows: seq<Post>, k: nat): FeedState
    requires k > 0 && !st.loading
    decreases Measure(st, rows)
  {
    if !st.hasMore then st
    else
      var page := Query(rows, st.lastDoc, k);
      var next := LoadStep(st, rows, k, true);
      if page != [] then
        LastDocResumes(rows, st.lastDoc, k);
        LoadAll(next, rows, k)
      else next
  }

  lemma DistinctSlice(rows: seq<Post>, lo: nat, hi: nat)
    requires lo <= hi <= |rows| && DistinctIds(rows)
    ensures DistinctIds(rows[lo..hi])
  {
    forall i, j | 0 <= i < j < hi - lo ensures rows[lo..hi][i].id != rows[lo..hi][j].id {
      assert rows[lo..hi][i] == rows[lo + i] && rows[lo..hi][j] == rows[lo + j];
    }
  }

  /** One step of `LoadAll` from a state that may load. */
  lemma LoadAllStep(st: FeedState, rows: seq<Post>, k: nat)
    requires k > 0 && !st.loading && st.hasMore
    ensures var page := Query(rows, st.lastDoc, k);
            LoadAll(st, rows, k)
            == if page != [] then LoadAll(LoadStep(st, rows, k, true), rows, k)
               else LoadStep(st, rows, k, true)
  {
  }

  /** The list after scrolling to the end from cursor `c`, every page appended in turn. */
  function Scrolled(prev: seq<Post>, rows: seq<Post>, k: nat, c: Option<Snapshot<Post>>): seq<Post>
    requires k > 0
    decreases Remaining(rows, c)
  {
    var page := Query(rows, c, k);
    if page == [] then prev
    else
      LastDocResumes(rows, c, k);
      Scrolled(AppendNew(prev, Data(page)), rows, k, LastDoc(page))
  }

  /**
   * Scrolling to the end from cursor `c` appends every later post of the
   * result set whose id is not listed yet, and ends with no cursor and no
   * more pages: it stops only after an empty page.
   */
  lemma LoadAllAppends(prev: seq<Post>, rows: seq<Post>, k: nat, c: Option<Snapshot<Post>>)
    requires k > 0 && StartOf(c) <= |rows| && DistinctIds(rows)
    ensures LoadAll(FeedState(prev, false, true, c), rows, k)
         == FeedState(AppendNew(prev, rows[StartOf(c)..]), false, false, None)
  {
    LoadAllScrolls(prev, rows, k, c);
    ScrolledAppends(prev, rows, k, c);
  }

  /** `LoadAll` from a state that may load ends with the scrolled list, no cursor and no more pages. */
  lemma {:induction false} LoadAllScrolls(prev: seq<Post>, rows: seq<Post>, k: nat, c: Option<Snapshot<Post>>)
    requires k > 0
    ensures LoadAll(FeedState(prev, false, true, c), rows, k) == FeedState(Scrolled(prev, rows, k, c), false, false, None)
    decreases Remaining(rows, c)
  {
    var st := FeedState(prev, false, true, c);
    var page := Query(rows, c, k);
    LoadAllStep(st, rows, k);
    if page != [] {
      LastDocResumes(rows, c, k);
      LoadAllScrolls(AppendNew(prev, Data(page)), rows, k, LastDoc(page));
    } else {
      assert LastDoc(page) == None;
    }
  }

  /** The scrolled list is the old list with every later post of the result set appended at once. */
  lemma {:induction false} ScrolledAppends(prev: seq<Post>, rows: seq<Post>, k: nat, c: Option<Snapshot<Post>>)
    requires k > 0 && StartOf(c) <= |rows| && DistinctIds(rows)
    ensures Scrolled(prev, rows, k, c) == AppendNew(prev, rows[StartOf(c)..])
    decreases Remaining(rows, c)
  {
    var page := Query(rows, c, k);
    if page != [] {
      var next := LastDoc(page);
      var mid := AppendNew(prev, rows[StartOf(c)..StartOf(next)]);
      ScrolledStep(prev, rows, k, c);
      ScrolledAppends(mid, rows, k, next);
      ConcatRest(prev, rows, StartOf(c), StartOf(next));
    } else {
      assert StartOf(c) == |rows| && rows[StartOf(c)..] == [];
    }
  }

  /** A non-empty page appends the documents it holds, and scrolling goes on after them. */
  lemma ScrolledStep(prev: seq<Post>, rows: seq<Post>, k: nat, c: Option<Snapshot<Post>>)
    requires k > 0 && StartOf(c) <= |rows| && Query(rows, c, k) != []
    ensures var next := LastDoc(Query(rows, c, k));
            StartOf(c) < StartOf(next) <= |rows| && Remaining(rows, next) < Remaining(rows, c)
            && Scrolled(prev, rows, k, c)
               == Scrolled(AppendNew(prev, rows[StartOf(c)..StartOf(next)]), rows, k, next)
  {
    QueryData(rows, c, k);
    LastDocResumes(rows, c, k);
  }

  lemma ConcatRest(prev: seq<Post>, rows: seq<Post>, lo: nat, hi: nat)
    requires lo <= hi <= |rows| && DistinctIds(rows)
    ensures AppendNew(AppendNew(prev, rows[lo..hi]), rows[hi..]) == AppendNew(prev, rows[lo..])
  {
    var a, b := rows[lo..hi], rows[hi..];
    assert a + b == rows[lo..];
    DistinctSlice(rows, lo, |rows|);
    AppendNewConcat(prev, a, b);
  }

  /** The only sort key the feed uses: `createdAt` in milliseconds. */
  function DisplayKey(p: Post): int {
    match p.createdAt
    case Iso(ms) => ms
    case Stamp(ms) => ms
    case Pending => 0
  }

  /** The rendered order: a sorted copy, newest first; the stored list is not touched. */
  function DisplayOrder(posts: seq<Post>): seq<Post> {
    Sorting.SortDesc(posts, DisplayKey)
  }

  /** The rendered order is newest first, holds the same posts, and keeps ties in list order. */
  lemma DisplayOrderSpec(posts: seq<Post>, t: int)
    ensures Sorting.SortedDesc(DisplayOrder(posts), DisplayKey)
    ensures multiset(DisplayOrder(posts)) == multiset(posts)
    ensures Sorting.WithKey(DisplayOrder(posts), DisplayKey, t) == Sorting.WithKey(posts, DisplayKey, t)
  {
    Sorting.SortDescSorted(posts, DisplayKey);
    Sorting.SortDescPerm(posts, DisplayKey);
    Sorting.SortDescStable(posts, DisplayKey, t);
  }

  /** The posts whose id differs from `id`, in order: `prev.filter(p => p.id !== postId)`. */
  function RemoveId(s: seq<Post>, id: string): (r: seq<Post>)
    ensures |r| <= |s|
    ensures forall p :: p in r <==> p in s && p.id != Some(id)
  {
    if s == [] then []
    else
      var rest := RemoveId(s[1..], id);
      assert forall p :: p in s <==> p == s[0] || p in s[1..];
      if s[0].id != Some(id) then [s[0]] + rest else rest
  }

  /** Removal keeps the other posts in order and with their repetitions: it distributes over concatenation. */
  lemma {:induction false} RemoveIdConcat(a: seq<Post>, b: seq<Post>, id: string)
    ensures RemoveId(a + b, id) == RemoveId(a, id) + RemoveId(b, id)
  {
    if a == [] {
      assert [] + b == b;
    } else {
      assert (a + b)[0] == a[0] && (a + b)[1..] == a[1..] + b;
      RemoveIdConcat(a[1..], b, id);
    }
  }

  /** The message shown when the store delete fails. */
  const DELETE_FAILED := "❌ 삭제에 실패했습니다."

  /** The state behind one feed: the list, the flags and the cursor ref. */
  class FeedLoader {
    const pageSize: nat
    var posts: seq<Post>
    var loading: bool
    var hasMore: bool
    var lastDoc: Option<Snapshot<Post>>

    function State(): FeedState
      reads this
    {
      FeedState(posts, loading, hasMore, lastDoc)
    }

    /** A fresh loader listing `initial`: `[]` for the main feed, the `posts` prop for a profile. */
    constructor (pageSize: nat, initial: seq<Post>)
      ensures this.pageSize == pageSize
      ensures State() == FeedState(initial, false, true, None)
    {
      this.pageSize := pageSize;
      posts := initial;
      loading := false;
      hasMore := true;
      lastDoc := None;
    }

    /**
     * `loadMorePosts` against the ordered result set `rows`: nothing while a
     * load runs or after an empty page; otherwise one page after the cursor.
     */
    method LoadMore(rows: seq<Post>, fetchOk: bool)
      modifies this
      ensures State() == LoadStep(old(State()), rows, pageSize, fetchOk)
      ensures old(loading) || !old(hasMore) ==> State() == old(State())
      ensures !old(loading) && old(hasMore) && fetchOk ==>
                var page := Query(rows, old(lastDoc), pageSize);
                posts == AppendNew(old(posts), Data(page)) && lastDoc == LastDoc(page)
                && hasMore == (|page| > 0) && !loading
      ensures !old(loading) && old(hasMore) && !fetchOk ==> loading && posts == old(posts)
    {
      if loading || !hasMore { return; }
      loading := true;
      if !fetchOk { return; }
      var page := Query(rows, lastDoc, pageSize);
      var newPosts := Data(page);
      posts := posts + Fresh(newPosts, Ids(posts));
      lastDoc := LastDoc(page);
      hasMore := |newPosts| > 0;
      loading := false;
    }

    /** The profile feed's effect on a new `posts` prop: the list is replaced, the cursor kept. */
    method ResetToProps(props: seq<Post>)
      modifies this`posts
      ensures posts == props
    {
      posts := props;
    }

    /**
     * The confirmed delete: the post leaves the list only when the store
     * delete succeeded; otherwise the failure alert is returned.
     */
    method Delete(postId: string, deleteOk: bool) returns (alert: Option<string>)
      modifies this`posts
      ensures deleteOk ==> posts == RemoveId(old(posts), postId) && alert == None
      ensures !deleteOk ==> posts == old(posts) && alert == Some(DELETE_FAILED)
    {
      if deleteOk {
        posts := RemoveId(posts, postId);
        alert := None;
      } else {
        alert := Some(DELETE_FAILED);
      }
    }
  }
}
