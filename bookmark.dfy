/**
 * The bookmark page: the posts the signed-in user has liked, read in one
 * query newest first, shown in one of three sort orders, with a heart that
 * toggles the user's like locally and in the store.
 */
module Bookmark {
  import opened Wrappers
  import opened Posts
  import Text
  import Sorting

  datatype SortOption = Recent | Oldest | Likes

  /** `getTimeValue`: the milliseconds of a date string or a Timestamp, 0 for the pending sentinel. */
  function GetTimeValue(t: TimeValue): int {
    match t
    case Iso(ms) => ms
    case Stamp(ms) => ms
    case Pending => 0
  }

  function TimeKey(p: Post): int { GetTimeValue(p.createdAt) }

  function LikeCountKey(p: Post): int { |LikesOrEmpty(p)| }

  /** A stored post document: its document id and its data. */
  type Row = (string, Post)

  /** `{ ...data, id: docSnap.id }`. */
  function WithDocId(r: Row): Post { r.1.(id := Some(r.0)) }

  /** Puts the posts kept so far in front of the rest of the result, unless that failed. */
  function Prepend(out: seq<Post>, rest: Option<seq<Post>>): Option<seq<Post>> {
    match rest
    case None => None
    case Some(r) => Some(out + r)
  }

  /**
   * The liked-post list the query callback builds, in store order. Reading
   * `likes.includes` on a document whose `likes` is not an array throws, and
   * then no list is built at all.
   */
  function LikedPosts(rows: seq<Row>, uid: string): Option<seq<Post>> {
    if rows == [] then Some([])
    else if rows[0].1.likes.None? then None
    else Prepend(if uid in rows[0].1.likes.value then [WithDocId(rows[0])] else [], LikedPosts(rows[1..], uid))
  }

  /**
   * The list exists iff every document has an array `likes`, and then it
   * holds exactly the documents whose likes contain the uid, each with its
   * document id.
   */
  lemma {:induction false} LikedPostsSpec(rows: seq<Row>, uid: string)
    ensures LikedPosts(rows, uid).Some? <==> forall i :: 0 <= i < |rows| ==> rows[i].1.likes.Some?
    ensures LikedPosts(rows, uid).Some? ==>
              forall p :: p in LikedPosts(rows, uid).value <==>
                exists i :: 0 <= i < |rows| && uid in rows[i].1.likes.value && p == WithDocId(rows[i])
  {
    if rows != [] {
      LikedPostsSpec(rows[1..], uid);
      var r := LikedPosts(rows, uid);
      assert forall i :: 1 <= i < |rows| ==> rows[i] == rows[1..][i - 1];
      if r.Some? {
        var rest := LikedPosts(rows[1..], uid).value;
        forall p | p in r.value
          ensures exists i :: 0 <= i < |rows| && uid in rows[i].1.likes.value && p == WithDocId(rows[i])
        {
          if p !in rest {
            assert uid in rows[0].1.likes.value && p == WithDocId(rows[0]);
          } else {
            var i :| 0 <= i < |rows[1..]| && uid in rows[1..][i].1.likes.value && p == WithDocId(rows[1..][i]);
            assert rows[i + 1] == rows[1..][i];
          }
        }
        forall i | 0 <= i < |rows| && uid in rows[i].1.likes.value ensures WithDocId(rows[i]) in r.value {
          if i > 0 {
            assert rows[1..][i - 1] == rows[i];
          }
        }
      }
    }
  }

  /**
   * The list follows store order: the liked posts of two runs of documents
   * are those of the first run followed by those of the second, and the
   * list fails when either run fails.
   */
  lemma {:induction false} LikedPostsConcat(a: seq<Row>, b: seq<Row>, uid: string)
    ensures LikedPosts(a + b, uid) ==
              if LikedPosts(a, uid).Some? && LikedPosts(b, uid).Some?
              then Some(LikedPosts(a, uid).value + LikedPosts(b, uid).value)
              else None
  {
    if a == [] {
      assert [] + b == b;
      if LikedPosts(b, uid).Some? {
        assert [] + LikedPosts(b, uid).value == LikedPosts(b, uid).value;
      }
    } else {
      assert (a + b)[0] == a[0] && (a + b)[1..] == a[1..] + b;
      LikedPostsConcat(a[1..], b, uid);
      if a[0].1.likes.Some? {
        var h := if uid in a[0].1.likes.value then [WithDocId(a[0])] else [];
        assert LikedPosts(a + b, uid) == Prepend(h, LikedPosts(a[1..] + b, uid));
        assert LikedPosts(a, uid) == Prepend(h, LikedPosts(a[1..], uid));
        if LikedPosts(a[1..], uid).Some? && LikedPosts(b, uid).Some? {
          var x, y := LikedPosts(a[1..], uid).value, LikedPosts(b, uid).value;
          assert h + (x + y) == (h + x) + y;
        }
      }
    }
  }

  /** One document gives its post, with its id, exactly when its likes hold the uid. */
  lemma LikedPostsOne(r: Row, uid: string)
    requires r.1.likes.Some?
    ensures LikedPosts([r], uid) == Some(if uid in r.1.likes.value then [WithDocId(r)] else [])
  {
    var h := if uid in r.1.likes.value then [WithDocId(r)] else [];
    assert [r][1..] == [];
    assert LikedPosts([r], uid) == Prepend(h, LikedPosts([], uid));
    assert h + [] == h;
  }

  /** `sortedPosts`: a sorted copy; the stored list is not reordered. */
  function SortedPosts(posts: seq<Post>, sort: SortOption): seq<Post> {
    match sort
    case Recent => Sorting.SortDesc(posts, TimeKey)
    case Oldest => Sorting.SortAsc(posts, TimeKey)
    case Likes => Sorting.SortDesc(posts, LikeCountKey)
  }

  /** Each sort order is a permutation of the posts, ordered by its key. */
  lemma SortedPostsSpec(posts: seq<Post>, sort: SortOption)
    ensures multiset(SortedPosts(posts, sort)) == multiset(posts)
    ensures sort == Recent ==> Sorting.SortedDesc(SortedPosts(posts, sort), TimeKey)
    ensures sort == Oldest ==> Sorting.SortedAsc(SortedPosts(posts, sort), TimeKey)
    ensures sort == Likes ==> Sorting.SortedDesc(SortedPosts(posts, sort), LikeCountKey)
  {
    match sort
    case Recent =>
      Sorting.SortDescSorted(posts, TimeKey);
      Sorting.SortDescPerm(posts, TimeKey);
    case Oldest =>
      Sorting.SortAscSortedPerm(posts, TimeKey);
    case Likes =>
      Sorting.SortDescSorted(posts, LikeCountKey);
      Sorting.SortDescPerm(posts, LikeCountKey);
  }

  /** One post's likes after the heart: the uid removed everywhere if present, else appended. */
  function Toggled(p: Post, uid: string): Post {
    var current := LikesOrEmpty(p);
    p.(likes := Some(if uid in current then Text.Without(current, uid) else current + [uid]))
  }

  /** The `prev.map` of `toggleLike`. */
  function ToggleIn(posts: seq<Post>, postId: string, uid: string): (r: seq<Post>)
    ensures |r| == |posts|
  {
    seq(|posts|, i requires 0 <= i < |posts| => if posts[i].id == Some(postId) then Toggled(posts[i], uid) else posts[i])
  }

  /**
   * Only the posts with that id change, and only in their likes, which
   * become an array whose membership of the uid is flipped.
   */
  lemma ToggleInSpec(posts: seq<Post>, postId: string, uid: string)
    ensures var r := ToggleIn(posts, postId, uid);
            forall i :: 0 <= i < |posts| ==>
              (posts[i].id != Some(postId) ==> r[i] == posts[i])
              && (posts[i].id == Some(postId) ==>
                    r[i] == posts[i].(likes := r[i].likes) && r[i].likes.Some?
                    && (uid in r[i].likes.value <==> uid !in LikesOrEmpty(posts[i]))
                    && (forall v :: v != uid ==> (v in r[i].likes.value <==> v in LikesOrEmpty(posts[i]))))
  {
  }

  /** Toggling twice restores a list where the uid had not liked the post and its likes were an array. */
  lemma ToggleTwice(posts: seq<Post>, postId: string, uid: string)
    requires forall i :: 0 <= i < |posts| && posts[i].id == Some(postId) ==>
               posts[i].likes.Some? && uid !in posts[i].likes.value
    ensures ToggleIn(ToggleIn(posts, postId, uid), postId, uid) == posts
  {
    var r := ToggleIn(posts, postId, uid);
    var r2 := ToggleIn(r, postId, uid);
    forall i | 0 <= i < |posts| ensures r2[i] == posts[i] {
      if posts[i].id == Some(postId) {
        Text.AppendThenWithout(posts[i].likes.value, uid);
      }
    }
  }

  /** The page's list state. The modal is a `Carousel.Viewer`. */
  class Page {
    var posts: seq<Post>
    var loading: bool
    var sort: SortOption

    constructor ()
      ensures posts == [] && loading && sort == Recent
    {
      posts := [];
      loading := true;
      sort := Recent;
    }

    /** The shown order. */
    function Shown(): seq<Post>
      reads this
    {
      SortedPosts(posts, sort)
    }

    /**
     * The auth listener. Without a user the list is emptied. Otherwise
     * `rows` is the query's answer (`None` when it throws) and the list is
     * replaced only when the callback completes. Loading ends in every case.
     */
    method Load(uid: Option<string>, rows: Option<seq<Row>>)
      modifies this`posts, this`loading
      ensures !loading
      ensures uid.None? ==> posts == []
      ensures uid.Some? && rows.Some? && LikedPosts(rows.value, uid.value).Some? ==>
                posts == LikedPosts(rows.value, uid.value).value
      ensures uid.Some? && (rows.None? || LikedPosts(rows.value, uid.value).None?) ==> posts == old(posts)
    {
      if uid.None? {
        posts := [];
        loading := false;
        return;
      }
      if rows.Some? {
        var liked := CollectLiked(rows.value, uid.value);
        if liked.Some? {
          posts := liked.value;
        }
      }
      loading := false;
    }

    /** The sort buttons. */
    method SetSort(s: SortOption)
      modifies this`sort
      ensures sort == s
    {
      sort := s;
    }

    /** `toggleLike(postId)`: a no-op without a current user. */
    method ToggleLike(uid: Option<string>, postId: string)
      modifies this`posts
      ensures uid.None? ==> posts == old(posts)
      ensures uid.Some? ==> posts == ToggleIn(old(posts), postId, uid.value)
    {
      if uid.None? {
        return;
      }
      posts := ToggleIn(posts, postId, uid.value);
    }
  }

  /** The `snapshot.forEach` that pushes every liked post, or throws on a non-array `likes`. */
  method CollectLiked(rows: seq<Row>, uid: string) returns (liked: Option<seq<Post>>)
    ensures liked == LikedPosts(rows, uid)
  {
    var out: seq<Post> := [];
    var i := 0;
    assert rows[0..] == rows;
    assert Prepend([], LikedPosts(rows, uid)) == LikedPosts(rows, uid) by {
      if LikedPosts(rows, uid).Some? { assert [] + LikedPosts(rows, uid).value == LikedPosts(rows, uid).value; }
    }
    while i < |rows|
      invariant 0 <= i <= |rows|
      invariant LikedPosts(rows, uid) == Prepend(out, LikedPosts(rows[i..], uid))
    {
      assert rows[i..][1..] == rows[i + 1..];
      var row := rows[i];
      if row.1.likes.None? {
        return None;
      }
      if uid in row.1.likes.value {
        ghost var rest := LikedPosts(rows[i + 1..], uid);
        assert Prepend(out, Prepend([WithDocId(row)], rest)) == Prepend(out + [WithDocId(row)], rest) by {
          if rest.Some? {
            assert out + ([WithDocId(row)] + rest.value) == (out + [WithDocId(row)]) + rest.value;
          }
        }
        out := out + [row.1.(id := Some(row.0))];
      } else {
        ghost var rest := LikedPosts(rows[i + 1..], uid);
        assert Prepend([], rest) == rest by {
          if rest.Some? { assert [] + rest.value == rest.value; }
        }
      }
      i := i + 1;
    }
    assert rows[i..] == [];
    assert out + [] == out;
    return Some(out);
  }
}
