/**
 * The like button of a place's detail page: liked flag and count taken
 * from the overrides or loaded once from the store, and a toggle that
 * assembles one write batch per branch and commits it atomically.
 */
module PlaceLikeButton {
  import opened Wrappers

  /** The writes of one batch. */
  datatype BatchOp =
    | DeleteLike               // remove `users/<uid>/likes/places_<id>`
    | DecrementPlace           // `likeCount: increment(-1)` on the place
    | SetLike(likeCount: int)  // the like document, with the count it records
    | CreatePlace              // a new place document with `likeCount: 1`
    | IncrementPlace           // `likeCount: increment(1)` on the place

  datatype ButtonState = ButtonState(liked: bool, count: int, loading: bool)

  /** `useState` initial values: `likedOverride ?? false`, `countOverride ?? 0`, loading. */
  function Initial(likedOverride: Option<bool>, countOverride: Option<int>): (s: ButtonState)
    ensures s.loading
    ensures s.liked == (likedOverride.Some? && likedOverride.value)
    ensures s.count == (if countOverride.Some? then countOverride.value else 0)
  {
    ButtonState(likedOverride.GetOr(false), countOverride.GetOr(0), true)
  }

  /** The store's answer to the mount-time reads: does the like exist, and the place's stored count. */
  datatype LikeData = LikeData(likeExists: bool, placeCount: Option<int>)

  /**
   * The mount effect. Without a user or with either override defined no
   * store read happens; a failed read keeps liked and count. Loading ends
   * in every case. The second component is the count passed to `onLiked`.
   */
  function LoadStep(s: ButtonState, signedIn: bool, likedOverride: Option<bool>, countOverride: Option<int>,
                    answer: Option<LikeData>): (r: (ButtonState, Option<int>))
    ensures !r.0.loading
    ensures !signedIn || likedOverride.Some? || countOverride.Some? ==> r == (s.(loading := false), None)
    ensures r.1.Some? ==> answer.Some? && r.0.liked == answer.value.likeExists && r.0.count == r.1.value
    ensures answer.None? ==> r.0.liked == s.liked && r.0.count == s.count
  {
    if !signedIn || likedOverride.Some? || countOverride.Some? then (s.(loading := false), None)
    else match answer
      case None => (s.(loading := false), None)
      case Some(d) =>
        // `placeSnap.data()?.likeCount || 0`: a missing or falsy count reads as 0
        var count := d.placeCount.GetOr(0);
        (ButtonState(d.likeExists, count, false), Some(count))
  }

  /** What a toggle did: the batch it committed and the count it passed to `onLiked`. */
  datatype Outcome = Outcome(committed: seq<BatchOp>, reported: Option<int>)

  /**
   * `toggleLike`. `likeExists` and `placeExists` are the latest reads on the
   * like branch; `ok` is false when a read or the commit throws.
   */
  function ToggleStep(s: ButtonState, signedIn: bool, ok: bool, likeExists: bool, placeExists: bool): (ButtonState, Outcome)
  {
    if !signedIn || s.loading || !ok then (s, Outcome([], None))
    else if s.liked then
      var n := Max(0, s.count - 1);
      (s.(liked := false, count := n), Outcome([DeleteLike, DecrementPlace], Some(n)))
    else if likeExists then (s, Outcome([], None))
    else
      var placeOp := if !placeExists then CreatePlace else IncrementPlace;
      (s.(liked := true, count := s.count + 1), Outcome([SetLike(s.count + 1), placeOp], Some(s.count + 1)))
  }

  /** The toggle's outcome branch by branch. */
  lemma ToggleSpec(s: ButtonState, signedIn: bool, ok: bool, likeExists: bool, placeExists: bool)
    ensures var (t, out) := ToggleStep(s, signedIn, ok, likeExists, placeExists);
            (!signedIn || s.loading ==> t == s && out.committed == [])
            && t.loading == s.loading
            && (out.committed == [] <==> t == s)
            && (out.committed == [] <==> out.reported.None?)
            && (out.reported.Some? ==> out.reported.value == t.count && t.liked == !s.liked)
            && (out.committed != [] && s.liked ==> out.committed == [DeleteLike, DecrementPlace] && t.count == Max(0, s.count - 1))
            && (out.committed != [] && !s.liked ==>
                  !likeExists && t.count == s.count + 1
                  && out.committed == [SetLike(s.count + 1), if placeExists then IncrementPlace else CreatePlace])
  {
  }

  /** A like document that already exists blocks a second like: nothing is written and nothing changes. */
  lemma DuplicateLikeBlocked(s: ButtonState, placeExists: bool)
    requires !s.liked
    ensures ToggleStep(s, true, true, true, placeExists) == (s, Outcome([], None))
  {
  }

  /** The count stays non-negative. */
  lemma ToggleKeepsCountNonNegative(s: ButtonState, signedIn: bool, ok: bool, likeExists: bool, placeExists: bool)
    requires s.count >= 0
    ensures ToggleStep(s, signedIn, ok, likeExists, placeExists).0.count >= 0
  {
  }

  class Button {
    var liked: bool
    var count: int
    var loading: bool

    function State(): ButtonState
      reads this
    {
      ButtonState(liked, count, loading)
    }

    constructor (likedOverride: Option<bool>, countOverride: Option<int>)
      ensures State() == Initial(likedOverride, countOverride)
    {
      liked := if likedOverride.Some? then likedOverride.value else false;
      count := if countOverride.Some? then countOverride.value else 0;
      loading := true;
    }

    method Load(signedIn: bool, likedOverride: Option<bool>, countOverride: Option<int>, answer: Option<LikeData>)
      returns (reported: Option<int>)
      modifies this
      ensures (State(), reported) == LoadStep(old(State()), signedIn, likedOverride, countOverride, answer)
    {
      reported := None;
      if !signedIn || likedOverride.Some? || countOverride.Some? {
        loading := false;
        return;
      }
      if answer.Some? {
        var likeCount := if answer.value.placeCount.Some? then answer.value.placeCount.value else 0;
        liked := answer.value.likeExists;
        count := likeCount;
        reported := Some(likeCount);
      }
      loading := false;
    }

    method Toggle(signedIn: bool, ok: bool, likeExists: bool, placeExists: bool) returns (out: Outcome)
      modifies this
      ensures (State(), out) == ToggleStep(old(State()), signedIn, ok, likeExists, placeExists)
    {
      if !signedIn || loading || !ok {
        return Outcome([], None);
      }
      var batch: seq<BatchOp> := [];
      if liked {
        batch := batch + [DeleteLike];
        batch := batch + [DecrementPlace];
        assert batch == [DeleteLike, DecrementPlace];
        var newCount := if 0 > count - 1 then 0 else count - 1;
        liked := false;
        count := newCount;
        return Outcome(batch, Some(newCount));
      }
      if likeExists {
        return Outcome([], None);
      }
      batch := batch + [SetLike(count + 1)];
      if !placeExists {
        batch := batch + [CreatePlace];
      } else {
        batch := batch + [IncrementPlace];
      }
      assert batch == [SetLike(count + 1), if !placeExists then CreatePlace else IncrementPlace];
      var newCount := count + 1;
      liked := true;
      count := newCount;
      return Outcome(batch, Some(newCount));
    }
  }
}
