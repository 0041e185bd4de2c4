/**
 * The heart under a post: the local list of liker uids, updated before the
 * store write and never rolled back, and the like notification to the
 * post's owner.
 */
module LikeButton {
  import opened Wrappers
  import Text

  const LOGIN_REQUIRED := "로그인이 필요합니다."

  /** What a toggle did besides updating the list. */
  datatype Effect =
    | LoginAlert                 // no signed-in uid: only the alert
    | Unliked                    // `arrayRemove(uid)` sent
    | Liked(notified: bool)      // `arrayUnion(uid)` sent; a notification added or not

  /** `user?.uid ? likes.includes(user.uid) : false`. */
  predicate IsLiked(likes: seq<string>, uid: Option<string>) {
    uid.Some? && uid.value != "" && uid.value in likes
  }

  /**
   * `handleLikeToggle`. `uid` is the auth user's uid, `meUid` the profile
   * context's. On a like, the notification is written after the store
   * update, so a failed update (`writeOk` false) sends none; the local list
   * is changed either way.
   */
  function ToggleStep(likes: seq<string>, uid: Option<string>, meUid: Option<string>, postOwnerId: string,
                      writeOk: bool): (seq<string>, Effect)
  {
    if uid.None? || uid.value == "" then (likes, LoginAlert)
    else if IsLiked(likes, uid) then (Text.Without(likes, uid.value), Unliked)
    else (likes + [uid.value], Liked(writeOk && meUid != Some(postOwnerId)))
  }

  /**
   * With a signed-in uid the toggle flips `IsLiked` whatever the store
   * does; a notification goes only to another user's post, after a
   * successful update.
   */
  lemma ToggleSpec(likes: seq<string>, uid: Option<string>, meUid: Option<string>, postOwnerId: string, writeOk: bool)
    ensures var (l, e) := ToggleStep(likes, uid, meUid, postOwnerId, writeOk);
            (e == LoginAlert <==> uid.None? || uid.value == "")
            && (e == LoginAlert ==> l == likes)
            && (e != LoginAlert ==> IsLiked(l, uid) == !IsLiked(likes, uid))
            && (e.Unliked? ==> forall v :: v in l <==> v in likes && v != uid.value)
            && (e.Liked? ==> l == likes + [uid.value] && (e.notified <==> writeOk && meUid != Some(postOwnerId)))
  {
  }

  /** Liking then unliking restores the list, whether or not the writes succeed. */
  lemma LikeThenUnlike(likes: seq<string>, uid: string, meUid: Option<string>, postOwnerId: string, ok1: bool, ok2: bool)
    requires uid != "" && uid !in likes
    ensures var (l, _) := ToggleStep(likes, Some(uid), meUid, postOwnerId, ok1);
            ToggleStep(l, Some(uid), meUid, postOwnerId, ok2).0 == likes
  {
    Text.AppendThenWithout(likes, uid);
  }

  class Button {
    const postId: string
    const postOwnerId: string
    var likes: seq<string>

    constructor (postId: string, likedBy: seq<string>, postOwnerId: string)
      ensures this.postId == postId && this.postOwnerId == postOwnerId && likes == likedBy
    {
      this.postId := postId;
      this.postOwnerId := postOwnerId;
      likes := likedBy;
    }

    /** The number next to the heart. */
    function Count(): nat
      reads this
    {
      |likes|
    }

    method HandleLikeToggle(uid: Option<string>, meUid: Option<string>, writeOk: bool) returns (e: Effect)
      modifies this
      ensures (likes, e) == ToggleStep(old(likes), uid, meUid, postOwnerId, writeOk)
    {
      if uid.None? || uid.value == "" {
        return LoginAlert;
      }
      if uid.value in likes {
        likes := Text.Without(likes, uid.value);
        return Unliked;
      }
      likes := likes + [uid.value];
      if !writeOk {
        return Liked(false);
      }
      var notify := meUid.None? || postOwnerId != meUid.value;
      return Liked(notify);
    }
  }
}
