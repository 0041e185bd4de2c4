/**
 * A place card on the recommended-places page: the image fallback chain,
 * the liked flag and count initialised from the page's overlay, and the
 * heart button that writes the like document and the place's count before
 * updating the local state.
 */
module PlaceCard {
  import opened Wrappers
  import Text

  /** The card's `defaultImage`. */
  const DEFAULT_IMAGE := "/image/logoc.PNG"
  /** The one entry of `fallbackImages`. */
  const FALLBACK_TITLE := "테미오래"
  const FALLBACK_IMAGE := "/custom/temiora.jpg"
  /** The alert shown when toggling without a user or a content id. */
  const LOGIN_ALERT := "로그인을 해야 이동할수 있습니다 가시겠습니까?"

  function Fallback(title: string): string {
    if title == FALLBACK_TITLE then FALLBACK_IMAGE else DEFAULT_IMAGE
  }

  /**
   * `imageUrl`: the trimmed `firstimage` when it is not blank; otherwise the
   * trimmed `imageUrl` whenever that field is a string (even a blank one);
   * otherwise the image for the title, else the default image.
   */
  function ImageUrl(firstimage: Option<string>, imageUrl: Option<string>, title: string): (url: string)
    ensures firstimage.Some? && !Text.IsBlank(firstimage.value) ==> url == Text.Trim(firstimage.value) && url != []
    ensures (firstimage.None? || Text.IsBlank(firstimage.value)) && imageUrl.Some? ==> url == Text.Trim(imageUrl.value)
    ensures (firstimage.None? || Text.IsBlank(firstimage.value)) && imageUrl.None? ==>
              url == (if title == FALLBACK_TITLE then FALLBACK_IMAGE else DEFAULT_IMAGE)
  {
    Text.TrimEmptyIffBlank(firstimage.GetOr(""));
    if firstimage.Some? && Text.Trim(firstimage.value) != "" then Text.Trim(firstimage.value)
    else if imageUrl.Some? then Text.Trim(imageUrl.value)
    else Fallback(title)
  }

  /** Without a usable `firstimage` or `imageUrl` string, the card never shows an empty image source. */
  lemma ImageUrlNonEmpty(firstimage: Option<string>, imageUrl: Option<string>, title: string)
    requires imageUrl.None? || !Text.IsBlank(imageUrl.value)
    ensures ImageUrl(firstimage, imageUrl, title) != []
  {
    if (firstimage.None? || Text.IsBlank(firstimage.value)) && imageUrl.Some? {
      Text.TrimEmptyIffBlank(imageUrl.value);
    }
  }

  /** The card's local state. */
  datatype CardState = CardState(liked: bool, likeCount: int)

  /** What a toggle did, apart from the local state. */
  datatype Toggle =
    | LoginAlert                                // only the alert was opened
    | Unliked(decremented: bool)                // like removed; place count decremented or not; callback got false
    | Liked(storedCount: int)                   // like stored with this count; place count incremented; callback got true
    | Failed                                    // a store call threw; the error was logged

  /** `useState` initial values from the overrides. */
  function Initial(likeCount: int, likedOverride: Option<bool>, countOverride: Option<int>): (s: CardState)
    ensures s.liked <==> likedOverride == Some(true)
    ensures countOverride.Some? ==> s.likeCount == countOverride.value
    ensures countOverride.None? ==> s.likeCount == likeCount
  {
    CardState(likedOverride == Some(true), countOverride.GetOr(likeCount))
  }

  /**
   * `handleToggleLike`. `placeCount` is the place document as the store
   * answer gives it (`None` when it does not exist, a nullish count read
   * as 0); `ok` is false when a store call throws. `updateDoc` on a missing
   * place document throws, so liking a place without a document fails
   * after the like document was written.
   */
  function ToggleStep(s: CardState, signedIn: bool, contentId: string, placeCount: Option<int>, ok: bool): (CardState, Toggle)
  {
    if !signedIn || contentId == [] then (s, LoginAlert)
    else if !ok then (s, Failed)
    else if s.liked then
      (CardState(false, Max(s.likeCount - 1, 0)), Unliked(placeCount.Some? && placeCount.value > 0))
    else if placeCount.None? then (s, Failed)
    else (CardState(true, s.likeCount + 1), Liked(s.likeCount + 1))
  }

  /** The toggle's whole outcome: the alert and failure paths change nothing, the others flip `liked`. */
  lemma ToggleSpec(s: CardState, signedIn: bool, contentId: string, placeCount: Option<int>, ok: bool)
    ensures var (t, out) := ToggleStep(s, signedIn, contentId, placeCount, ok);
            (out == LoginAlert <==> !signedIn || contentId == [])
            && (out.LoginAlert? || out.Failed? ==> t == s)
            && (out.Unliked? ==> s.liked && !t.liked && (out.decremented <==> placeCount.Some? && placeCount.value > 0))
            && (out.Liked? ==> !s.liked && t.liked && t.likeCount == s.likeCount + 1 && out.storedCount == t.likeCount)
            && (signedIn && contentId != [] && ok && (s.liked || placeCount.Some?) ==> t.liked == !s.liked)
  {
  }

  /** The local count never goes negative from a non-negative start. */
  lemma ToggleKeepsCountNonNegative(s: CardState, signedIn: bool, contentId: string, placeCount: Option<int>, ok: bool)
    requires s.likeCount >= 0
    ensures ToggleStep(s, signedIn, contentId, placeCount, ok).0.likeCount >= 0
  {
  }

  /** A successful like followed by a successful unlike restores the local state. */
  lemma {:induction false} LikeThenUnlike(s: CardState, contentId: string, count: int, count2: Option<int>)
    requires !s.liked && s.likeCount >= 0 && contentId != []
    ensures var (t, _) := ToggleStep(s, true, contentId, Some(count), true);
            ToggleStep(t, true, contentId, count2, true).0 == s
  {
    var (t, _) := ToggleStep(s, true, contentId, Some(count), true);
    assert t == CardState(true, s.likeCount + 1);
    assert Max(s.likeCount + 1 - 1, 0) == s.likeCount;
  }

  /** A card bound to one place. */
  class Card {
    const contentId: string
    var liked: bool
    var likeCount: int

    function State(): CardState
      reads this
    {
      CardState(liked, likeCount)
    }

    constructor (contentId: string, placeLikeCount: int, likedOverride: Option<bool>, countOverride: Option<int>)
      ensures this.contentId == contentId
      ensures State() == Initial(placeLikeCount, likedOverride, countOverride)
    {
      this.contentId := contentId;
      liked := likedOverride == Some(true);
      likeCount := if countOverride.Some? then countOverride.value else placeLikeCount;
    }

    /** The effect on `likedOverride`: `liked` follows it, the count does not. */
    method SyncLiked(likedOverride: Option<bool>)
      modifies this`liked
      ensures liked == (likedOverride == Some(true))
    {
      liked := likedOverride == Some(true);
    }

    method ToggleLike(signedIn: bool, placeCount: Option<int>, ok: bool) returns (out: Toggle)
      modifies this
      ensures (State(), out) == ToggleStep(old(State()), signedIn, contentId, placeCount, ok)
    {
      if !signedIn || contentId == [] {
        return LoginAlert;
      }
      if !ok {
        return Failed;
      }
      if liked {
        var decremented := placeCount.Some? && placeCount.value > 0;
        liked := false;
        likeCount := if likeCount - 1 > 0 then likeCount - 1 else 0;
        return Unliked(decremented);
      }
      if placeCount.None? {
        return Failed;
      }
      var stored := likeCount + 1;
      liked := true;
      likeCount := likeCount + 1;
      return Liked(stored);
    }
  }
}
