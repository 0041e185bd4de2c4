/**
 * The recommended-places page (`upplace`): a two-phase infinite query that
 * first pages through the popular places (like count at least 10, most
 * liked first) and then through all places newest first; a first-wins
 * de-duplication by content id that also drops places without a usable
 * image; and the per-user like overlay laid over the cards.
 */
module PlaceFeed {
  import opened Wrappers
  import opened OrderedStore
  import Text
  import KeyedDedup
  import Arith

  /** `PAGE_SIZE`. */
  const PAGE_SIZE: nat := 12

  /** A place document; `firstimage` is `None` when the field is missing or null. */
  datatype Place = Place(
    contentId: string,
    title: string,
    addr1: string,
    firstimage: Option<string>,
    likeCount: int,
    id: string)

  /**
   * The two ordered result sets the page queries: `popular` for
   * `where(likeCount >= 10), orderBy(likeCount, desc)`, `recent` for
   * `orderBy(createdAt, desc)`.
   */
  datatype PlaceStore = PlaceStore(popular: seq<Place>, recent: seq<Place>)

  /** What the store guarantees of the popular result set. */
  predicate PopularOrdered(rows: seq<Place>) {
    (forall i :: 0 <= i < |rows| ==> rows[i].likeCount >= 10)
    && (forall i, j :: 0 <= i < j < |rows| ==> rows[i].likeCount >= rows[j].likeCount)
  }

  datatype PageParam = PageParam(lastDoc: Option<Snapshot<Place>>, isPopularPhase: bool)

  datatype FetchResult = FetchResult(places: seq<Place>, lastDoc: Option<Snapshot<Place>>, isPopularPhase: bool)

  /** `initialPageParam`. */
  const INITIAL_PARAM := PageParam(None, true)

  /**
   * `fetchPlaces`: a missing page parameter means the popular phase from the
   * start; one page of the phase's result set after the cursor.
   */
  function FetchPlaces(store: PlaceStore, pageParam: Option<PageParam>): (r: FetchResult)
    ensures r.isPopularPhase == (pageParam.None? || pageParam.value.isPopularPhase)
    ensures |r.places| <= PAGE_SIZE
    ensures r.lastDoc.None? <==> r.places == []
    ensures r.lastDoc.Some? ==> r.lastDoc.value.data == r.places[|r.places| - 1]
    ensures r.isPopularPhase && PopularOrdered(store.popular) ==>
              forall i :: 0 <= i < |r.places| ==> r.places[i].likeCount >= 10
  {
    var isPopularPhase := match pageParam case Some(p) => p.isPopularPhase case None => true;
    var lastDoc := match pageParam case Some(p) => p.lastDoc case None => None;
    var rows := if isPopularPhase then store.popular else store.recent;
    var page := Query(rows, lastDoc, PAGE_SIZE);
    FetchResult(Data(page), LastDoc(page), isPopularPhase)
  }

  /**
   * `getNextPageParam`: a full popular page continues the popular phase
   * after its last document; any other popular page switches to the
   * recency phase from the start; a short recency page ends the feed.
   */
  function GetNextPageParam(last: FetchResult): (r: Option<PageParam>)
    ensures last.isPopularPhase ==> r.Some?
    ensures r.Some? && r.value.isPopularPhase ==> last.isPopularPhase
    ensures last.isPopularPhase && |last.places| != PAGE_SIZE ==> r == Some(PageParam(None, false))
    ensures r.Some? && r.value.lastDoc.Some? ==> r.value.lastDoc == last.lastDoc && |last.places| >= PAGE_SIZE
    ensures !last.isPopularPhase ==> (r.None? <==> |last.places| < PAGE_SIZE)
    ensures last.isPopularPhase && |last.places| == PAGE_SIZE ==> r == Some(PageParam(last.lastDoc, true))
    ensures !last.isPopularPhase && |last.places| >= PAGE_SIZE ==> r == Some(PageParam(last.lastDoc, false))
  {
    if last.isPopularPhase && |last.places| == PAGE_SIZE then Some(PageParam(last.lastDoc, true))
    else if last.isPopularPhase then Some(PageParam(None, false))
    else if |last.places| < PAGE_SIZE then None
    else Some(PageParam(last.lastDoc, false))
  }

  /**
   * The sentinel effect: a next page is requested only when it is in view
   * and the infinite query has a next page parameter.
   */
  function ShouldFetchNext(inView: bool, last: FetchResult): (fetch: bool)
    ensures fetch ==> inView
    ensures last.isPopularPhase ==> fetch == inView
    ensures !last.isPopularPhase && |last.places| < PAGE_SIZE ==> !fetch
  {
    inView && GetNextPageParam(last).Some?
  }

  function PhaseRows(store: PlaceStore, p: PageParam): seq<Place> {
    if p.isPopularPhase then store.popular else store.recent
  }

  function FeedMeasure(store: PlaceStore, p: PageParam): nat {
    Remaining(PhaseRows(store, p), p.lastDoc)
  }

  /** The pages the infinite query loads when the sentinel stays in view, from parameter `p` on. */
  function Pages(store: PlaceStore, p: PageParam): seq<FetchResult>
    decreases (if p.isPopularPhase then 1 else 0), FeedMeasure(store, p)
  {
    var page := FetchPlaces(store, Some(p));
    match GetNextPageParam(page)
    case None => [page]
    case Some(next) =>
      if next.isPopularPhase || p.isPopularPhase == next.isPopularPhase then
        LastDocResumes(PhaseRows(store, p), p.lastDoc, PAGE_SIZE);
        [page] + Pages(store, next)
      else [page] + Pages(store, next)
  }

  function Flatten(pages: seq<FetchResult>): seq<Place> {
    if pages == [] then [] else pages[0].places + Flatten(pages[1..])
  }

  /** One page of a phase, then the pages from the parameter it leads to. */
  lemma PagesUnfold(store: PlaceStore, p: PageParam)
    ensures var page := FetchPlaces(store, Some(p));
            Pages(store, p) == match GetNextPageParam(page)
                               case None => [page]
                               case Some(next) => [page] + Pages(store, next)
  {
  }

  /** The pages of the recency phase are the pages `Drain` fetches from the same cursor. */
  lemma {:induction false} RecentPhaseDrain(store: PlaceStore, c: Option<Snapshot<Place>>)
    ensures Flatten(Pages(store, PageParam(c, false))) == Drain(store.recent, c, PAGE_SIZE)
    ensures |Pages(store, PageParam(c, false))| == DrainQueries(store.recent, c, PAGE_SIZE)
    decreases Remaining(store.recent, c)
  {
    var p := PageParam(c, false);
    var page := FetchPlaces(store, Some(p));
    var q := Query(store.recent, c, PAGE_SIZE);
    assert page.places == Data(q) && page.lastDoc == LastDoc(q);
    PagesUnfold(store, p);
    if |q| < PAGE_SIZE {
      assert Pages(store, p) == [page];
      assert Flatten([page]) == page.places + Flatten([]);
    } else {
      LastDocResumes(store.recent, c, PAGE_SIZE);
      var next := PageParam(page.lastDoc, false);
      RecentPhaseDrain(store, page.lastDoc);
      assert Pages(store, p) == [page] + Pages(store, next);
      assert ([page] + Pages(store, next))[1..] == Pages(store, next);
    }
  }

  /** One page of the popular phase, then the pages from where it leads. */
  lemma PopularStep(store: PlaceStore, c: Option<Snapshot<Place>>)
    ensures var q := Query(store.popular, c, PAGE_SIZE);
            var page := FetchPlaces(store, Some(PageParam(c, true)));
            page.places == Data(q) && page.lastDoc == LastDoc(q)
            && Pages(store, PageParam(c, true))
               == [page] + Pages(store, if |q| < PAGE_SIZE then PageParam(None, false) else PageParam(LastDoc(q), true))
  {
    PagesUnfold(store, PageParam(c, true));
  }

  lemma FlattenCons(page: FetchResult, rest: seq<FetchResult>)
    ensures Flatten([page] + rest) == page.places + Flatten(rest)
  {
    assert ([page] + rest)[1..] == rest;
  }

  /**
   * The pages of the popular phase are the pages `Drain` fetches from the
   * same cursor, followed by the whole recency phase from the start.
   */
  lemma {:induction false} PopularPhaseDrain(store: PlaceStore, c: Option<Snapshot<Place>>)
    ensures Flatten(Pages(store, PageParam(c, true)))
         == Drain(store.popular, c, PAGE_SIZE) + Flatten(Pages(store, PageParam(None, false)))
    ensures |Pages(store, PageParam(c, true))|
         == DrainQueries(store.popular, c, PAGE_SIZE) + |Pages(store, PageParam(None, false))|
    decreases Remaining(store.popular, c)
  {
    var q := Query(store.popular, c, PAGE_SIZE);
    if |q| < PAGE_SIZE {
      PopularLastPage(store, c);
    } else {
      LastDocResumes(store.popular, c, PAGE_SIZE);
      PopularPhaseDrain(store, LastDoc(q));
      var recent := Pages(store, PageParam(None, false));
      PopularFullPage(store, c, Flatten(recent));
      PopularFullPageCount(store, c, |recent|);
    }
  }

  /** A short popular page is followed by the recency phase. */
  lemma PopularLastPage(store: PlaceStore, c: Option<Snapshot<Place>>)
    requires |Query(store.popular, c, PAGE_SIZE)| < PAGE_SIZE
    ensures Flatten(Pages(store, PageParam(c, true)))
         == Drain(store.popular, c, PAGE_SIZE) + Flatten(Pages(store, PageParam(None, false)))
    ensures |Pages(store, PageParam(c, true))|
         == DrainQueries(store.popular, c, PAGE_SIZE) + |Pages(store, PageParam(None, false))|
  {
    var page := FetchPlaces(store, Some(PageParam(c, true)));
    PopularStep(store, c);
    DrainStep(store.popular, c, PAGE_SIZE);
    FlattenCons(page, Pages(store, PageParam(None, false)));
  }

  /**
   * A full popular page is followed by the popular pages after its last
   * document; `tail` stands for the recency phase's places.
   */
  lemma PopularFullPage(store: PlaceStore, c: Option<Snapshot<Place>>, tail: seq<Place>)
    requires |Query(store.popular, c, PAGE_SIZE)| == PAGE_SIZE
    requires var next := LastDoc(Query(store.popular, c, PAGE_SIZE));
             Flatten(Pages(store, PageParam(next, true))) == Drain(store.popular, next, PAGE_SIZE) + tail
    ensures Flatten(Pages(store, PageParam(c, true))) == Drain(store.popular, c, PAGE_SIZE) + tail
  {
    var q := Query(store.popular, c, PAGE_SIZE);
    var page := FetchPlaces(store, Some(PageParam(c, true)));
    var next := PageParam(LastDoc(q), true);
    PopularStep(store, c);
    DrainStep(store.popular, c, PAGE_SIZE);
    FlattenCons(page, Pages(store, next));
    var rest := Drain(store.popular, LastDoc(q), PAGE_SIZE);
    ConcatAssoc(Data(q), rest, tail);
  }

  lemma ConcatAssoc<T>(a: seq<T>, b: seq<T>, c: seq<T>)
    ensures a + (b + c) == (a + b) + c
  {
  }

  /** The page count of `PopularFullPage`; `count` stands for the recency phase's pages. */
  lemma PopularFullPageCount(store: PlaceStore, c: Option<Snapshot<Place>>, count: nat)
    requires |Query(store.popular, c, PAGE_SIZE)| == PAGE_SIZE
    requires var next := LastDoc(Query(store.popular, c, PAGE_SIZE));
             |Pages(store, PageParam(next, true))| == DrainQueries(store.popular, next, PAGE_SIZE) + count
    ensures |Pages(store, PageParam(c, true))| == DrainQueries(store.popular, c, PAGE_SIZE) + count
  {
    PopularStep(store, c);
    DrainStep(store.popular, c, PAGE_SIZE);
  }

  /**
   * A full scroll from the initial parameter lists every popular place,
   * then every place newest first, in `|popular| / 12 + |recent| / 12 + 2`
   * pages: each phase ends with a short (possibly empty) page.
   */
  lemma FullScroll(store: PlaceStore)
    ensures Flatten(Pages(store, INITIAL_PARAM)) == store.popular + store.recent
    ensures |Pages(store, INITIAL_PARAM)| == |store.popular| / PAGE_SIZE + |store.recent| / PAGE_SIZE + 2
  {
    var recent := Pages(store, PageParam(None, false));
    PopularPhaseDrain(store, None);
    RecentPhaseDrain(store, None);
    DrainAll(store.popular, None, PAGE_SIZE);
    DrainAll(store.recent, None, PAGE_SIZE);
    DrainQueryCount(store.popular, None, PAGE_SIZE);
    DrainQueryCount(store.recent, None, PAGE_SIZE);
    assert store.popular[0..] == store.popular && store.recent[0..] == store.recent;
  }

  /** `place.firstimage && place.firstimage.trim() !== ""`. */
  predicate HasImage(p: Place) {
    p.firstimage.Some? && p.firstimage.value != "" && Text.Trim(p.firstimage.value) != ""
  }

  function ContentIdOf(p: Place): string { p.contentId }

  /**
   * `uniquePlaces`: the flattened pages visited in order, adding a place to
   * the map under its content id when it has an image and the id is new.
   */
  method UniquePlaces(all: seq<Place>) returns (unique: seq<Place>)
    ensures unique == KeyedDedup.Dedup(all, ContentIdOf, HasImage)
  {
    var values: seq<Place> := [];
    var keys: set<string> := {};
    var i := 0;
    while i < |all|
      invariant 0 <= i <= |all|
      invariant values + KeyedDedup.DedupFrom(all[i..], ContentIdOf, HasImage, keys)
             == KeyedDedup.Dedup(all, ContentIdOf, HasImage)
    {
      var place := all[i];
      KeyedDedup.DedupLoopStep(values, all, i, ContentIdOf, HasImage, keys);
      if HasImage(place) && place.contentId !in keys {
        values := values + [place];
        keys := keys + {place.contentId};
      }
      i := i + 1;
    }
    unique := values;
  }

  /**
   * The shown places have pairwise distinct content ids and usable images,
   * each is the first place in page order with its content id and an image,
   * they keep page order, and every content id that has a place with an
   * image is shown.
   */
  lemma UniquePlacesSpec(all: seq<Place>)
    ensures var u := KeyedDedup.Dedup(all, ContentIdOf, HasImage);
            (forall i, j :: 0 <= i < j < |u| ==> u[i].contentId != u[j].contentId)
            && (forall i :: 0 <= i < |u| ==> HasImage(u[i]))
            && (forall i, j :: 0 <= i < |u| && 0 <= j < |all| && HasImage(all[j]) && all[j].contentId == u[i].contentId ==>
                  exists j0 :: 0 <= j0 <= j && all[j0] == u[i])
            && KeyedDedup.IsSubseq(u, all)
            && KeyedDedup.Keys(u, ContentIdOf) == set i | 0 <= i < |all| && HasImage(all[i]) :: all[i].contentId
  {
    KeyedDedup.DedupSpec(all, ContentIdOf, HasImage);
  }

  /** A like document under `users/<uid>/likes`: its id and its stored count. */
  datatype LikeDoc = LikeDoc(id: string, likeCount: Option<int>)

  /** `counts[doc.id] = doc.data().likeCount ?? 0` over the documents in order. */
  function CountsOf(docs: seq<LikeDoc>): (m: map<string, int>)
    ensures forall k :: k in m <==> exists i :: 0 <= i < |docs| && docs[i].id == k
  {
    if docs == [] then map[]
    else
      var last := docs[|docs| - 1];
      var m0 := CountsOf(docs[..|docs| - 1]);
      assert forall i :: 0 <= i < |docs| - 1 ==> docs[..|docs| - 1][i] == docs[i];
      m0[last.id := last.likeCount.GetOr(0)]
  }

  function IdsOf(docs: seq<LikeDoc>): (ids: seq<string>)
    ensures |ids| == |docs| && forall i :: 0 <= i < |docs| ==> ids[i] == docs[i].id
  {
    seq(|docs|, i requires 0 <= i < |docs| => docs[i].id)
  }

  /** The like-document id the page uses for a content id. */
  function LikeKey(contentId: string): string { "places_" + contentId }

  /** The first place in page order with that content id, as `find` returns it. */
  function Find(all: seq<Place>, contentId: string): (r: Option<Place>)
    ensures r.Some? ==> r.value in all && r.value.contentId == contentId
    ensures r.None? ==> forall i :: 0 <= i < |all| ==> all[i].contentId != contentId
  {
    if all == [] then None
    else if all[0].contentId == contentId then Some(all[0])
    else Find(all[1..], contentId)
  }

  /** The count `handleLikedChange` starts from: the overlay value, else the first loaded place's, else 0. */
  function CurrentCount(counts: map<string, int>, all: seq<Place>, contentId: string): int {
    if contentId in counts then counts[contentId]
    else match Find(all, contentId)
      case Some(p) => p.likeCount
      case None => 0
  }

  /** The new overlay count: one more on a like, one less but not below zero on an unlike. */
  function ToggledCount(current: int, liked: bool): (n: int)
    ensures liked ==> n == current + 1
    ensures !liked ==> n >= 0 && (current >= 1 ==> n == current - 1)
  {
    if liked then current + 1 else Max(current - 1, 0)
  }

  /** The page's like overlay: liked like-document ids and per-content counts. */
  class LikeOverlay {
    var likedIds: seq<string>
    var likeCounts: map<string, int>

    constructor ()
      ensures likedIds == [] && likeCounts == map[]
    {
      likedIds := [];
      likeCounts := map[];
    }

    /** The card's `likedOverride`. */
    function LikedOverride(contentId: string): bool
      reads this
    {
      LikeKey(contentId) in likedIds
    }

    /** The card's `countOverride` (`undefined` as `None`). */
    function CountOverride(contentId: string): Option<int>
      reads this
    {
      if contentId in likeCounts then Some(likeCounts[contentId]) else None
    }

    /**
     * `fetchLikedIds`: without a user nothing happens; otherwise both lists
     * are replaced from the user's like documents.
     */
    method LoadLikedIds(signedIn: bool, docs: seq<LikeDoc>)
      modifies this
      ensures !signedIn ==> likedIds == old(likedIds) && likeCounts == old(likeCounts)
      ensures signedIn ==> likedIds == IdsOf(docs) && likeCounts == CountsOf(docs)
    {
      if !signedIn { return; }
      var ids := IdsOf(docs);
      var counts: map<string, int> := map[];
      var i := 0;
      while i < |docs|
        invariant 0 <= i <= |docs|
        invariant counts == CountsOf(docs[..i])
      {
        assert docs[..i + 1][..i] == docs[..i];
        counts := counts[docs[i].id := docs[i].likeCount.GetOr(0)];
        i := i + 1;
      }
      assert docs[..|docs|] == docs;
      likedIds := ids;
      likeCounts := counts;
    }

    /**
     * `handleLikedChange(id, liked)`: the like-document id is appended on a
     * like (even if present) and every occurrence removed on an unlike; the
     * count is stored under the id with its first `places_` removed.
     */
    method HandleLikedChange(id: string, liked: bool, all: seq<Place>)
      modifies this
      ensures liked ==> likedIds == old(likedIds) + [id]
      ensures !liked ==> likedIds == Text.Without(old(likedIds), id)
      ensures var contentId := Text.ReplaceFirst(id, "places_", "");
              likeCounts == old(likeCounts)[contentId :=
                ToggledCount(CurrentCount(old(likeCounts), all, contentId), liked)]
    {
      var contentId := Text.ReplaceFirst(id, "places_", "");
      likedIds := if liked then likedIds + [id] else Text.Without(likedIds, id);
      var current := CurrentCount(likeCounts, all, contentId);
      likeCounts := likeCounts[contentId := if liked then current + 1 else Max(current - 1, 0)];
    }
  }

  /**
   * The card callback passes `places_<contentId>`, so the count is stored
   * under the bare content id and the card reads it back.
   */
  lemma CardCallbackKey(contentId: string)
    ensures Text.ReplaceFirst(LikeKey(contentId), "places_", "") == contentId
  {
    Text.ReplacePrefixRoundTrip("places_", contentId);
  }

  /**
   * Fetched counts are stored under the like-document ids (`places_<id>`)
   * while cards read bare content ids: a content id that does not itself
   * start with `places_` never finds a fetched count.
   */
  lemma FetchedCountsNeverApply(docs: seq<LikeDoc>, contentId: string)
    requires forall i :: 0 <= i < |docs| ==> Text.StartsWith(docs[i].id, "places_")
    requires !Text.StartsWith(contentId, "places_")
    ensures contentId !in CountsOf(docs)
  {
  }
}
