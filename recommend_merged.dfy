/**
 * The `recommendmerged` API route: it asks the tour API for two pages of
 * each content type in each district of Daejeon, keeps the first item per
 * content id, merges in the like counts stored for the places, writes one
 * merged document per item and answers with the items and their counts.
 */
module RecommendMerged {
  import opened Wrappers
  import KeyedDedup
  import Arith

  const AREA_CODE: int := 3
  const SIGUNGU_CODES: seq<int> := [2, 3, 4, 5, 6]
  const CONTENT_TYPES: seq<int> := [12, 14, 15, 28]
  const PAGES: int := 2
  const NUM_OF_ROWS: int := 100
  const ARRANGE := "P"
  const SERVER_ERROR := "서버 에러"

  /** The query parameters of one upstream request (the service key and app fields are constant and left out). */
  datatype Request = Request(areaCode: int, sigunguCode: int, contentTypeId: int, pageNo: int, numOfRows: int, arrange: string)

  /** An upstream item; `firstimage` is `None` when the field is missing. */
  datatype Item = Item(contentid: string, title: string, addr1: string, firstimage: Option<string>)

  /**
   * What one request yields: the `items.item` value when it is an array,
   * any other shape of body, or a thrown request.
   */
  datatype Answer = Items(items: seq<Item>) | NotArray | Failed

  /** A stored place document, as far as `likeMap` reads it. */
  datatype PlaceDoc = PlaceDoc(contentId: string, likeCount: Option<int>)

  /** The merged document written under `places/<contentid>`. */
  datatype Merged = Merged(contentId: string, title: string, addr1: string, firstimage: Option<string>, likeCount: int, createdAt: string)

  /** One `batch.set(placesRef.doc(id), data, { merge: true })`. */
  datatype Write = Write(docId: string, data: Merged)

  /** One entry of the response: the upstream item with its like count. */
  datatype ResponseItem = ResponseItem(item: Item, likeCount: int)

  datatype Reply = Ok(items: seq<ResponseItem>) | ServerError(message: string)

  /** The number of requests: one per district, content type and page. */
  const REQUESTS: nat := 5 * 4 * 2

  /**
   * The request grid in loop order: the district changes slowest, then the
   * content type, then the page number.
   */
  function Grid(): (g: seq<Request>)
    ensures |g| == REQUESTS
  {
    seq(REQUESTS, k requires 0 <= k < REQUESTS =>
      Request(AREA_CODE, SIGUNGU_CODES[k / 8], CONTENT_TYPES[(k / 2) % 4], k % 2 + 1, NUM_OF_ROWS, ARRANGE))
  }

  /** The grid position of district `a`, content type `b` and page `p`. */
  lemma GridAt(a: nat, b: nat, p: nat)
    requires a < 5 && b < 4 && 1 <= p <= 2
    ensures 8 * a + 2 * b + p - 1 < REQUESTS
    ensures Grid()[8 * a + 2 * b + p - 1]
         == Request(AREA_CODE, SIGUNGU_CODES[a], CONTENT_TYPES[b], p, NUM_OF_ROWS, ARRANGE)
  {
    var k := 8 * a + 2 * b + p - 1;
    assert k == a * 8 + (2 * b + p - 1);
    assert k / 8 == a && k % 8 == 2 * b + p - 1 by {
      Arith.DivModUnique(k, 8, a, 2 * b + p - 1);
    }
    assert k / 2 == 4 * a + b && k % 2 == p - 1 by {
      Arith.DivModUnique(k, 2, 4 * a + b, p - 1);
    }
    assert (4 * a + b) % 4 == b by {
      Arith.DivModUnique(4 * a + b, 4, a, b);
    }
  }

  /** The items an answer contributes: an array's items, nothing otherwise. */
  function ItemsOf(a: Answer): seq<Item> {
    if a.Items? then a.items else []
  }

  /** `allItems` after the requests `reqs`, each answered by `api`. */
  function Gathered(api: Request -> Answer, reqs: seq<Request>): seq<Item> {
    if reqs == [] then []
    else Gathered(api, reqs[..|reqs| - 1]) + ItemsOf(api(reqs[|reqs| - 1]))
  }

  /** Gathering is split at any request. */
  lemma {:induction false} GatheredConcat(api: Request -> Answer, a: seq<Request>, b: seq<Request>)
    ensures Gathered(api, a + b) == Gathered(api, a) + Gathered(api, b)
    decreases |b|
  {
    if b == [] {
      assert a + b == a;
    } else {
      var b', last := b[..|b| - 1], b[|b| - 1];
      assert (a + b)[..|a + b| - 1] == a + b';
      assert (a + b)[|a + b| - 1] == last;
      GatheredConcat(api, a, b');
      calc {
        Gathered(api, a + b);
        Gathered(api, a + b') + ItemsOf(api(last));
        (Gathered(api, a) + Gathered(api, b')) + ItemsOf(api(last));
        Gathered(api, a) + (Gathered(api, b') + ItemsOf(api(last)));
        Gathered(api, a) + Gathered(api, b);
      }
    }
  }

  /** One more request appends its answer's items. */
  lemma GatheredSnoc(api: Request -> Answer, reqs: seq<Request>, r: Request)
    ensures Gathered(api, reqs + [r]) == Gathered(api, reqs) + ItemsOf(api(r))
  {
    assert (reqs + [r])[..|reqs|] == reqs;
  }

  /** A request whose answer is not an array contributes nothing and the later requests still count. */
  lemma GatheredSkipsFailures(api: Request -> Answer, reqs: seq<Request>, i: nat)
    requires i < |reqs| && !api(reqs[i]).Items?
    ensures Gathered(api, reqs) == Gathered(api, reqs[..i]) + Gathered(api, reqs[i + 1..])
  {
    var pre, r, post := reqs[..i], reqs[i], reqs[i + 1..];
    assert reqs == (pre + [r]) + post;
    GatheredConcat(api, pre + [r], post);
    GatheredSnoc(api, pre, r);
    assert Gathered(api, pre) + [] == Gathered(api, pre);
  }

  /** An item is gathered iff some request's answer is an array holding it. */
  lemma {:induction false} GatheredSpec(api: Request -> Answer, reqs: seq<Request>)
    ensures forall x :: x in Gathered(api, reqs) <==>
              exists i :: 0 <= i < |reqs| && api(reqs[i]).Items? && x in api(reqs[i]).items
  {
    if reqs != [] {
      var init := reqs[..|reqs| - 1];
      GatheredSpec(api, init);
      assert forall i :: 0 <= i < |init| ==> init[i] == reqs[i];
      forall x | x in Gathered(api, reqs)
        ensures exists i :: 0 <= i < |reqs| && api(reqs[i]).Items? && x in api(reqs[i]).items
      {
        if x !in Gathered(api, init) {
          assert api(reqs[|reqs| - 1]).Items?;
        }
      }
    }
  }

  /** The grid up to district `a`, content type `b` and page `p` is the grid before it and that request. */
  lemma GridStep(a: nat, b: nat, p: nat)
    requires a < 5 && b < 4 && 1 <= p <= 2
    ensures 8 * a + 2 * b + p <= REQUESTS
    ensures Grid()[..8 * a + 2 * b + p]
         == Grid()[..8 * a + 2 * b + p - 1] + [Request(AREA_CODE, SIGUNGU_CODES[a], CONTENT_TYPES[b], p, NUM_OF_ROWS, ARRANGE)]
  {
    GridAt(a, b, p);
    var k := 8 * a + 2 * b + p - 1;
    assert Grid()[..k + 1] == Grid()[..k] + [Grid()[k]];
  }

  /** One request of the grid: ask for district `a`, content type `b` and page `p`, and append an array answer. */
  method Fetch(api: Request -> Answer, a: nat, b: nat, p: nat, requests: seq<Request>, all: seq<Item>)
    returns (requests': seq<Request>, all': seq<Item>)
    requires a < 5 && b < 4 && 1 <= p <= 2
    requires requests == Grid()[..8 * a + 2 * b + p - 1] && all == Gathered(api, requests)
    ensures requests' == Grid()[..8 * a + 2 * b + p] && all' == Gathered(api, requests')
  {
    var req := Request(AREA_CODE, SIGUNGU_CODES[a], CONTENT_TYPES[b], p, NUM_OF_ROWS, ARRANGE);
    GridStep(a, b, p);
    GatheredSnoc(api, requests, req);
    var answer := api(req);
    all' := all;
    if answer.Items? {
      all' := all' + answer.items;
    } else {
      assert all + ItemsOf(answer) == all;
    }
    requests' := requests + [req];
  }

  /** The innermost loop: both pages of district `a` and content type `b`. */
  method FetchPages(api: Request -> Answer, a: nat, b: nat, requests: seq<Request>, all: seq<Item>)
    returns (requests': seq<Request>, all': seq<Item>)
    requires a < 5 && b < 4
    requires requests == Grid()[..8 * a + 2 * b] && all == Gathered(api, requests)
    ensures requests' == Grid()[..8 * a + 2 * (b + 1)] && all' == Gathered(api, requests')
  {
    requests', all' := requests, all;
    var page := 1;
    while page <= PAGES
      invariant 1 <= page <= 3
      invariant requests' == Grid()[..8 * a + 2 * b + page - 1]
      invariant all' == Gathered(api, requests')
    {
      requests', all' := Fetch(api, a, b, page, requests', all');
      page := page + 1;
    }
  }

  /** The triple loop: every request of the grid in order, appending the array answers. */
  method Collect(api: Request -> Answer) returns (requests: seq<Request>, all: seq<Item>)
    ensures requests == Grid()
    ensures all == Gathered(api, Grid())
  {
    requests := [];
    all := [];
    var a := 0;
    while a < |SIGUNGU_CODES|
      invariant 0 <= a <= 5
      invariant requests == Grid()[..8 * a]
      invariant all == Gathered(api, requests)
    {
      var b := 0;
      while b < |CONTENT_TYPES|
        invariant 0 <= b <= 4
        invariant requests == Grid()[..8 * a + 2 * b]
        invariant all == Gathered(api, requests)
      {
        requests, all := FetchPages(api, a, b, requests, all);
        b := b + 1;
      }
      a := a + 1;
    }
    assert Grid()[..REQUESTS] == Grid();
  }

  function ContentIdOf(item: Item): string { item.contentid }

  /** Every item is a candidate for `uniqueMap`. */
  predicate AnyItem(item: Item) { true }

  /** The `forEach` that sets `uniqueMap[item.contentid]` only when it is absent. */
  method UniqueItems(all: seq<Item>) returns (unique: seq<Item>)
    ensures unique == KeyedDedup.Dedup(all, ContentIdOf, AnyItem)
  {
    var values: seq<Item> := [];
    var keys: set<string> := {};
    var i := 0;
    while i < |all|
      invariant 0 <= i <= |all|
      invariant values + KeyedDedup.DedupFrom(all[i..], ContentIdOf, AnyItem, keys)
             == KeyedDedup.Dedup(all, ContentIdOf, AnyItem)
    {
      var item := all[i];
      KeyedDedup.DedupLoopStep(values, all, i, ContentIdOf, AnyItem, keys);
      if item.contentid !in keys {
        values := values + [item];
        keys := keys + {item.contentid};
      }
      i := i + 1;
    }
    unique := values;
  }

  /**
   * The unique items have pairwise distinct content ids, each is the first
   * item gathered with its id, they keep first-seen order, and every
   * gathered content id is present.
   */
  lemma UniqueItemsSpec(all: seq<Item>)
    ensures var u := KeyedDedup.Dedup(all, ContentIdOf, AnyItem);
            (forall i, j :: 0 <= i < j < |u| ==> u[i].contentid != u[j].contentid)
            && (forall i, j :: 0 <= i < |u| && 0 <= j < |all| && all[j].contentid == u[i].contentid ==>
                  exists j0 :: 0 <= j0 <= j && all[j0] == u[i])
            && KeyedDedup.IsSubseq(u, all)
            && KeyedDedup.Keys(u, ContentIdOf) == KeyedDedup.Keys(all, ContentIdOf)
  {
    KeyedDedup.DedupSpec(all, ContentIdOf, AnyItem);
    assert (set i | 0 <= i < |all| && AnyItem(all[i]) :: ContentIdOf(all[i])) == KeyedDedup.Keys(all, ContentIdOf);
  }

  /** `likeMap[data.contentId] = data.likeCount ?? 0` over the stored documents in order. */
  function LikeMap(docs: seq<PlaceDoc>): map<string, int> {
    if docs == [] then map[]
    else
      var last := docs[|docs| - 1];
      LikeMap(docs[..|docs| - 1])[last.contentId := last.likeCount.GetOr(0)]
  }

  /** The map has a key exactly for each stored content id. */
  lemma {:induction false} LikeMapKeys(docs: seq<PlaceDoc>)
    ensures forall k :: k in LikeMap(docs) <==> exists i :: 0 <= i < |docs| && docs[i].contentId == k
  {
    if docs != [] {
      var init := docs[..|docs| - 1];
      LikeMapKeys(init);
      forall k | k in LikeMap(docs) ensures exists i :: 0 <= i < |docs| && docs[i].contentId == k {
        var last := docs[|docs| - 1];
        assert LikeMap(docs) == LikeMap(init)[last.contentId := last.likeCount.GetOr(0)];
        if k != last.contentId {
          assert k in LikeMap(init);
          var i :| 0 <= i < |init| && init[i].contentId == k;
          assert docs[i] == init[i];
        }
      }
      forall i | 0 <= i < |docs| ensures docs[i].contentId in LikeMap(docs) {
        if i < |init| { assert docs[i] == init[i]; }
      }
    }
  }

  /** Each key's value is the count of the last document with that content id, 0 when that count is missing. */
  lemma {:induction false} LikeMapLast(docs: seq<PlaceDoc>, i: nat)
    requires i < |docs|
    requires forall j :: i < j < |docs| ==> docs[j].contentId != docs[i].contentId
    ensures docs[i].contentId in LikeMap(docs)
    ensures LikeMap(docs)[docs[i].contentId] == docs[i].likeCount.GetOr(0)
  {
    if i < |docs| - 1 {
      var init := docs[..|docs| - 1];
      assert init[i] == docs[i];
      forall j | i < j < |init| ensures init[j].contentId != init[i].contentId {
        assert init[j] == docs[j];
      }
      LikeMapLast(init, i);
    }
  }

  /** The `snapshot.forEach` that fills `likeMap`. */
  method BuildLikeMap(docs: seq<PlaceDoc>) returns (likeMap: map<string, int>)
    ensures likeMap == LikeMap(docs)
  {
    likeMap := map[];
    var i := 0;
    while i < |docs|
      invariant 0 <= i <= |docs|
      invariant likeMap == LikeMap(docs[..i])
    {
      assert docs[..i + 1][..i] == docs[..i];
      likeMap := likeMap[docs[i].contentId := docs[i].likeCount.GetOr(0)];
      i := i + 1;
    }
    assert docs[..i] == docs;
  }

  /** `item.firstimage || null`: a missing or empty image becomes null. */
  function ImageOrNull(firstimage: Option<string>): (r: Option<string>)
    ensures r.None? <==> firstimage.None? || firstimage.value == ""
    ensures r.Some? ==> r == firstimage
  {
    if firstimage.Some? && firstimage.value != "" then firstimage else None
  }

  /** `likeMap[item.contentid] ?? 0`. */
  function StoredCount(likeMap: map<string, int>, id: string): int {
    if id in likeMap then likeMap[id] else 0
  }

  /** `mergedData`; `now` is the ISO time the route writes as `createdAt`. */
  function MergedOf(item: Item, likeMap: map<string, int>, now: string): (m: Merged)
    ensures m.contentId == item.contentid && m.title == item.title && m.addr1 == item.addr1
    ensures m.firstimage == ImageOrNull(item.firstimage)
    ensures m.likeCount == StoredCount(likeMap, item.contentid)
    ensures m.createdAt == now
  {
    Merged(item.contentid, item.title, item.addr1, ImageOrNull(item.firstimage), StoredCount(likeMap, item.contentid), now)
  }

  /** `likeMap[item.contentid] || 0`: with numeric counts it differs from `??` only by mapping 0 to 0. */
  function ResponseCount(likeMap: map<string, int>, id: string): int {
    if id in likeMap && likeMap[id] != 0 then likeMap[id] else 0
  }

  /** The response body of a successful run. */
  function ResponseOf(unique: seq<Item>, likeMap: map<string, int>): (r: seq<ResponseItem>)
    ensures |r| == |unique|
  {
    seq(|unique|, i requires 0 <= i < |unique| => ResponseItem(unique[i], ResponseCount(likeMap, unique[i].contentid)))
  }

  /** The batch, one merged write per unique item in order, keyed by its content id. */
  method BuildBatch(unique: seq<Item>, likeMap: map<string, int>, now: string) returns (writes: seq<Write>)
    ensures |writes| == |unique|
    ensures forall i :: 0 <= i < |unique| ==> writes[i] == Write(unique[i].contentid, MergedOf(unique[i], likeMap, now))
  {
    writes := [];
    var i := 0;
    while i < |unique|
      invariant 0 <= i <= |unique|
      invariant |writes| == i
      invariant forall k :: 0 <= k < i ==> writes[k] == Write(unique[k].contentid, MergedOf(unique[k], likeMap, now))
    {
      writes := writes + [Write(unique[i].contentid, MergedOf(unique[i], likeMap, now))];
      i := i + 1;
    }
  }

  /** The response reports the same like count as the document written for that item. */
  lemma ResponseAgreesWithBatch(unique: seq<Item>, likeMap: map<string, int>, now: string, i: nat)
    requires i < |unique|
    ensures ResponseOf(unique, likeMap)[i].likeCount == MergedOf(unique[i], likeMap, now).likeCount
    ensures ResponseOf(unique, likeMap)[i].item == unique[i]
  {
  }

  /**
   * The route. `api` answers the upstream requests, `docs` is the stored
   * places collection (`None` when reading it throws), `commitOk` whether
   * the batch commit succeeds and `now` the write time. A thrown store call
   * answers with status 500; upstream failures only skip their request.
   */
  method Handle(api: Request -> Answer, docs: Option<seq<PlaceDoc>>, commitOk: bool, now: string)
    returns (requests: seq<Request>, committed: seq<Write>, reply: Reply)
    ensures requests == Grid()
    ensures docs.None? || !commitOk ==> committed == [] && reply == ServerError(SERVER_ERROR)
    ensures docs.Some? && commitOk ==>
              var unique := KeyedDedup.Dedup(Gathered(api, Grid()), ContentIdOf, AnyItem);
              var likeMap := LikeMap(docs.value);
              |committed| == |unique|
              && (forall i :: 0 <= i < |unique| ==> committed[i] == Write(unique[i].contentid, MergedOf(unique[i], likeMap, now)))
              && reply == Ok(ResponseOf(unique, likeMap))
  {
    var all;
    requests, all := Collect(api);
    var unique := UniqueItems(all);
    committed := [];
    if docs.None? {
      reply := ServerError(SERVER_ERROR);
      return;
    }
    var likeMap := BuildLikeMap(docs.value);
    var writes := BuildBatch(unique, likeMap, now);
    if !commitOk {
      reply := ServerError(SERVER_ERROR);
      return;
    }
    committed := writes;
    reply := Ok(ResponseOf(unique, likeMap));
  }

  /** An id is gathered iff some array answer held an item with it. */
  lemma GatheredIds(api: Request -> Answer, reqs: seq<Request>, id: string)
    ensures id in KeyedDedup.Keys(Gathered(api, reqs), ContentIdOf) <==>
              exists k, x :: 0 <= k < |reqs| && x in ItemsOf(api(reqs[k])) && x.contentid == id
  {
    var all := Gathered(api, reqs);
    GatheredSpec(api, reqs);
    if id in KeyedDedup.Keys(all, ContentIdOf) {
      var j :| 0 <= j < |all| && ContentIdOf(all[j]) == id;
      assert all[j] in all;
      var k :| 0 <= k < |reqs| && api(reqs[k]).Items? && all[j] in api(reqs[k]).items;
      assert all[j] in ItemsOf(api(reqs[k]));
    }
    if exists k, x :: 0 <= k < |reqs| && x in ItemsOf(api(reqs[k])) && x.contentid == id {
      var k, x :| 0 <= k < |reqs| && x in ItemsOf(api(reqs[k])) && x.contentid == id;
      assert x in all;
      var j :| 0 <= j < |all| && all[j] == x;
      assert ContentIdOf(all[j]) == id;
    }
  }

  /**
   * A successful response lists each content id that some array answer
   * held exactly once, and no other.
   */
  lemma ResponseCoversGathered(api: Request -> Answer, reqs: seq<Request>, likeMap: map<string, int>, id: string)
    ensures var r := ResponseOf(KeyedDedup.Dedup(Gathered(api, reqs), ContentIdOf, AnyItem), likeMap);
            (forall i, j :: 0 <= i < j < |r| ==> r[i].item.contentid != r[j].item.contentid)
            && ((exists i :: 0 <= i < |r| && r[i].item.contentid == id) <==>
                exists k, x :: 0 <= k < |reqs| && x in ItemsOf(api(reqs[k])) && x.contentid == id)
  {
    var all := Gathered(api, reqs);
    var u := KeyedDedup.Dedup(all, ContentIdOf, AnyItem);
    UniqueItemsSpec(all);
    GatheredIds(api, reqs, id);
    ResponseKeys(u, likeMap, id);
  }

  /** The response lists the unique items' ids, each once when they are distinct. */
  lemma ResponseKeys(u: seq<Item>, likeMap: map<string, int>, id: string)
    requires forall i, j :: 0 <= i < j < |u| ==> u[i].contentid != u[j].contentid
    ensures var r := ResponseOf(u, likeMap);
            (forall i, j :: 0 <= i < j < |r| ==> r[i].item.contentid != r[j].item.contentid)
            && ((exists i :: 0 <= i < |r| && r[i].item.contentid == id) <==> id in KeyedDedup.Keys(u, ContentIdOf))
  {
    var r := ResponseOf(u, likeMap);
    assert forall i :: 0 <= i < |r| ==> r[i].item == u[i];
    if exists i :: 0 <= i < |r| && r[i].item.contentid == id {
      var i :| 0 <= i < |r| && r[i].item.contentid == id;
      assert ContentIdOf(u[i]) == id;
    }
    if id in KeyedDedup.Keys(u, ContentIdOf) {
      var i :| 0 <= i < |u| && ContentIdOf(u[i]) == id;
      assert r[i].item.contentid == id;
    }
  }
}
