/**
 * The notification pages: a single-phase pager over the user's
 * notifications newest first, twenty at a time, the unread check, the
 * click and mark-all-read writes, and the conditions for the empty state
 * and the mark-all-read button. The full page and the header drop-down
 * list share the pager and differ in the button condition.
 */
module Notifications {
  import opened Wrappers
  import opened OrderedStore
  import Arith

  /** `limit`. */
  const LIMIT: nat := 20

  datatype Kind = Like | Follow

  /** A notification document; `id` is the document id. */
  datatype Notification = Notification(id: string, isRead: bool, kind: Kind, senderName: string)

  datatype NotiPage = NotiPage(notifications: seq<Notification>, lastDoc: Option<Snapshot<Notification>>)

  /**
   * `fetchNotifications`: without a cursor the first twenty, with one the
   * twenty after it; the cursor returned is the last document or null.
   */
  function FetchNotifications(rows: seq<Notification>, pageParam: Option<Snapshot<Notification>>): (p: NotiPage)
    ensures |p.notifications| <= LIMIT
    ensures p.lastDoc.None? <==> p.notifications == []
    ensures p.lastDoc.Some? ==> p.lastDoc.value.data == p.notifications[|p.notifications| - 1]
    ensures |p.notifications| < LIMIT ==> StartOf(pageParam) + |p.notifications| >= |rows|
  {
    var page := Query(rows, pageParam, LIMIT);
    NotiPage(Data(page), LastDoc(page))
  }

  /** The page is the run of (at most) twenty notifications right after the cursor, or the first twenty. */
  lemma FetchNotificationsSpec(rows: seq<Notification>, pageParam: Option<Snapshot<Notification>>)
    requires StartOf(pageParam) <= |rows|
    ensures var p := FetchNotifications(rows, pageParam);
            var start := StartOf(pageParam);
            p.notifications == rows[start..start + |p.notifications|]
            && |p.notifications| == Min(LIMIT, |rows| - start)
            && (pageParam.None? ==> start == 0)
  {
    QueryData(rows, pageParam, LIMIT);
  }

  /** `queryFn`: without a uid, an empty page with a null cursor. */
  function QueryFn(uid: Option<string>, rows: seq<Notification>, pageParam: Option<Snapshot<Notification>>): (p: NotiPage)
    ensures uid.None? ==> p == NotiPage([], None)
    ensures uid.Some? ==> p == FetchNotifications(rows, pageParam)
  {
    if uid.None? then NotiPage([], None) else FetchNotifications(rows, pageParam)
  }

  /**
   * `getNextPageParam`: no next page when the last page is missing or has
   * fewer than twenty notifications, otherwise its last document. A null
   * cursor counts as no next page too.
   */
  function GetNextPageParam(lastPage: Option<NotiPage>): (r: Option<Snapshot<Notification>>)
    ensures lastPage.None? ==> r.None?
    ensures lastPage.Some? && |lastPage.value.notifications| < LIMIT ==> r.None?
    ensures r.Some? ==> lastPage.Some? && |lastPage.value.notifications| >= LIMIT && r == lastPage.value.lastDoc
    ensures lastPage.Some? && |lastPage.value.notifications| >= LIMIT ==> r == lastPage.value.lastDoc
  {
    if lastPage.None? || |lastPage.value.notifications| == 0 || |lastPage.value.notifications| < LIMIT then None
    else lastPage.value.lastDoc
  }

  /** `hasNextPage`. */
  predicate HasNextPage(pages: seq<NotiPage>) {
    GetNextPageParam(if pages == [] then None else Some(pages[|pages| - 1])).Some?
  }

  /** The pages loaded when the "more" button is pressed until it disappears, from cursor `c` on. */
  function AllPages(rows: seq<Notification>, c: Option<Snapshot<Notification>>): seq<NotiPage>
    decreases Remaining(rows, c)
  {
    var page := FetchNotifications(rows, c);
    match GetNextPageParam(Some(page))
    case None => [page]
    case Some(next) =>
      LastDocResumes(rows, c, LIMIT);
      [page] + AllPages(rows, Some(next))
  }

  function Flatten(pages: seq<NotiPage>): seq<Notification> {
    if pages == [] then [] else pages[0].notifications + Flatten(pages[1..])
  }

  /** The pager fetches exactly what `Drain` fetches. */
  lemma {:induction false} AllPagesDrain(rows: seq<Notification>, c: Option<Snapshot<Notification>>)
    ensures Flatten(AllPages(rows, c)) == Drain(rows, c, LIMIT)
    ensures |AllPages(rows, c)| == DrainQueries(rows, c, LIMIT)
    decreases Remaining(rows, c)
  {
    var page := FetchNotifications(rows, c);
    var q := Query(rows, c, LIMIT);
    assert page.notifications == Data(q) && page.lastDoc == LastDoc(q);
    if |q| < LIMIT {
      assert AllPages(rows, c) == [page];
      assert Flatten([page]) == page.notifications + Flatten([]);
    } else {
      LastDocResumes(rows, c, LIMIT);
      var next := page.lastDoc;
      AllPagesDrain(rows, next);
      assert AllPages(rows, c) == [page] + AllPages(rows, next);
      assert ([page] + AllPages(rows, next))[1..] == AllPages(rows, next);
    }
  }

  /**
   * `pages` lists `rows` in full: every notification once, in order, in
   * `|rows| / 20 + 1` pages, with no next page after the last one, which is
   * empty exactly when the count is a multiple of twenty.
   */
  predicate FullListing(rows: seq<Notification>, pages: seq<NotiPage>) {
    Flatten(pages) == rows && |pages| == |rows| / LIMIT + 1 && pages != [] && !HasNextPage(pages)
    && (|rows| % LIMIT == 0 <==> pages[|pages| - 1].notifications == [])
  }

  /**
   * Loading every page from the initial null cursor lists every
   * notification once, newest first, in `|rows| / 20 + 1` pages; the last
   * page is short, and empty when the count is a multiple of twenty.
   */
  lemma AllPagesComplete(rows: seq<Notification>)
    ensures FullListing(rows, AllPages(rows, None))
  {
    AllPagesListEvery(rows);
    AllPagesCount(rows);
    AllPagesEnd(rows);
  }

  lemma AllPagesListEvery(rows: seq<Notification>)
    ensures Flatten(AllPages(rows, None)) == rows
  {
    AllPagesDrain(rows, None);
    DrainAll(rows, None, LIMIT);
    assert rows[0..] == rows;
  }

  lemma AllPagesCount(rows: seq<Notification>)
    ensures |AllPages(rows, None)| == |rows| / LIMIT + 1
  {
    AllPagesDrain(rows, None);
    DrainQueryCount(rows, None, LIMIT);
  }

  lemma AllPagesEnd(rows: seq<Notification>)
    ensures var pages := AllPages(rows, None);
            pages != [] && !HasNextPage(pages) && (|rows| % LIMIT == 0 <==> pages[|pages| - 1].notifications == [])
  {
    LastPageShort(rows, None);
  }

  /** The last page of a full load is the only short one, and holds the remainder modulo twenty. */
  lemma {:induction false} LastPageShort(rows: seq<Notification>, c: Option<Snapshot<Notification>>)
    requires StartOf(c) <= |rows|
    ensures var pages := AllPages(rows, c);
            pages != [] && !HasNextPage(pages)
            && |pages[|pages| - 1].notifications| == Remaining(rows, c) % LIMIT
    decreases Remaining(rows, c)
  {
    var page := FetchNotifications(rows, c);
    if |page.notifications| < LIMIT {
      LastPageOnly(rows, c);
    } else {
      LastDocResumes(rows, c, LIMIT);
      var next := page.lastDoc;
      LastPageShort(rows, next);
      LastPageLater(rows, c, AllPages(rows, next));
    }
  }

  /** A short first page is the only page, and holds all that remains. */
  lemma LastPageOnly(rows: seq<Notification>, c: Option<Snapshot<Notification>>)
    requires StartOf(c) <= |rows| && |FetchNotifications(rows, c).notifications| < LIMIT
    ensures AllPages(rows, c) == [FetchNotifications(rows, c)]
    ensures |FetchNotifications(rows, c).notifications| == Remaining(rows, c) % LIMIT
  {
    var q := Query(rows, c, LIMIT);
    QueryData(rows, c, LIMIT);
    Arith.DivModUnique(Remaining(rows, c), LIMIT, 0, |q|);
  }

  /** After a full page, the last page is the last page of the rest, and the remainder is the same. */
  lemma LastPageLater(rows: seq<Notification>, c: Option<Snapshot<Notification>>, rest: seq<NotiPage>)
    requires StartOf(c) <= |rows| && |FetchNotifications(rows, c).notifications| >= LIMIT
    requires var next := FetchNotifications(rows, c).lastDoc;
             rest == AllPages(rows, next) && rest != [] && !HasNextPage(rest)
             && |rest[|rest| - 1].notifications| == Remaining(rows, next) % LIMIT
    ensures var pages := AllPages(rows, c);
            pages != [] && !HasNextPage(pages)
            && |pages[|pages| - 1].notifications| == Remaining(rows, c) % LIMIT
  {
    var page := FetchNotifications(rows, c);
    AllPagesAfterFull(rows, c);
    LastOfCons(page, rest);
    var m := Remaining(rows, page.lastDoc);
    Arith.DivModUnique(m + LIMIT, LIMIT, m / LIMIT + 1, m % LIMIT);
  }

  /** A full page is followed by the pages from its last document, twenty notifications further on. */
  lemma AllPagesAfterFull(rows: seq<Notification>, c: Option<Snapshot<Notification>>)
    requires StartOf(c) <= |rows| && |FetchNotifications(rows, c).notifications| >= LIMIT
    ensures var page := FetchNotifications(rows, c);
            AllPages(rows, c) == [page] + AllPages(rows, page.lastDoc)
            && Remaining(rows, c) == Remaining(rows, page.lastDoc) + LIMIT
  {
    LastDocResumes(rows, c, LIMIT);
  }

  /** A page put in front changes neither the last page nor whether there is a next one. */
  lemma LastOfCons(page: NotiPage, rest: seq<NotiPage>)
    requires rest != []
    ensures ([page] + rest)[|[page] + rest| - 1] == rest[|rest| - 1]
    ensures HasNextPage([page] + rest) == HasNextPage(rest)
  {
  }

  /** Some loaded notification is unread. */
  predicate AnyUnread(pages: seq<NotiPage>) {
    exists i, j :: 0 <= i < |pages| && 0 <= j < |pages[i].notifications| && !pages[i].notifications[j].isRead
  }

  /** The ids of the unread notifications, page by page, in order. */
  function UnreadIds(pages: seq<NotiPage>): seq<string> {
    if pages == [] then [] else UnreadIn(pages[0].notifications) + UnreadIds(pages[1..])
  }

  function UnreadIn(ns: seq<Notification>): seq<string> {
    if ns == [] then [] else (if !ns[0].isRead then [ns[0].id] else []) + UnreadIn(ns[1..])
  }

  lemma {:induction false} UnreadInSpec(ns: seq<Notification>)
    ensures forall id :: id in UnreadIn(ns) <==> exists j :: 0 <= j < |ns| && !ns[j].isRead && ns[j].id == id
    ensures |UnreadIn(ns)| <= |ns|
  {
    if ns != [] {
      UnreadInSpec(ns[1..]);
      assert forall j :: 1 <= j < |ns| ==> ns[j] == ns[1..][j - 1];
      forall id | id in UnreadIn(ns) ensures exists j :: 0 <= j < |ns| && !ns[j].isRead && ns[j].id == id {
        if !(id in UnreadIn(ns[1..])) {
          assert !ns[0].isRead && ns[0].id == id;
        } else {
          var j :| 0 <= j < |ns[1..]| && !ns[1..][j].isRead && ns[1..][j].id == id;
          assert ns[j + 1] == ns[1..][j];
        }
      }
    }
  }

  /**
   * The mark-all-read batch updates exactly the unread loaded
   * notifications: an id is in the batch iff some unread notification has
   * it, and the batch is empty iff nothing is unread.
   */
  lemma {:induction false} UnreadIdsSpec(pages: seq<NotiPage>)
    ensures forall id :: id in UnreadIds(pages) <==>
              exists i, j :: 0 <= i < |pages| && 0 <= j < |pages[i].notifications|
                && !pages[i].notifications[j].isRead && pages[i].notifications[j].id == id
    ensures UnreadIds(pages) == [] <==> !AnyUnread(pages)
  {
    UnreadIdsSound(pages);
    UnreadIdsComplete(pages);
    if UnreadIds(pages) != [] {
      assert UnreadIds(pages)[0] in UnreadIds(pages);
    }
    if AnyUnread(pages) {
      var i, j :| 0 <= i < |pages| && 0 <= j < |pages[i].notifications| && !pages[i].notifications[j].isRead;
      assert pages[i].notifications[j].id in UnreadIds(pages);
    }
  }

  /** Every id in the batch is an unread notification's. */
  lemma {:induction false} UnreadIdsSound(pages: seq<NotiPage>)
    ensures forall id :: id in UnreadIds(pages) ==>
              exists i, j :: 0 <= i < |pages| && 0 <= j < |pages[i].notifications|
                && !pages[i].notifications[j].isRead && pages[i].notifications[j].id == id
  {
    if pages != [] {
      UnreadIdsSound(pages[1..]);
      UnreadInSpec(pages[0].notifications);
      forall id | id in UnreadIds(pages)
        ensures exists i, j :: 0 <= i < |pages| && 0 <= j < |pages[i].notifications|
                  && !pages[i].notifications[j].isRead && pages[i].notifications[j].id == id
      {
        if id in UnreadIn(pages[0].notifications) {
          var j :| 0 <= j < |pages[0].notifications| && !pages[0].notifications[j].isRead && pages[0].notifications[j].id == id;
        } else {
          assert id in UnreadIds(pages[1..]);
          var i, j :| 0 <= i < |pages[1..]| && 0 <= j < |pages[1..][i].notifications|
                  && !pages[1..][i].notifications[j].isRead && pages[1..][i].notifications[j].id == id;
          assert pages[i + 1] == pages[1..][i];
        }
      }
    }
  }

  /** Every unread notification's id is in the batch. */
  lemma {:induction false} UnreadIdsComplete(pages: seq<NotiPage>)
    ensures forall i, j :: 0 <= i < |pages| && 0 <= j < |pages[i].notifications| && !pages[i].notifications[j].isRead
              ==> pages[i].notifications[j].id in UnreadIds(pages)
  {
    if pages != [] {
      UnreadIdsComplete(pages[1..]);
      UnreadInSpec(pages[0].notifications);
      forall i, j | 0 <= i < |pages| && 0 <= j < |pages[i].notifications| && !pages[i].notifications[j].isRead
        ensures pages[i].notifications[j].id in UnreadIds(pages)
      {
        if i > 0 {
          assert pages[1..][i - 1] == pages[i];
        }
      }
    }
  }

  /**
   * `handleAllRead`'s nested `forEach`: one update per unread notification.
   * Without data or a uid, no batch is built.
   */
  method AllReadBatch(data: Option<seq<NotiPage>>, uid: Option<string>) returns (batch: Option<seq<string>>)
    ensures data.None? || uid.None? ==> batch.None?
    ensures data.Some? && uid.Some? ==> batch == Some(UnreadIds(data.value))
  {
    if data.None? || uid.None? {
      return None;
    }
    var pages := data.value;
    var ids: seq<string> := [];
    var i := 0;
    while i < |pages|
      invariant 0 <= i <= |pages|
      invariant ids + UnreadIds(pages[i..]) == UnreadIds(pages)
    {
      var ns := pages[i].notifications;
      var j := 0;
      ghost var before := ids;
      while j < |ns|
        invariant 0 <= j <= |ns|
        invariant ids + UnreadIn(ns[j..]) == before + UnreadIn(ns)
      {
        UnreadInStep(ns, j);
        if !ns[j].isRead {
          Assoc(ids, [ns[j].id], UnreadIn(ns[j + 1..]));
          ids := ids + [ns[j].id];
        }
        j := j + 1;
      }
      assert ns[j..] == [];
      UnreadIdsStep(pages, i);
      Assoc(before, UnreadIn(ns), UnreadIds(pages[i + 1..]));
      i := i + 1;
    }
    assert pages[i..] == [];
    assert ids + [] == ids;
    return Some(ids);
  }

  /** Scanning one more notification of a page. */
  lemma UnreadInStep(ns: seq<Notification>, j: nat)
    requires j < |ns|
    ensures UnreadIn(ns[j..]) == (if !ns[j].isRead then [ns[j].id] else []) + UnreadIn(ns[j + 1..])
  {
    assert ns[j..][1..] == ns[j + 1..];
  }

  /** Scanning one more page. */
  lemma UnreadIdsStep(pages: seq<NotiPage>, i: nat)
    requires i < |pages|
    ensures UnreadIds(pages[i..]) == UnreadIn(pages[i].notifications) + UnreadIds(pages[i + 1..])
  {
    assert pages[i..][1..] == pages[i + 1..];
  }

  lemma Assoc<T>(a: seq<T>, b: seq<T>, c: seq<T>)
    ensures (a + b) + c == a + (b + c)
  {
  }

  /** Clicking a notification writes `isRead: true` for it only when it is unread. */
  function ClickWrite(n: Notification): (w: Option<string>)
    ensures w.Some? <==> !n.isRead
    ensures w.Some? ==> w.value == n.id
  {
    if !n.isRead then Some(n.id) else None
  }

  /** The empty state of the full page: every page is empty. */
  predicate ShowEmptyState(pages: seq<NotiPage>) {
    forall i :: 0 <= i < |pages| ==> pages[i].notifications == []
  }

  /** The full page's mark-all-read button: every page is non-empty. */
  predicate ShowAllReadButton(pages: seq<NotiPage>) {
    forall i :: 0 <= i < |pages| ==> pages[i].notifications != []
  }

  /** The drop-down list's mark-all-read button: something is unread and some page is non-empty. */
  predicate ListShowsAllRead(isUnRead: bool, pages: seq<NotiPage>) {
    isUnRead && exists i :: 0 <= i < |pages| && pages[i].notifications != []
  }

  /** The empty state shows iff nothing was loaded. */
  lemma EmptyStateIff(pages: seq<NotiPage>)
    ensures ShowEmptyState(pages) <==> Flatten(pages) == []
  {
    if pages != [] {
      EmptyStateIff(pages[1..]);
      assert forall i :: 1 <= i < |pages| ==> pages[i] == pages[1..][i - 1];
    }
  }

  /**
   * After loading everything, when the count is a positive multiple of
   * twenty the final page is empty, so the full page hides the
   * mark-all-read button although notifications are listed.
   */
  lemma ButtonHiddenAfterFullMultiple(rows: seq<Notification>)
    requires |rows| > 0 && |rows| % LIMIT == 0
    ensures var pages := AllPages(rows, None);
            !ShowAllReadButton(pages) && !ShowEmptyState(pages)
  {
    AllPagesComplete(rows);
    ButtonHiddenByEmptyLast(rows, AllPages(rows, None));
  }

  /** A listing whose final page is empty but which holds something shows neither the button nor the empty state. */
  lemma ButtonHiddenByEmptyLast(rows: seq<Notification>, pages: seq<NotiPage>)
    requires |rows| > 0 && |rows| % LIMIT == 0 && FullListing(rows, pages)
    ensures !ShowAllReadButton(pages) && !ShowEmptyState(pages)
  {
    EmptyStateIff(pages);
  }

  /** The unread flag the pages keep. */
  class UnreadState {
    var isUnRead: bool

    constructor ()
      ensures !isUnRead
    {
      isUnRead := false;
    }

    /** `checkUnreadNotifications`: without data nothing changes. */
    method CheckUnread(data: Option<seq<NotiPage>>)
      modifies this
      ensures data.None? ==> isUnRead == old(isUnRead)
      ensures data.Some? ==> (isUnRead <==> AnyUnread(data.value))
    {
      if data.None? {
        return;
      }
      var pages := data.value;
      var unread := false;
      var i := 0;
      while i < |pages| && !unread
        invariant 0 <= i <= |pages|
        invariant unread ==> AnyUnread(pages)
        invariant !unread ==> forall i0, j :: 0 <= i0 < i && 0 <= j < |pages[i0].notifications| ==> pages[i0].notifications[j].isRead
      {
        var ns := pages[i].notifications;
        var j := 0;
        while j < |ns| && !unread
          invariant 0 <= j <= |ns|
          invariant unread ==> AnyUnread(pages)
          invariant !unread ==> forall j0 :: 0 <= j0 < j ==> ns[j0].isRead
        {
          if !ns[j].isRead {
            unread := true;
          }
          j := j + 1;
        }
        i := i + 1;
      }
      isUnRead := unread;
    }
  }

  /**
   * With the flag in step with the data, the drop-down's button shows only
   * when there is an unread notification, so its batch is never empty.
   */
  lemma ListButtonHasWork(pages: seq<NotiPage>)
    requires ListShowsAllRead(AnyUnread(pages), pages)
    ensures UnreadIds(pages) != []
  {
    UnreadIdsSpec(pages);
  }
}
