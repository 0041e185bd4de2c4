# Travel-and-social app core, modelled in Dafny

The app is a Next.js site backed by Firebase. Visitors browse recommended
places around Daejeon, post photos with tags, like posts and places, and read
their notifications. They sign up in two steps, sign in, recover a forgotten
id or password, and read a help page. Most of the code is view code and
direct store calls. This project models the logic under that view code, one
Dafny module per source file, plus a few shared modules:

- **Pagers.**
  - The two-phase recommended-places feed (`PlaceFeed`): popular places, most liked first, then every place, newest first.
  - The main and profile post loaders (`PostFeed`). They are single-flight, append only unseen ids, and set `hasMore` from the raw page length.
  - The notification pager (`Notifications`), over an abstract ordered store (`OrderedStore`). A document snapshot remembers its position, and `startAfter` + `limit` returns the next `k` documents.
- **Merges.**
  - First-wins de-duplication by key (`KeyedDedup`), used by the places page and by the `recommendmerged` API route (`RecommendMerged`). The route gathers 40 upstream pages, merges stored like counts and answers with the merged items.
  - The per-user like overlay of the places page.
  - Mark-all-read batches.
- **Optimistic like state machines.** These cover the place card (`PlaceCard`), the place detail button (`PlaceLikeButton`), the post heart (`LikeButton`) and the bookmark page (`Bookmark`). The local liked flag and count are updated around store writes and clamped at zero. Nothing is rolled back.
- **Validators and submit decision tables.**
  - The shared validators (`Validations`).
  - The find-id page (`IdFind`), with email masking and masked-to-real mapping.
  - The password reset page (`PwFind`).
  - Both sign-up pages (`Signup`, `SettingProfile`).
  - Sign-in (`Signin`).
  - The post upload form and its tag field (`UploadPage`, `UploadTag`).
- **Small stores and helpers.**
  - The alert modal store (`AlertStore`).
  - The help-page accordion and search (`Customer`).
  - The image carousel shared by three pages (`Carousel`).
  - Relative-time labels (`TimeAgo`).
- **Shared modules.**
  - `Text`: JavaScript string built-ins (`trim`, `includes`, `indexOf`, `split`, `join`, `replace`, `filter`).
  - `Sorting`: a stable sort, as the engine's `Array.prototype.sort` is.
  - `Posts`: the post record.
  - `Arith`: division facts.
  - `Wrappers`: `Option`.

Modelling conventions:

- Components whose state the handlers update become classes. Their fields are the React state, and their methods are the handlers, with `modifies` clauses and postconditions tying the new state to a specification function.
- Pure memos and helpers become functions, with lemmas about them.
- Loops in the source (the 40-request gather, the mark-all-read batches, the file append, the upload loop, the form validation) are methods with loop invariants.
- Values that come from outside the code are parameters. These are:
  - the store's answers and write failures;
  - the auth layer's answers;
  - the tour API;
  - random numbers and uuids;
  - the clock, as `now` in milliseconds;
  - the Unicode letter and number classes.

Several behaviours are modelled as the code does them, and each is stated by a lemma:

- The places page stores the fetched like counts under `places_<id>` keys, but each card reads them under the bare content id. So only counts toggled in this session ever reach a card (`PlaceFeed.FetchedCountsNeverApply`).
- `hasMore` in both post loaders comes from the raw page length. A page made only of duplicates therefore keeps loading (`PostFeed.DuplicatePageKeepsHasMore`).
- A failed load leaves the loading flag set (`PostFeed.StuckAfterFailure`).
- `validateName` asks for two to seven characters but refuses only the empty name, length 8 and lengths above 10 (`Validations.NameLengthsAccepted`).
- The notification page hides its mark-all-read button once the last page is empty. This happens after any multiple of twenty notifications (`Notifications.ButtonHiddenAfterFullMultiple`).
- The tag field's third message can never be produced (`UploadTag.EnterTagUnreachable`).
- The password reset page never writes the new password (`PwFind.Page.Submit`).

The header drop-down list of notifications
(`src/components/features/notification/NotificationList.tsx`) uses the same
pager, unread check and batch selection as the notification page, so the
same functions model it. Only its button condition differs
(`Notifications.ListButtonHasWork`). The local copies of `getTimeAgo` in the
main feed and the bookmark page are the same code and are modelled once, by
`TimeAgo.LocalAgo`. `TimeAgo.LibAgreesWithLocal` relates them to the shared
helper.

## Model

| member | source | states |
|---|---|---|
| AlertStore.Open | src/components/AlertStore.ts:42-49 | the alert is open with exactly the given message and title; omitted buttons and focus refs default to empty lists |
| AlertStore.Close | src/components/AlertStore.ts:52-59 | closing gives back the initial record: closed, no title, no message, no buttons, no refs |
| AlertStore.OpenReplaces | src/components/AlertStore.ts:42-49 | a second `openAlert` replaces the first completely: the result does not depend on what was open before |
| AlertStore.CloseIdempotent | src/components/AlertStore.ts:52-59 | closing twice is the same as closing once |
| AlertStore.OpenThenClose | src/components/AlertStore.ts:34-59 | opening and then closing leaves the store as it was created |
| AlertStore.Store.constructor | src/components/AlertStore.ts:34-39 | the store starts as the initial record |
| AlertStore.Store.OpenAlert | src/components/AlertStore.ts:42-49 | the store's new record is `Open` of the old one |
| AlertStore.Store.CloseAlert | src/components/AlertStore.ts:52-59 | the store's new record is `Close` of the old one |
| Customer.Toggle | src/app/customer/page.tsx:21-26 | toggling the open question closes it; toggling any other question opens that one instead |
| Customer.ToggleTwice | src/app/customer/page.tsx:21-26 | from no open answer, or from that question open, toggling the same question twice restores the state |
| Customer.ToggleTwiceForgets | src/app/customer/page.tsx:21-26 | with another question open, toggling a question twice leaves nothing open: at most one answer is open at a time |
| Customer.Filtered | src/app/customer/page.tsx:30 | a question is listed iff it is in the list and contains the search term; the list never grows |
| Customer.FilteredInOrder | src/app/customer/page.tsx:30 | the listed questions keep the page's order |
| Customer.EmptyTermKeepsAll | src/app/customer/page.tsx:17-30 | with the initial empty search term every question is listed |
| Customer.NoResultsIff | src/app/customer/page.tsx:67-73 | "no results" is shown exactly when no question contains the term |
| Customer.Page.constructor | src/app/customer/page.tsx:16-17 | no answer open and an empty search term at first |
| Customer.Page.ToggleQuestion | src/app/customer/page.tsx:21-26 | the open question becomes `Toggle` of the old one |
| Customer.Page.Close | src/app/customer/page.tsx:37-48 | the Escape key (and the background click of lines 129-132) leaves no answer open |
| Customer.Page.Search | src/app/customer/page.tsx:58 | typing sets the search term |
| Customer.Page.Listed | src/app/customer/page.tsx:67-74 | the listed questions are `Filtered` of the page's questions by the term, and "no results" is shown iff that list is empty |
| Bookmark.LikedPostsSpec | src/app/bookmark/page.tsx:112-122 | the liked list exists iff every stored post has an array `likes`; it then holds the posts whose likes contain the uid, and no others, each carrying its document id (order in `LikedPostsConcat`) |
| Bookmark.LikedPostsConcat | src/app/bookmark/page.tsx:114-120 | the list follows store order: two runs of documents give the first run's liked posts followed by the second's, and it fails when either run fails |
| Bookmark.LikedPostsOne | src/app/bookmark/page.tsx:116-118 | one document with array likes gives its post with its id exactly when its likes hold the uid, and nothing otherwise |
| Bookmark.SortedPostsSpec | src/app/bookmark/page.tsx:133-148 | each sort order is a permutation of the posts: newest first, oldest first, or most likes first |
| Bookmark.ToggleInSpec | src/app/bookmark/page.tsx:154-169 | only the posts with that id change, and only in their likes, which become an array whose membership of the uid is flipped and which keeps every other uid |
| Bookmark.ToggleTwice | src/app/bookmark/page.tsx:154-169 | when the uid had not liked the post and its likes were an array, toggling twice restores the list |
| Bookmark.Page.constructor | src/app/bookmark/page.tsx:30-32 | no posts, loading, sorted by most recent |
| Bookmark.Page.Load | src/app/bookmark/page.tsx:99-128 | without a user the list is emptied; with one, the list becomes the liked posts when the query and the callback succeed and is otherwise kept; loading ends in every case |
| Bookmark.Page.SetSort | src/app/bookmark/page.tsx:32 | the sort buttons set the sort order |
| Bookmark.Page.ToggleLike | src/app/bookmark/page.tsx:150-170 | without a current user nothing changes; otherwise the list becomes `ToggleIn` of the old list |
| Bookmark.CollectLiked | src/app/bookmark/page.tsx:114-120 | the `forEach` loop builds exactly `LikedPosts`, giving up on a document whose `likes` is not an array |
| Carousel.Strings | src/components/post/PostComponent.tsx:119 | the kept images are the string elements of the list and no others, never more of them (order in `StringsConcat`) |
| Carousel.StringsConcat | src/components/post/PostComponent.tsx:119 | the filter keeps the string elements in their order: it distributes over concatenation |
| Carousel.StringImages | src/components/post/PostComponent.tsx:118-120 | a missing or non-array `imgs` gives no images; an array gives its string elements and no others, never more of them |
| Carousel.StringImagesConcat | src/components/post/PostComponent.tsx:118-120 | the images of two runs of an array are those of the first run followed by those of the second; a string element is one image and any other element none |
| Carousel.PrevIndex | src/components/post/PostComponent.tsx:127-130 | the previous index wraps from the first image to the last: it is `(i + n - 1) mod n` |
| Carousel.NextIndex | src/components/post/PostComponent.tsx:132-135 | the next index wraps from the last image to the first: it is `(i + 1) mod n` |
| Carousel.PrevNextInverse | src/components/post/PostComponent.tsx:127-135 | the previous and next arrows undo each other |
| Carousel.NextTimesMod | src/components/post/PostComponent.tsx:132-135 | after `k` presses of the next arrow the shown image is `(i + k) mod n`, so `n` presses come full circle |
| Carousel.Viewer.constructor | src/components/post/PostComponent.tsx:23-25 | no post selected, no images, index 0 |
| Carousel.Viewer.Open | src/components/post/PostComponent.tsx:117-125 | selects the post, shows its string images, starts at the first |
| Carousel.Viewer.Prev | src/components/post/PostComponent.tsx:127-130 | a no-op without images; otherwise the index becomes `PrevIndex`, and it stays in range |
| Carousel.Viewer.Next | src/components/post/PostComponent.tsx:132-135 | a no-op without images; otherwise the index becomes `NextIndex`, and it stays in range |
| Carousel.Viewer.Close | src/components/post/PostComponent.tsx:137-145 | Escape deselects the post |
| IdFind.MaskId | src/app/idfind/page.tsx:63-64 | the masked id keeps the length and the first three characters and stars every later one |
| IdFind.MaskEmailSpec | src/app/idfind/page.tsx:58-66 | for an address with one `@` and non-empty parts, the mask keeps the length and the domain, shows the first three characters of the id (all of a shorter id) and stars the rest |
| IdFind.MaskNoAt | src/app/idfind/page.tsx:59-61 | an address without `@` is shown unchanged |
| IdFind.MaskEmptyId | src/app/idfind/page.tsx:59-61 | an address with an empty id part is shown unchanged |
| IdFind.MaskEmptyDomain | src/app/idfind/page.tsx:59-61 | an address with an empty domain part is shown unchanged |
| IdFind.MaskDropsAfterSecondAt | src/app/idfind/page.tsx:59-65 | the destructuring keeps only the first two parts: text after a second `@` is dropped |
| IdFind.MaskIdempotent | src/app/idfind/page.tsx:58-66 | masking an already masked single-`@` address changes nothing |
| IdFind.MaskExcludes | src/app/idfind/page.tsx:58-66 | a mask holds no character that is absent from the address other than `*` and `@` |
| IdFind.CodeValidIff | src/app/idfind/page.tsx:198 | a code is accepted iff it equals the generated code and that code has six characters; nothing is accepted before a code was generated |
| IdFind.NewCode | src/app/idfind/page.tsx:383 | the generated code is six decimal digits |
| IdFind.SentCodeAccepted | src/app/idfind/page.tsx:383-384 | a code just generated, typed back as shown, is accepted |
| IdFind.MissingAlert | src/app/idfind/page.tsx:246-314 | an alert is raised iff some field is missing, and its button focuses the first missing input in name, phone, code order |
| IdFind.MissingMessagesDistinct | src/app/idfind/page.tsx:246-314 | each of the seven combinations of missing fields has its own message |
| IdFind.FindIndex | src/app/idfind/page.tsx:342-344 | `findIndex` gives the first index holding the value, and -1 iff the value is absent |
| IdFind.Masks | src/app/idfind/page.tsx:224 | the shown list masks every found address, in account order |
| IdFind.MaskedMapsToReal | src/app/idfind/page.tsx:222-347 | after a lookup, choosing account `j`'s masked address (none of the addresses holding a comma, no earlier account with the same mask) selects account `j`'s real address |
| IdFind.UnknownSelectionNotFound | src/app/idfind/page.tsx:342-362 | a selection that is none of the masked addresses is reported as not found |
| IdFind.SelectionHasReal | src/app/idfind/page.tsx:341-350 | after a lookup whose addresses hold no comma, a selection found in the shown list always has a real address at its index, so `undefined` is never stored |
| IdFind.Precheck | src/app/idfind/page.tsx:240-338 | the submit's checks pass iff no field is blank, the code is valid, the verification is done and an address is selected; the missing-field alert comes first, then the invalid-code alert |
| IdFind.Submit | src/app/idfind/page.tsx:240-363 | a submit goes on iff the checks pass and the selection is in the masked list, and then with the real address at the selection's index |
| IdFind.Page.constructor | src/app/idfind/page.tsx:33-47 | every field empty, no code, nothing requested or verified, no session entries |
| IdFind.Page.ChangeName | src/app/idfind/page.tsx:169-176 | the name and its validation message are set |
| IdFind.Page.ChangePhone | src/app/idfind/page.tsx:178-185 | the phone number and its validation message are set |
| IdFind.Page.ChangeCode | src/app/idfind/page.tsx:187-192 | the typed code is set |
| IdFind.Page.Select | src/app/idfind/page.tsx:45 | the chosen masked address is set |
| IdFind.Page.SendCode | src/app/idfind/page.tsx:377-391 | both messages are refreshed; only a valid name and phone generate a code, show the code input, mark the code as requested and sent, and alert it |
| IdFind.Page.Resend | src/app/idfind/page.tsx:394-407 | refused with its alert until a code was sent once; afterwards a new code is generated, shown and alerted |
| IdFind.Page.VerifyCode | src/app/idfind/page.tsx:195-233 | invalid input, a failed lookup and no matching account each give their alert and change no lookup state; accounts found store the joined real addresses, show the joined masks and mark the page verified |
| IdFind.Page.SubmitForm | src/app/idfind/page.tsx:240-363 | the outcome is `Submit`; an alert changes nothing; going on stores the selected real address and clears the lookup state |
| IdFind.MasksSplitBack | src/app/idfind/page.tsx:224-236 | the joined masked list splits back into the masks when no address has a comma |
| IdFind.SixDigits | src/app/idfind/page.tsx:383 | a number from 100000 to 999999 is written with six digits |
| IdFind.FindIndexFirst | src/app/idfind/page.tsx:342-344 | the search finds the first position holding the chosen mask |
| KeyedDedup.DedupDistinct | src/pages/api/recommendmerged.ts:76-82 | every stored element passes the filter and has a key not already present, and the stored keys are pairwise distinct |
| KeyedDedup.DedupKeys | src/pages/api/recommendmerged.ts:76-82 | the stored keys are exactly the keys of the kept elements minus those already present |
| KeyedDedup.DedupFirst | src/app/upplace/page.tsx:180-190 | for each key, the element stored is the first kept element with that key |
| KeyedDedup.DedupSubseq | src/app/upplace/page.tsx:180-190 | `map.values()` lists the stored elements in the order they were visited |
| KeyedDedup.DedupSpec | src/app/upplace/page.tsx:180-190 | the whole first-wins contract: distinct keys, only kept elements, first occurrence wins, original order, every kept key present |
| KeyedDedup.DedupLoopStep | src/pages/api/recommendmerged.ts:77-81 | one visit of the loop extends the stored values iff the element passes and its key is new, and keeps the loop's relation to the specification |
| LikeButton.ToggleSpec | src/components/post/LikeButton.tsx:27-63 | without a uid only the login alert is raised and nothing changes; otherwise the liked state flips whatever the store does, an unlike removes every copy of the uid, a like appends it and notifies iff the write succeeded and the post belongs to someone else |
| LikeButton.LikeThenUnlike | src/components/post/LikeButton.tsx:35-44 | liking then unliking restores the liker list, whether or not the writes succeed |
| LikeButton.Button.constructor | src/components/post/LikeButton.tsx:16-21 | the list starts as the given likers |
| LikeButton.Button.HandleLikeToggle | src/components/post/LikeButton.tsx:27-63 | the new list and the effect are those of `ToggleStep` on the old list |
| Notifications.FetchNotifications | src/app/notification/page.tsx:71-97 | at most twenty notifications; the cursor is null iff the page is empty and is otherwise the page's last document; a short page reaches the end of the collection |
| Notifications.FetchNotificationsSpec | src/app/notification/page.tsx:77-81 | the page is the run of `min(20, remaining)` notifications right after the cursor, or from the start without one |
| Notifications.QueryFn | src/app/notification/page.tsx:111-116 | without a uid an empty page with a null cursor, otherwise the fetched page |
| Notifications.GetNextPageParam | src/app/notification/page.tsx:119-130 | a next page exists only after a page of at least twenty, and then resumes from its last document |
| Notifications.AllPagesDrain | src/app/notification/page.tsx:101-133 | loading pages until there is no next one fetches, in order, exactly what repeated cursor queries of twenty fetch |
| Notifications.AllPagesComplete | src/app/notification/page.tsx:101-133 | a full load from the null cursor lists every notification once, newest first, in `n / 20 + 1` pages, ends with no next page, and its last page is empty iff `n` is a multiple of twenty |
| Notifications.AllPagesListEvery | src/app/notification/page.tsx:101-133 | a full load lists every notification once, in order |
| Notifications.AllPagesCount | src/app/notification/page.tsx:119-130 | a full load takes `n / 20 + 1` pages |
| Notifications.AllPagesEnd | src/app/notification/page.tsx:119-130 | a full load ends with no next page, and its last page is empty iff `n` is a multiple of twenty |
| Notifications.LastPageShort | src/app/notification/page.tsx:119-130 | from any cursor the last page of a full load holds the remainder modulo twenty and has no next page |
| Notifications.UnreadInSpec | src/app/notification/page.tsx:179-188 | an id is collected from a page iff some unread notification of it has that id |
| Notifications.UnreadIdsSpec | src/app/notification/page.tsx:178-190 | the mark-all-read batch updates exactly the ids of unread loaded notifications, and is empty iff nothing loaded is unread |
| Notifications.UnreadIdsSound | src/app/notification/page.tsx:178-190 | every id in the batch belongs to an unread loaded notification |
| Notifications.UnreadIdsComplete | src/app/notification/page.tsx:178-190 | every unread loaded notification's id is in the batch |
| Notifications.AllReadBatch | src/app/notification/page.tsx:172-191 | no batch without data or a uid; otherwise the nested loops collect `UnreadIds` of the loaded pages |
| Notifications.ClickWrite | src/app/notification/page.tsx:151-160 | a click writes `isRead: true` iff the notification is unread, and to that notification only |
| Notifications.EmptyStateIff | src/app/notification/page.tsx:236 | the empty state shows iff nothing was loaded |
| Notifications.ButtonHiddenAfterFullMultiple | src/app/notification/page.tsx:256 | after a full load of a positive multiple of twenty notifications, the full page shows neither the mark-all-read button nor the empty state |
| Notifications.ButtonHiddenByEmptyLast | src/app/notification/page.tsx:236-256 | a full listing with an empty last page and some notifications shows neither the button nor the empty state |
| Notifications.UnreadState.constructor | src/app/notification/page.tsx:25 | the unread flag starts false |
| Notifications.UnreadState.CheckUnread | src/app/notification/page.tsx:138-149 | without data the flag is kept; otherwise it is set iff some loaded notification is unread |
| Notifications.ListButtonHasWork | src/components/features/notification/NotificationList.tsx:209-210 | when the drop-down's button shows with the flag in step with the data, the batch it sends is non-empty |
| Notifications.LastPageOnly | src/app/notification/page.tsx:119-130 | a short first page is the only page and holds what remains modulo twenty |
| Notifications.AllPagesAfterFull | src/app/notification/page.tsx:119-130 | a full page is followed by the pages from its last document, twenty notifications further on |
| OrderedStore.Query | src/lib/fbdata.ts:85-94 | a page of at most `k` documents; a short page reaches the end of the result set; document `i` of the page is the result set's document right after the cursor plus `i`, and remembers that position |
| OrderedStore.Data | src/lib/fbdata.ts:96-99 | the page's documents' data, one for one and in order |
| OrderedStore.LastDoc | src/lib/fbdata.ts:103 | null iff the page is empty, otherwise the page's last snapshot |
| OrderedStore.QueryData | src/lib/fbdata.ts:85-99 | a page's data is the contiguous run of the result set that follows the cursor |
| OrderedStore.LastDocResumes | src/lib/fbdata.ts:89-103 | `startAfter` the page's last document resumes exactly where the page stopped |
| OrderedStore.DrainStep | src/app/notification/page.tsx:119-130 | paging fetches one page and then, only after a full page, the rest from its last document |
| OrderedStore.DrainAll | src/app/notification/page.tsx:78-130 | paging from a cursor until a short page yields every document after that cursor once, in order |
| OrderedStore.ShortPageIsRest | src/app/notification/page.tsx:121-126 | a page shorter than `k` holds all the documents after the cursor |
| OrderedStore.FullPageSplits | src/app/notification/page.tsx:129 | a full page followed by the documents after its last one is everything after the cursor |
| OrderedStore.DrainQueryCount | src/app/notification/page.tsx:119-130 | paging issues `remaining / k + 1` queries: one extra, empty query when the remainder is a multiple of `k` |
| PlaceCard.ImageUrl | src/components/upplace/PlaceCard.tsx:57-61 | a non-blank `firstimage`, trimmed, wins; otherwise any `imageUrl` string, trimmed, even a blank one; otherwise the title's fallback image, else the default image |
| PlaceCard.ImageUrlNonEmpty | src/components/upplace/PlaceCard.tsx:57-61 | unless `imageUrl` is a blank string, the image source is never empty |
| PlaceCard.Initial | src/components/upplace/PlaceCard.tsx:63-67 | liked iff the override is `true`; the count is the override when one is given, else the place's count |
| PlaceCard.ToggleSpec | src/components/upplace/PlaceCard.tsx:73-139 | the alert is raised iff there is no user or no content id; alert and failure change nothing; an unlike clears `liked` and decrements the place count only when it is positive; a like sets `liked`, adds one and stores that count; every successful toggle flips `liked` |
| PlaceCard.ToggleKeepsCountNonNegative | src/components/upplace/PlaceCard.tsx:118 | from a non-negative count, the local count stays non-negative |
| PlaceCard.LikeThenUnlike | src/components/upplace/PlaceCard.tsx:101-135 | a successful like followed by a successful unlike restores the local state |
| PlaceCard.Card.constructor | src/components/upplace/PlaceCard.tsx:63-67 | the card starts in `Initial` of its place and overrides |
| PlaceCard.Card.SyncLiked | src/components/upplace/PlaceCard.tsx:69-71 | `liked` follows a new override, the count is kept |
| PlaceCard.Card.ToggleLike | src/components/upplace/PlaceCard.tsx:73-140 | the new state and the outcome are those of `ToggleStep` on the old state |
| PlaceFeed.FetchPlaces | src/app/upplace/page.tsx:45-82 | a missing parameter means the popular phase; the phase is kept; at most twelve places; the cursor is null iff the page is empty, otherwise its last document; a popular page holds only places with at least ten likes |
| PlaceFeed.GetNextPageParam | src/app/upplace/page.tsx:101-110 | the popular phase always has a next page: a full page continues it after its last document, any other page switches to the recency phase from the start; a recency page ends the feed iff it is short, and a full one continues recency after its last document; the phase never returns to popular |
| PlaceFeed.ShouldFetchNext | src/app/upplace/page.tsx:149-153 | a next page is requested only while the sentinel is in view, always during the popular phase, never after a short recency page |
| PlaceFeed.PagesUnfold | src/app/upplace/page.tsx:99-111 | the loaded pages are a page, then the pages from the parameter it leads to |
| PlaceFeed.RecentPhaseDrain | src/app/upplace/page.tsx:62-68 | the recency phase fetches, in order and in as many pages, what repeated cursor queries of twelve fetch |
| PlaceFeed.PopularStep | src/app/upplace/page.tsx:101-106 | one popular page is followed by the popular pages after it when it is full, else by the recency phase |
| PlaceFeed.PopularPhaseDrain | src/app/upplace/page.tsx:54-61 | the popular phase fetches what repeated cursor queries of twelve fetch, then the whole recency phase |
| PlaceFeed.PopularLastPage | src/app/upplace/page.tsx:105-106 | a short popular page is followed by the recency phase from the start |
| PlaceFeed.PopularFullPage | src/app/upplace/page.tsx:102-103 | a full popular page is followed by the popular pages after its last document |
| PlaceFeed.PopularFullPageCount | src/app/upplace/page.tsx:102-103 | the page count after a full popular page |
| PlaceFeed.FullScroll | src/app/upplace/page.tsx:99-111 | scrolling to the end lists every popular place and then every place newest first, in `p / 12 + r / 12 + 2` pages |
| PlaceFeed.UniquePlaces | src/app/upplace/page.tsx:178-191 | the loop computes the first-wins de-duplication by content id of the places with an image |
| PlaceFeed.UniquePlacesSpec | src/app/upplace/page.tsx:178-191 | the cards have distinct content ids and usable images, each is the first such place in page order, page order is kept, and every content id with an imaged place is shown |
| PlaceFeed.CountsOf | src/app/upplace/page.tsx:126-129 | the count map has a key iff some like document has that id |
| PlaceFeed.IdsOf | src/app/upplace/page.tsx:125 | the liked ids are the like documents' ids, in order |
| PlaceFeed.Find | src/app/upplace/page.tsx:165-167 | a found place is loaded and has the content id; none found means no loaded place has it |
| PlaceFeed.ToggledCount | src/app/upplace/page.tsx:172 | a like adds one; an unlike subtracts one, but never below zero |
| PlaceFeed.LikeOverlay.constructor | src/app/upplace/page.tsx:114-115 | no liked ids and no counts |
| PlaceFeed.LikeOverlay.LoadLikedIds | src/app/upplace/page.tsx:119-132 | without a user nothing changes; otherwise both the ids and the counts are replaced from the user's like documents |
| PlaceFeed.LikeOverlay.HandleLikedChange | src/app/upplace/page.tsx:155-175 | a like appends the id, even when present; an unlike removes every occurrence; the toggled count is stored under the id with its first `places_` removed, starting from the stored count, else the first loaded place's, else zero |
| PlaceFeed.CardCallbackKey | src/app/upplace/page.tsx:156-226 | a card's callback key `places_<contentId>` stores its count under the bare content id, which the card reads back |
| PlaceFeed.FetchedCountsNeverApply | src/app/upplace/page.tsx:128-226 | the fetched counts are keyed by `places_`-prefixed ids while cards read bare content ids, so a content id not starting with `places_` never gets a fetched count |
| PlaceLikeButton.Initial | src/components/upplace/UpPlaceLikeButton.tsx:15-17 | loading; liked and count are the overrides, or false and zero |
| PlaceLikeButton.LoadStep | src/components/upplace/UpPlaceLikeButton.tsx:23-63 | loading always ends; without a user, or with either override given, nothing else changes; a successful read sets liked to whether the like exists and reports the count it sets; a failed read keeps liked and count |
| PlaceLikeButton.ToggleSpec | src/components/upplace/UpPlaceLikeButton.tsx:66-134 | nothing is written without a user or while loading; a state change happens iff a batch was committed iff a count was reported; an unlike commits the like delete and the decrement and clamps the count at zero; a like commits the like document with the new count plus a create or an increment of the place |
| PlaceLikeButton.DuplicateLikeBlocked | src/components/upplace/UpPlaceLikeButton.tsx:95-99 | when the like document already exists, a like writes nothing and changes nothing |
| PlaceLikeButton.ToggleKeepsCountNonNegative | src/components/upplace/UpPlaceLikeButton.tsx:89 | from a non-negative count the count stays non-negative |
| PlaceLikeButton.Button.constructor | src/components/upplace/UpPlaceLikeButton.tsx:15-17 | the button starts in `Initial` of its overrides |
| PlaceLikeButton.Button.Load | src/components/upplace/UpPlaceLikeButton.tsx:23-63 | the new state and the count reported are those of `LoadStep` |
| PlaceLikeButton.Button.Toggle | src/components/upplace/UpPlaceLikeButton.tsx:66-134 | the batch assembled and the new state are those of `ToggleStep` |
| PostFeed.FreshSpec | src/components/post/PostComponent.tsx:79-80 | the filter keeps only fetched posts whose id is not listed, and keeps every such post |
| PostFeed.AppendNewSpec | src/components/post/PostComponent.tsx:78-82 | after a load the old list is unchanged at the front, followed by fetched posts with unlisted ids, and every such fetched post is there |
| PostFeed.IdsConcat | src/components/post/PostComponent.tsx:79 | the ids of a concatenation are the union of the ids |
| PostFeed.FreshConcat | src/components/post/PostComponent.tsx:80 | filtering a concatenation filters each part |
| PostFeed.FreshIgnores | src/components/post/PostComponent.tsx:80 | ids that no fetched post carries make no difference to the filter |
| PostFeed.FreshIds | src/components/post/PostComponent.tsx:80 | the filter introduces no new id |
| PostFeed.AppendNewConcat | src/components/post/PostComponent.tsx:78-82 | with distinct ids in the store, loading two pages in turn appends what loading both at once would |
| PostFeed.AppendNewDistinct | src/components/post/PostComponent.tsx:78-82 | appending a page with distinct ids to a list with distinct ids keeps the ids distinct |
| PostFeed.FreshDistinct | src/components/post/PostComponent.tsx:80 | filtering a page with distinct ids keeps them distinct |
| PostFeed.AllDuplicatesKeepList | src/components/post/PostComponent.tsx:78-82 | a page of only already-listed posts leaves the list as it was |
| PostFeed.StuckAfterFailure | src/components/post/PostComponent.tsx:71-87 | a read that throws leaves `loading` set, as nothing resets it, so every later load does nothing |
| PostFeed.DuplicatePageKeepsHasMore | src/components/post/PostComponent.tsx:78-85 | a non-empty page of duplicates appends nothing yet keeps `hasMore` |
| PostFeed.LoadAllStep | src/components/post/PostComponent.tsx:71-87 | one step of scrolling to the end: a load, then more loads only after a non-empty page |
| PostFeed.LoadAllAppends | src/components/post/PostComponent.tsx:71-99 | scrolling to the end from a cursor appends every later post of the result set whose id is not listed, and stops with no cursor and no more pages, after an empty page |
| PostFeed.LoadAllScrolls | src/components/post/PostComponent.tsx:71-87 | scrolling to the end ends with the scrolled list, no cursor and `hasMore` false |
| PostFeed.ScrolledAppends | src/components/post/PostComponent.tsx:74-84 | the pages appended one by one give the old list with every later post of the result set appended at once |
| PostFeed.ScrolledStep | src/components/post/PostComponent.tsx:74-84 | a non-empty page appends the documents it holds and the cursor moves strictly forward past them |
| PostFeed.ConcatRest | src/components/post/PostComponent.tsx:78-82 | appending a run of the result set and then the rest appends everything from the run's start |
| PostFeed.DisplayOrderSpec | src/components/post/PostComponent.tsx:156-170 | the rendered copy is newest first, holds the same posts, and keeps posts with equal time in list order |
| PostFeed.RemoveId | src/components/profile/ProfileFeedLayout.tsx:61 | the list after a delete holds the posts whose id differs and no others, never more of them (order in `RemoveIdConcat`) |
| PostFeed.RemoveIdConcat | src/components/profile/ProfileFeedLayout.tsx:61 | removal keeps the other posts in order and with their repetitions: it distributes over concatenation |
| PostFeed.FeedLoader.constructor | src/components/profile/ProfileFeedLayout.tsx:25-28 | the given list, not loading, more pages expected, no cursor |
| PostFeed.FeedLoader.LoadMore | src/components/profile/ProfileFeedLayout.tsx:75-93 | nothing while loading or after an empty page; a successful load appends the fresh posts of the page after the cursor, moves the cursor and sets `hasMore` from the raw page length; a failed read leaves `loading` set and the list unchanged |
| PostFeed.FeedLoader.ResetToProps | src/components/profile/ProfileFeedLayout.tsx:35-37 | a new `posts` prop replaces the list |
| PostFeed.FeedLoader.Delete | src/components/profile/ProfileFeedLayout.tsx:58-65 | a successful delete removes the post with that id; a failed one keeps the list and returns the failure alert |
| PwFind.ValidationResult | src/app/pwfind/page.tsx:136-158 | the new password has an error iff `validatePassword` gives one, and then that message; an empty confirmation, then a mismatch, each have their own message; a matching confirmation has none |
| PwFind.ValidFormIff | src/app/pwfind/page.tsx:136-164 | the form is valid iff the new password has 8 to 11 characters and the confirmation repeats it |
| PwFind.Page.constructor | src/app/pwfind/page.tsx:47-67 | every field and message empty, nothing verified; the session entries are the ones given |
| PwFind.Page.Restore | src/app/pwfind/page.tsx:106-133 | a stored selected address is taken as verified and hides the identity form, the inputs untouched; otherwise the saved inputs are restored and validated, the address only when non-empty |
| PwFind.Page.ChangeName | src/app/pwfind/page.tsx:195-200 | the name, its message and its session entry are set |
| PwFind.Page.ChangePhone | src/app/pwfind/page.tsx:201-206 | the phone number, its message and its session entry are set |
| PwFind.Page.ChangeEmail | src/app/pwfind/page.tsx:207-212 | the address, its message and its session entry are set |
| PwFind.Page.ChangePasswords | src/app/pwfind/page.tsx:166-173 | the two password fields are set and the validation is recomputed from them |
| PwFind.Page.FindPassword | src/app/pwfind/page.tsx:217-255 | stored errors first, then empty fields, each with its alert; the store is queried iff both pass; a failed query and no match each have their alert; only a match stores the address in the session, marks it verified and hides the identity form |
| PwFind.Page.Submit | src/app/pwfind/page.tsx:175-190 | the validation is stored, and success is reported iff the form is valid; no password is written |
| PwFind.Page.ConfirmChanged | src/app/pwfind/page.tsx:184-187 | the success alert's button forgets the selected address |
| RecommendMerged.Grid | src/pages/api/recommendmerged.ts:13-24 | forty requests, one per district, content type and page |
| RecommendMerged.GridAt | src/pages/api/recommendmerged.ts:18-42 | the request at the position of district `a`, content type `b` and page `p` asks for exactly those, with area 3, 100 rows and arrangement `P` |
| RecommendMerged.GridStep | src/pages/api/recommendmerged.ts:18-24 | each step of the triple loop extends the requests so far by the next request of the grid |
| RecommendMerged.GatheredConcat | src/pages/api/recommendmerged.ts:51-57 | the items gathered from two runs of requests are those of the first run followed by those of the second |
| RecommendMerged.GatheredSnoc | src/pages/api/recommendmerged.ts:51-57 | one more request appends the items of its answer |
| RecommendMerged.GatheredSkipsFailures | src/pages/api/recommendmerged.ts:53-70 | a request that fails or answers without an array adds nothing, and the later requests still count |
| RecommendMerged.GatheredSpec | src/pages/api/recommendmerged.ts:51-57 | an item is gathered iff some request's answer is an array holding it |
| RecommendMerged.Fetch | src/pages/api/recommendmerged.ts:25-70 | one request of the grid is issued, and an array answer's items are appended |
| RecommendMerged.FetchPages | src/pages/api/recommendmerged.ts:20-71 | the page loop issues both pages of one district and content type |
| RecommendMerged.Collect | src/pages/api/recommendmerged.ts:16-73 | the triple loop issues every request of the grid in order and gathers the items of the array answers |
| RecommendMerged.UniqueItems | src/pages/api/recommendmerged.ts:76-82 | the loop computes the first-wins de-duplication of the gathered items by content id |
| RecommendMerged.UniqueItemsSpec | src/pages/api/recommendmerged.ts:76-82 | the unique items have distinct content ids, each is the first gathered item with its id, first-seen order is kept, and every gathered content id is present |
| RecommendMerged.LikeMapKeys | src/pages/api/recommendmerged.ts:85-90 | the like map has a key exactly for each stored content id |
| RecommendMerged.LikeMapLast | src/pages/api/recommendmerged.ts:87-90 | each key holds the count of the last stored document with that content id, zero when its count is missing |
| RecommendMerged.BuildLikeMap | src/pages/api/recommendmerged.ts:86-90 | the loop builds the like map of the stored documents |
| RecommendMerged.ImageOrNull | src/pages/api/recommendmerged.ts:102 | a missing or empty image is written as null, any other is kept |
| RecommendMerged.MergedOf | src/pages/api/recommendmerged.ts:98-105 | the merged document carries the item's id, title and address, its image or null, the stored count or zero, and the write time |
| RecommendMerged.ResponseOf | src/pages/api/recommendmerged.ts:112-115 | one response entry per unique item |
| RecommendMerged.BuildBatch | src/pages/api/recommendmerged.ts:93-107 | one merged write per unique item, in order, keyed by its content id |
| RecommendMerged.ResponseAgreesWithBatch | src/pages/api/recommendmerged.ts:103-114 | each response entry is its unique item with the same like count as the document written for it |
| RecommendMerged.Handle | src/pages/api/recommendmerged.ts:8-122 | every request of the grid is issued; a failed store read or commit commits nothing and answers with the server error; otherwise the batch and the response are built from the unique items and the like map |
| RecommendMerged.GatheredIds | src/pages/api/recommendmerged.ts:51-57 | a content id is gathered iff some array answer held an item with it |
| RecommendMerged.ResponseCoversGathered | src/pages/api/recommendmerged.ts:51-117 | a successful response lists each content id some array answer held exactly once, and no other |
| RecommendMerged.ResponseKeys | src/pages/api/recommendmerged.ts:112-115 | the response lists the unique items' ids, each once |
| SettingProfile.ValidateNickname | src/app/signup/settingprofile/page.tsx:87-103 | a nickname passes iff it has 1 to 17 characters, all ASCII letters or digits, and is not taken; empty, Hangul, other characters, too long and taken each give their own message, in that order; the lookup decides only after the format passes |
| SettingProfile.HangulIsNotAlnum | src/app/signup/settingprofile/page.tsx:89-91 | a nickname with a Hangul character fails the letters-and-digits rule too |
| SettingProfile.LookupOnlyAfterFormat | src/app/signup/settingprofile/page.tsx:88-100 | the lookup's answer matters only for a nickname whose format passes |
| SettingProfile.AgreesWithSharedRule | src/app/signup/settingprofile/page.tsx:87-103 | apart from the lookup, this check accepts exactly what the shared nickname rule accepts |
| SettingProfile.ValidateBio | src/app/signup/settingprofile/page.tsx:106-109 | a bio passes iff it has at most 100 characters |
| SettingProfile.FullUser | src/app/signup/settingprofile/page.tsx:223-228 | the written record is the stored first-page record with exactly the nickname, the picture address and the bio replaced |
| SettingProfile.Decide | src/app/signup/settingprofile/page.tsx:158-264 | a blank nickname, then a failing recheck, stop with an alert focusing the nickname; a record is written only after every check passes, a uid is stored, the upload (if any) and the write succeed, and it is the full user with the uploaded or kept picture; completion happens iff it was written and the sign-in succeeded, otherwise the sign-in failure is reported |
| SettingProfile.StoredErrorsStop | src/app/signup/settingprofile/page.tsx:186-199 | stored messages from earlier edits stop the submit even when the fresh check passes, and the alert focuses the nickname when it has a message, else the bio |
| SettingProfile.Page.constructor | src/app/signup/settingprofile/page.tsx:13-27 | empty profile, no messages, no file, not loading; the session entries are the ones given |
| SettingProfile.Page.Restore | src/app/signup/settingprofile/page.tsx:44-56 | a saved draft is restored and its non-empty nickname and bio are revalidated; without one nothing changes |
| SettingProfile.Page.CheckSignup | src/app/signup/settingprofile/page.tsx:112-121 | the alert is raised iff no uid was stored by the first page |
| SettingProfile.Page.ChangeNickname | src/app/signup/settingprofile/page.tsx:124-135 | the nickname is set, the draft saved and the message recomputed |
| SettingProfile.Page.ChangeBio | src/app/signup/settingprofile/page.tsx:124-135 | the bio is set, the draft saved and the message recomputed |
| SettingProfile.Page.SelectImage | src/app/signup/settingprofile/page.tsx:138-150 | a chosen file sets the preview address, marks a file chosen and saves the draft; no file changes nothing |
| SettingProfile.Page.Submit | src/app/signup/settingprofile/page.tsx:158-264 | the outcome is `Decide` on the page state; a failing recheck stores its message; only completion drops both session entries; loading ends |
| Signin.EmptyFieldAlert | src/app/signin/page.tsx:52-118 | an alert is raised iff a field is empty: both empty, the address empty and the password empty each have their own message, and the button focuses the address unless only the password is missing |
| Signin.FailureAlert | src/app/signin/page.tsx:123-182 | a refused sign-in focuses the password iff the reason is a wrong password; a missing user, and any other reason, each have their own message and focus the address |
| Signin.Login | src/app/signin/page.tsx:49-187 | the auth layer is asked iff both fields are filled; otherwise the empty-field alert shows; success goes to the home page, refusal shows the failure alert |
| Signin.TargetsInRange | src/app/signin/page.tsx:50-182 | every alert focuses one of the two inputs handed to the alert |
| Signin.EmptyFieldIgnoresAnswer | src/app/signin/page.tsx:52-118 | while a field is empty the auth layer's answer makes no difference |
| Signin.Page.constructor | src/app/signin/page.tsx:17-20 | the address starts from the session entry, else empty; the password empty |
| Signin.Page.ChangeEmail | src/app/signin/page.tsx:33-40 | the address is set and saved in the session |
| Signin.Page.ChangePassword | src/app/signin/page.tsx:42-47 | the password is set and not saved |
| Signin.Page.HandleLogin | src/app/signin/page.tsx:49-187 | the decision is `Login` on the current fields |
| Signup.WithText | src/app/signup/page.tsx:206-211 | a text input's change sets that field alone and keeps every other field |
| Signup.ValidateField | src/app/signup/page.tsx:154-186 | each field gets the message of its shared rule; an empty address is refused with its own message before any lookup; birth has no rule; consent passes iff it is given |
| Signup.EmptyEmailIgnoresLookup | src/app/signup/page.tsx:161-169 | the empty address is refused whatever the lookup would answer |
| Signup.NewErrors | src/app/signup/page.tsx:262-269 | the errors object holds exactly the failing fields, each with its message, and never birth |
| Signup.ErrorsOfSnoc | src/app/signup/page.tsx:263-267 | validating one more field adds its message iff it fails |
| Signup.CollectErrors | src/app/signup/page.tsx:189-203 | the loop over the form's fields builds the errors object |
| Signup.ComposeBirth | src/app/signup/page.tsx:144-151 | a date is composed iff year, month and day are all chosen |
| Signup.SplitBirth | src/app/signup/page.tsx:124-127 | a stored birth without a dash comes back as the year alone |
| Signup.SplitComposed | src/app/signup/page.tsx:124-148 | splitting a composed date on dashes gives back its dash-free parts |
| Signup.BirthRoundTrip | src/app/signup/page.tsx:124-151 | a date composed from three chosen dash-free parts is restored into those three selects |
| Signup.Kept | src/app/signup/page.tsx:278-280 | the filter keeps exactly the flagged required fields, in form order |
| Signup.MissingFields | src/app/signup/page.tsx:272-280 | the missing fields are exactly the blank required ones, in form order; all four are missing iff every required field is blank |
| Signup.Labels | src/app/signup/page.tsx:283-292 | one label per missing field, in order |
| Signup.MissingMessage | src/app/signup/page.tsx:290-296 | all four missing gives the nothing-entered message, otherwise the labels joined by `, ` and the request to fill them |
| Signup.Decide | src/app/signup/page.tsx:271-346 | the missing-field alert shows iff a required field is blank, and focuses the first one; otherwise a refused sign-up reports its message; with an account and a current user, it proceeds with that user's uid |
| Signup.FocusIsFirstMissing | src/app/signup/page.tsx:303-308 | the alert's button focuses a blank required field with no blank required field before it |
| Signup.ErrorsDoNotBlock | src/app/signup/page.tsx:262-346 | validation messages never stop the submit: with every required field filled and an account created, it proceeds |
| Signup.Page.constructor | src/app/signup/page.tsx:68-83 | an empty user, no birth parts, no messages, not loaded; the session entry is the one given |
| Signup.Page.Restore | src/app/signup/page.tsx:114-141 | a stored record is taken over with its birth split into the three selects; loading completes and the user is saved |
| Signup.Page.ValidateAll | src/app/signup/page.tsx:189-203 | the errors are the messages of the failing fields |
| Signup.Page.ChangeText | src/app/signup/page.tsx:206-212 | the field is set, the user saved and that field's message (or empty text) recorded |
| Signup.Page.ChangeConsent | src/app/signup/page.tsx:206-230 | the consent is set, saved and validated, and checking the box opens the consent prompt |
| Signup.Page.DeclineConsent | src/app/signup/page.tsx:222-226 | declining in the prompt withdraws consent |
| Signup.Page.SelectBirth | src/app/signup/page.tsx:78-80 | one of the three selects is set; once all three are chosen the composed date is stored and saved |
| Signup.Page.Submit | src/app/signup/page.tsx:251-346 | the errors are recomputed, the decision is `Decide`, an account is attempted iff no required field is blank, and only proceeding stores the uid with the record |
| Sorting.SortDescSorted | src/components/post/PostComponent.tsx:156-170 | the feed sorted newest first is ordered by key, largest first |
| Sorting.SortDescPerm | src/components/post/PostComponent.tsx:156-170 | sorting keeps exactly the same posts, each as often |
| Sorting.SortDescStable | src/components/post/PostComponent.tsx:156-170 | posts with equal keys keep their relative order, as the engine's stable sort does |
| Sorting.SortAscSortedPerm | src/app/bookmark/page.tsx:139-142 | the oldest-first sort is ordered smallest key first and is a permutation of the input |
| Text.TrimStart | src/app/idfind/page.tsx:242 | the result is the suffix after a blank prefix and starts with a non-space |
| Text.TrimEnd | src/app/idfind/page.tsx:242 | the result is the prefix before a blank suffix and ends with a non-space |
| Text.Trim | src/app/idfind/page.tsx:242-243 | the trimmed text is no longer than the input and neither starts nor ends with whitespace |
| Text.TrimEmptyIffBlank | src/components/post/UploadPage.tsx:84 | a text trims to the empty text exactly when it is blank |
| Text.IndexFrom | src/app/customer/page.tsx:30 | the search from a position returns the first occurrence at or after it, or -1 when there is none |
| Text.IndexOf | src/app/customer/page.tsx:30 | -1 exactly when the pattern occurs nowhere; otherwise an occurrence before which there is none |
| Text.IncludesIff | src/app/customer/page.tsx:30 | `includes` holds exactly when the pattern occurs somewhere |
| Text.ReplaceFirst | src/app/upplace/page.tsx:156 | a missing pattern leaves the text alone; otherwise its first occurrence alone is replaced |
| Text.ReplacePrefixRoundTrip | src/app/upplace/page.tsx:156 | removing the prefix from a prefixed id gives back the id |
| Text.Split | src/app/idfind/page.tsx:59 | at least one part, and no part contains the separator |
| Text.Join | src/app/idfind/page.tsx:223-224 | a single part joins to itself |
| Text.JoinSplit | src/app/idfind/page.tsx:223-236 | splitting then joining on the same separator gives back the text |
| Text.SplitJoin | src/app/idfind/page.tsx:223-341 | joining parts free of the separator's first character then splitting gives back the parts |
| Text.FirstOccurrenceAfter | src/app/idfind/page.tsx:59 | in a text whose head is free of the separator's first character, the first occurrence is right after the head |
| Text.NoFirstCharNoOccurrence | src/app/idfind/page.tsx:59 | a text free of the separator's first character does not contain it |
| Text.SplitExcludes | src/app/idfind/page.tsx:341 | the parts of a text free of a character are free of it |
| Text.NatToString | src/lib/post.ts:50-53 | a non-empty string of decimal digits |
| Text.NatToStringValue | src/lib/post.ts:50-53 | the decimal rendering reads back as the same number |
| Text.Without | src/components/post/LikeButton.tsx:36 | every occurrence of the value is removed and every other element kept; never longer |
| Text.WithoutAbsent | src/components/post/LikeButton.tsx:36 | filtering out an absent value changes nothing |
| Text.WithoutConcat | src/components/post/LikeButton.tsx:36 | filtering distributes over concatenation |
| Text.AppendThenWithout | src/components/post/LikeButton.tsx:35-44 | appending an absent uid and filtering it out restores the list |
| TimeAgo.LibAgoSpec | src/lib/post.ts:41-53 | exactly one bucket is chosen by the millisecond difference, and its number is the floor of the difference in that unit, within the unit's range |
| TimeAgo.ScaledBounds | src/lib/post.ts:44-52 | comparing the floored unit counts is the same as comparing the difference with the unit lengths |
| TimeAgo.LibAgreesWithLocal | src/components/post/PostComponent.tsx:27-51 | the shared helper and the feed's own copy choose the same bucket and number for every string or Timestamp; only a pending time is unknown |
| TimeAgo.FutureIsJustNow | src/lib/post.ts:49 | a creation time in the future reads as just now |
| TimeAgo.Boundaries | src/lib/post.ts:44-53 | each unit length is the first difference shown as one of that unit, and the millisecond before it is still the smaller unit |
| TimeAgo.LabelNumberPositive | src/lib/post.ts:50-53 | every label with a number shows a positive count written in digits |
| UploadTag.TagMessage | src/components/post/UploadTag.tsx:34-48 | no message exactly when the tag is not blank and made only of letters, numbers and spaces; a blank tag gets the blank message, any other refused tag the special-character message |
| UploadTag.EnterTagUnreachable | src/components/post/UploadTag.tsx:43-45 | the enter-a-tag message is never produced, because an empty tag is already blank |
| UploadTag.FormatTag | src/components/post/UploadTag.tsx:87 | the stored name always starts with '#', which is added only when missing |
| UploadTag.FormatIdempotent | src/components/post/UploadTag.tsx:87 | formatting an already formatted name changes nothing |
| UploadTag.ClickTag | src/components/post/UploadTag.tsx:50-117 | a refused tag alerts its message and keeps the input; a full list alerts the limit; a present name alerts the duplicate and clears the input; a tag is appended, with the input cleared, exactly when none of these holds |
| UploadTag.ClickKeepsLimit | src/components/post/UploadTag.tsx:70-85 | adding never takes the list past ten tags |
| UploadTag.ClickKeepsNamesDistinct | src/components/post/UploadTag.tsx:93-114 | adding never gives two tags the same name |
| UploadTag.RemoveTag | src/components/post/UploadTag.tsx:184-187 | the list keeps the tags with another id and no others, and never grows (order in `RemoveTagConcat`) |
| UploadTag.RemoveTagConcat | src/components/post/UploadTag.tsx:184-187 | removal keeps the other tags in order: it distributes over concatenation |
| UploadTag.RemoveKeepsNamesDistinct | src/components/post/UploadTag.tsx:184-187 | removal keeps the names distinct |
| UploadTag.RemoveOne | src/components/post/UploadTag.tsx:184-187 | with distinct ids, removing a present id removes exactly one tag |
| UploadTag.RemoveAbsent | src/components/post/UploadTag.tsx:184-187 | removing an id no tag has leaves the list as it was |
| UploadPage.TitleMessage | src/components/post/UploadPage.tsx:83-87 | the title message is present exactly when the title is blank |
| UploadPage.ContentMessage | src/components/post/UploadPage.tsx:88-92 | the content message is present exactly when the content is blank |
| UploadPage.AddressMessage | src/components/post/UploadPage.tsx:94-98 | the address message is present exactly when the address is blank |
| UploadPage.TagsMessage | src/components/post/UploadPage.tsx:100-104 | the tags message is present exactly when there is no tag |
| UploadPage.SubmitAlert | src/components/post/UploadPage.tsx:139-207 | no alert exactly when title, content and address are filled and a tag exists; otherwise the first failing check in form order, focusing its own input |
| UploadPage.RemoveNamed | src/components/post/UploadPage.tsx:457-460 | the files kept are those with another name and no others, and the list never grows (order in `RemoveNamedConcat`) |
| UploadPage.RemoveNamedConcat | src/components/post/UploadPage.tsx:457-460 | removal keeps the other files in order: it distributes over concatenation |
| UploadPage.Urls | src/components/post/UploadPage.tsx:215-222 | one address per successful upload, in file order |
| UploadPage.FirstThrow | src/components/post/UploadPage.tsx:217-222 | the uploads before it all succeeded, and the upload at it, if any, threw |
| UploadPage.CoverImage | src/components/post/UploadPage.tsx:226 | the cover is the first address, unless there is none or it is empty |
| UploadPage.UploadAll | src/components/post/UploadPage.tsx:215-222 | no failure exactly when every upload succeeds, and then the addresses in file order; otherwise the message of the first upload that threw |
| UploadPage.PostedImagesInFileOrder | src/components/post/UploadPage.tsx:224-227 | the stored pictures are the uploaded addresses in file order and the cover is the first of them |
| UploadPage.Form.constructor | src/components/post/UploadPage.tsx:33-72 | an empty form with no files, no tag text, no address, outside the tag input |
| UploadPage.Form.ChangeTitle | src/components/post/UploadPage.tsx:59-60 | the title is set and the form invariant holds |
| UploadPage.Form.ChangeContent | src/components/post/UploadPage.tsx:59-60 | the content is set and the form invariant holds |
| UploadPage.Form.ChangeLocation | src/components/post/UploadPage.tsx:63-67 | the chosen place is stored |
| UploadPage.Form.ChangeTagText | src/components/post/UploadTag.tsx:133 | the typed tag is stored |
| UploadPage.Form.SetTypingTag | src/components/post/UploadPage.tsx:72 | the typing flag is set |
| UploadPage.Form.ChangeFiles | src/components/post/UploadPage.tsx:106-131 | a batch that would pass ten files is refused whole with the limit alert; otherwise it is appended in order; never more than ten files |
| UploadPage.Form.DeleteFile | src/components/post/UploadPage.tsx:457-460 | every file of that name is removed |
| UploadPage.Form.ClickTag | src/components/post/UploadTag.tsx:50-117 | the tag list and input become what the add-tag rule gives, keeping at most ten distinct names |
| UploadPage.Form.RemoveTag | src/components/post/UploadTag.tsx:184-187 | the tag of that id is removed, keeping the names distinct |
| UploadPage.Form.Submit | src/components/post/UploadPage.tsx:133-285 | swallowed while typing a tag; otherwise the first missing field's alert, then sign-in, then the first upload error, then the write error, each shown after the `에러:` prefix; a post is written, with the addresses in file order and the form cleared, exactly when all passes; on any other outcome the form is unchanged |
| Validations.ValidateName | src/lib/validations.ts:4-9 | accepted exactly when the name is non-empty, not eight characters and at most ten; the empty, eight-character and over-long names get their own messages |
| Validations.NameLengthsAccepted | src/lib/validations.ts:4-9 | names of one, nine and ten characters are accepted although the message asks for two to seven |
| Validations.FirstIndex | src/lib/validations.ts:18 | the first position of the character, or -1 when it is absent |
| Validations.LastIndex | src/lib/validations.ts:18 | the last position of the character, or -1 when it is absent |
| Validations.EmailRegexMatchesPattern | src/lib/validations.ts:18-19 | deciding the address at its first `@` and last `.` accepts exactly the strings the regular expression matches |
| Validations.EmailRegexOneAt | src/lib/validations.ts:18 | an accepted address holds exactly one `@` |
| Validations.NoOtherAt | src/lib/validations.ts:18 | no character of an accepted address other than its separator is an `@` |
| Validations.EmailRegexIncludesAt | src/lib/validations.ts:16-19 | every address the expression accepts passes the earlier `@` check |
| Validations.ValidateEmail | src/lib/validations.ts:12-27 | without `@` the format message, failing the expression the invalid message; the duplicate check is asked exactly when a checker is given and both checks pass; accepted exactly when the expression matches and no duplicate is reported |
| Validations.ValidateBirth | src/lib/validations.ts:30-35 | accepted exactly when it is at least eight digits; non-digits get the digits message, a short number the length message |
| Validations.ValidatePhone | src/lib/validations.ts:38-44 | accepted exactly when it is one to eleven digits; the empty, non-digit and over-long numbers each get their message |
| Validations.ValidatePassword | src/lib/validations.ts:47-53 | accepted exactly when it has eight to eleven characters; the empty password gets its own message, any other length the length message |
| Validations.ValidateLocation | src/lib/validations.ts:56-59 | accepted exactly when consent is given |
| Validations.ValidateNickname | src/lib/validations.ts:62-72 | accepted exactly when it is one to seventeen ASCII letters and digits; the checks report empty, then characters, then length |
| Validations.ValidateBio | src/lib/validations.ts:75-78 | accepted exactly when it has at most one hundred characters |

## Left out

- Firestore, Storage and Auth calls, the tour API and the Kakao SDK. Their answers and failures are parameters of the handlers. Query caching, refetching and React rendering are not part of this model.
- Concurrency: every handler runs to completion before the next one starts, so interleaved awaits are not modelled. The places page's in-view trigger and the loading flags are booleans.
- Timers and delays: the 300 ms pause between upstream requests, the focus `setTimeout`s and the rate limiting are not modelled. Neither is console logging.
- Date parsing and `toLocaleString`: a date string is carried as the milliseconds it denotes, and the current time is the `now` parameter.
- Pending creation times: JavaScript gives `NaN` when sorting a post whose `createdAt` is still the pending server timestamp. The feed sort gives such a post the key 0 instead. Apart from that, the order of an inconsistent comparator is not modelled.
- `Math.random` and `v4()`: the verification code is the `drawn` parameter (100000 to 999999), and tag and file ids are given uuids.
- The Unicode classes `\p{L}` and `\p{N}`: they are the `letterOrNumber` parameter of the tag checks. Strings are sequences of characters, with no UTF-16 surrogate pairs.
- Navigation, focus and the `alert()` dialogs: the models return the navigation decision or the focus target and stop there. Key handlers are not modelled. These are the Enter and Space handlers of the tag input, the find-id and sign-up forms and the profile setup page (whose Enter key asks whether to add an image). The sign-up page's re-click of the consent checkbox is also left out.
- The stored-post `id` field spread over the document id in the store reader: the model takes the document id.
- AlertStore.Open: the buttons' `onClick` callbacks and the focus refs are opaque values; what they do when pressed is not modelled.
- PlaceCard.ToggleSpec: a failure between the like-document write and the count update counts as one failure; the partly written state in the store is not modelled.
- Bookmark.Page.ToggleLike: the store update is fire-and-forget, so its outcome is not modelled.
- RecommendMerged.Handle: the service-account setup, the request method and the credentials are not modelled. The `likeMap[id] || 0` fallback is modelled as `?? 0`; the two differ only for a stored `NaN`.
- IdFind.SelectReal: a found index past the real list gives no address, where the source would store the text `undefined`. `IdFind.SelectionHasReal` shows this cannot follow a lookup whose addresses hold no comma; addresses with commas are not modelled further.
- IdFind.Page: restoring and saving the session entries of the form (lines 80-130 of the page) is not modelled, apart from the joined real addresses that the submit reads.
- Signup.Page.Submit: `signOut` after a failed sign-up, the storage path and the generated uuid are parameters or left out.
- SettingProfile.Page.Submit: the uploaded picture's path (`profileImages/<time>_<name>`) is not modelled; the upload's outcome is a parameter.
- UploadPage.Form.Submit: it requires one storage answer per chosen file. The constant fields of the new post (empty likes, shares and bookmarks, `isLiked` false, the server timestamp) are not kept. Coordinates are integers.
- UploadPage.Form.ChangeTagText: the tag input's `onKeyUp` handling is left out. A space calls the add button's logic, and a space on a blank input with tags present moves the focus.
- LikeButton.ToggleSpec: it uses the liked flag computed from the local list. Re-rendering is not modelled.
- Notifications: the header's `window.checkUnreadNotifications` hook and the refetch after mark-all-read are not modelled.
- Customer.Page.constructor: the question list is fixed page content, so it is a constructor parameter rather than being copied out.
- Carousel: the image viewer of the bookmark page is the same `Carousel.Viewer`, and its markup is not modelled.
