/**
 * The shape of a post document as the feeds read it. Only the fields the
 * modelled logic looks at are kept.
 */
module Posts {
  import opened Wrappers

  /**
   * A `createdAt` value: an ISO date string (carried as the milliseconds it
   * denotes), a store `Timestamp`, or the pending server-timestamp sentinel.
   */
  datatype TimeValue = Iso(ms: int) | Stamp(ms: int) | Pending

  /**
   * A post. `id` is absent on a post that was never read back from the
   * store; `likes` and `imgs` are `None` when the stored field is not an
   * array; an `imgs` element is `None` when it is not a string.
   */
  datatype Post = Post(
    id: Option<string>,
    uid: string,
    title: string,
    content: string,
    likes: Option<seq<string>>,
    createdAt: TimeValue,
    imgs: Option<seq<Option<string>>>)

  /** The ids of a list of posts. */
  function Ids(s: seq<Post>): set<Option<string>> {
    set i | 0 <= i < |s| :: s[i].id
  }

  predicate DistinctIds(s: seq<Post>) {
    forall i, j :: 0 <= i < j < |s| ==> s[i].id != s[j].id
  }

  /** `Array.isArray(likes) ? likes : []`. */
  function LikesOrEmpty(p: Post): seq<string> {
    p.likes.GetOr([])
  }
}
