/**
 * The tag field of the post upload form: the typed tag is checked, prefixed
 * with '#', and appended to the post's tag list unless the list is full or
 * already holds that name; a tag is removed by its id. The list itself
 * belongs to the upload form (`UploadPage.Form`), which applies these
 * functions to its state.
 */
module UploadTag {
  import opened Wrappers
  import Text

  const BLANK := "공백은 입력이 안됩니다"
  const SPECIAL := "특수기호를 포함하면 안됩니다."
  const ENTER_TAG := "태그를 입력해 주세요."
  const LIMIT_REACHED := "태그는 최대 10개까지만\n 추가할 수 있습니다."
  const DUPLICATE := "이미 존재하는 태그입니다."
  const MAX_TAGS := 10

  /** `Tag` from the post types. */
  datatype Tag = Tag(id: string, name: string)

  /**
   * `/^[\p{L}\p{N}\s]+$/u`: one or more characters, each a letter, a number
   * or white space. The Unicode letter and number classes are the parameter
   * `letterOrNumber`.
   */
  predicate TagChars(tag: string, letterOrNumber: char -> bool)
  {
    |tag| > 0 && forall i :: 0 <= i < |tag| ==> letterOrNumber(tag[i]) || Text.IsSpace(tag[i])
  }

  /** `tagMessage`. */
  function TagMessage(tag: string, letterOrNumber: char -> bool): (r: Option<string>)
    ensures r.None? <==> !Text.IsBlank(tag) && TagChars(tag, letterOrNumber)
    ensures Text.IsBlank(tag) ==> r == Some(BLANK)
    ensures !Text.IsBlank(tag) && !TagChars(tag, letterOrNumber) ==> r == Some(SPECIAL)
  {
    if Text.IsBlank(tag) then Some(BLANK)
    else if Text.IsBlank(tag) != !TagChars(tag, letterOrNumber) then Some(SPECIAL)
    else if |tag| == 0 then Some(ENTER_TAG)
    else None
  }

  /** The third message can never be produced: an empty tag is already blank. */
  lemma EnterTagUnreachable(tag: string, letterOrNumber: char -> bool)
    ensures TagMessage(tag, letterOrNumber) != Some(ENTER_TAG)
  {
  }

  /** The stored name: the tag with a leading '#', added only when missing. */
  function FormatTag(tag: string): (r: string)
    ensures Text.StartsWith(r, "#")
    ensures Text.StartsWith(tag, "#") ==> r == tag
    ensures !Text.StartsWith(tag, "#") ==> r == "#" + tag
  {
    if Text.StartsWith(tag, "#") then tag else "#" + tag
  }

  /** Formatting twice changes nothing more. */
  lemma FormatIdempotent(tag: string)
    ensures FormatTag(FormatTag(tag)) == FormatTag(tag)
  {
  }

  predicate HasName(tags: seq<Tag>, name: string) { exists k :: 0 <= k < |tags| && tags[k].name == name }

  predicate DistinctNames(tags: seq<Tag>)
  {
    forall i, j :: 0 <= i < j < |tags| ==> tags[i].name != tags[j].name
  }

  /** What a click on the add button leaves: the alert, the tag list and the input text. */
  datatype Click = Click(alert: Option<string>, tags: seq<Tag>, input: string)

  /** `onClickTag`, with `id` the fresh uuid of the new tag. */
  function ClickTag(tags: seq<Tag>, input: string, id: string, letterOrNumber: char -> bool): (r: Click)
    ensures TagMessage(input, letterOrNumber).Some? ==> r == Click(TagMessage(input, letterOrNumber), tags, input)
    ensures TagMessage(input, letterOrNumber).None? && |tags| >= MAX_TAGS ==> r == Click(Some(LIMIT_REACHED), tags, input)
    ensures TagMessage(input, letterOrNumber).None? && |tags| < MAX_TAGS && HasName(tags, FormatTag(input)) ==>
              r == Click(Some(DUPLICATE), tags, "")
    ensures r.alert.None? <==>
              TagMessage(input, letterOrNumber).None? && |tags| < MAX_TAGS && !HasName(tags, FormatTag(input))
    ensures r.alert.None? ==> r.tags == tags + [Tag(id, FormatTag(input))] && r.input == ""
  {
    var message := TagMessage(input, letterOrNumber);
    if message.Some? then Click(message, tags, input)
    else if |tags| >= MAX_TAGS then Click(Some(LIMIT_REACHED), tags, input)
    else
      var name := FormatTag(input);
      if HasName(tags, name) then Click(Some(DUPLICATE), tags, "")
      else Click(None, tags + [Tag(id, name)], "")
  }

  /** A click never takes the list past ten tags. */
  lemma ClickKeepsLimit(tags: seq<Tag>, input: string, id: string, letterOrNumber: char -> bool)
    requires |tags| <= MAX_TAGS
    ensures |ClickTag(tags, input, id, letterOrNumber).tags| <= MAX_TAGS
  {
  }

  /** A click never adds a second tag with an existing name. */
  lemma ClickKeepsNamesDistinct(tags: seq<Tag>, input: string, id: string, letterOrNumber: char -> bool)
    requires DistinctNames(tags)
    ensures DistinctNames(ClickTag(tags, input, id, letterOrNumber).tags)
  {
    var r := ClickTag(tags, input, id, letterOrNumber);
    if r.alert.None? {
      var name := FormatTag(input);
      forall i, j | 0 <= i < j < |r.tags| ensures r.tags[i].name != r.tags[j].name {
        if j == |tags| {
          assert r.tags[i] == tags[i];
          assert !HasName(tags, name);
        }
      }
    }
  }

  /** The tag list with the tag of this id taken out: `prev.tags.filter(tag => tag.id !== id)`. */
  function RemoveTag(tags: seq<Tag>, id: string): (r: seq<Tag>)
    ensures |r| <= |tags|
    ensures forall t :: t in r <==> t in tags && t.id != id
  {
    if tags == [] then []
    else
      var rest := RemoveTag(tags[1..], id);
      assert forall t :: t in tags <==> t == tags[0] || t in tags[1..];
      if tags[0].id != id then [tags[0]] + rest else rest
  }

  /** Removal keeps the other tags in order: it distributes over concatenation. */
  lemma {:induction false} RemoveTagConcat(a: seq<Tag>, b: seq<Tag>, id: string)
    ensures RemoveTag(a + b, id) == RemoveTag(a, id) + RemoveTag(b, id)
  {
    if a == [] {
      assert [] + b == b;
    } else {
      assert (a + b)[0] == a[0] && (a + b)[1..] == a[1..] + b;
      RemoveTagConcat(a[1..], b, id);
    }
  }

  /** Removal keeps the names distinct. */
  lemma {:induction false} RemoveKeepsNamesDistinct(tags: seq<Tag>, id: string)
    requires DistinctNames(tags)
    ensures DistinctNames(RemoveTag(tags, id))
  {
    if tags != [] {
      var rest := RemoveTag(tags[1..], id);
      DistinctNamesTail(tags);
      RemoveKeepsNamesDistinct(tags[1..], id);
      if tags[0].id != id {
        var r := [tags[0]] + rest;
        forall i, j | 0 <= i < j < |r| ensures r[i].name != r[j].name {
          if i == 0 {
            assert r[j] in rest;
            HeadNameUnique(tags, r[j]);
          } else {
            assert r[i] == rest[i - 1] && r[j] == rest[j - 1];
          }
        }
      }
    }
  }

  lemma DistinctNamesTail(tags: seq<Tag>)
    requires tags != [] && DistinctNames(tags)
    ensures DistinctNames(tags[1..])
  {
    forall i, j | 0 <= i < j < |tags[1..]| ensures tags[1..][i].name != tags[1..][j].name {
      assert tags[1..][i] == tags[i + 1] && tags[1..][j] == tags[j + 1];
    }
  }

  /** No later tag shares the first tag's name. */
  lemma HeadNameUnique(tags: seq<Tag>, t: Tag)
    requires tags != [] && DistinctNames(tags) && t in tags[1..]
    ensures t.name != tags[0].name
  {
    var k :| 0 <= k < |tags[1..]| && tags[1..][k] == t;
    assert tags[k + 1] == t;
  }

  /** With distinct ids, removing a present id shortens the list by exactly one. */
  lemma {:induction false} RemoveOne(tags: seq<Tag>, id: string)
    requires forall i, j :: 0 <= i < j < |tags| ==> tags[i].id != tags[j].id
    requires exists k :: 0 <= k < |tags| && tags[k].id == id
    ensures |RemoveTag(tags, id)| == |tags| - 1
  {
    if tags[0].id == id {
      RemoveAbsent(tags[1..], id);
    } else {
      var k :| 0 <= k < |tags| && tags[k].id == id;
      assert tags[1..][k - 1].id == id;
      RemoveOne(tags[1..], id);
    }
  }

  /** Removing an id no tag has leaves the list as it was. */
  lemma {:induction false} RemoveAbsent(tags: seq<Tag>, id: string)
    requires forall k :: 0 <= k < |tags| ==> tags[k].id != id
    ensures RemoveTag(tags, id) == tags
  {
    if tags != [] {
      RemoveAbsent(tags[1..], id);
      assert [tags[0]] + tags[1..] == tags;
    }
  }
}
