/**
 * The post upload form: title, content, an address, up to ten tags and up
 * to ten picture files. The submit checks the fields in order, uploads the
 * files one by one, writes the post with the picture addresses in file
 * order, and clears the form.
 */
module UploadPage {
  import opened Wrappers
  import Text
  import UploadTag

  const TITLE_MISSING := "제목을 입력해주세요."
  const CONTENT_MISSING := "내용을 입력해주세요."
  const ADDRESS_MISSING := "주소를 입력해주세요."
  const TAGS_MISSING := "태그를 추가해주세요."
  const TOO_MANY_FILES := "이미지 최대 갯수는 10개 입니다."
  const POSTED := "게시물이 성공적으로 등록되었습니다!"
  const SIGN_IN_FIRST := "로그인 후 사용해주세요."
  const ERROR_PREFIX := "에러:"
  const MAX_FILES := 10

  const TITLE_INPUT: nat := 0
  const CONTENT_INPUT: nat := 1
  const ADDRESS_INPUT: nat := 2
  const TAG_INPUT: nat := 3

  /** A chosen picture; only its name matters to the form. */
  datatype File = File(name: string)

  /** `Location`: the chosen place. */
  datatype Location = Location(latitude: int, longitude: int, address: string)

  const NO_LOCATION := Location(0, 0, "")

  /** An alert and the input its button focuses. */
  datatype Alert = Alert(message: string, target: nat)

  // ----- validation memos -----

  /** `titleMessage`: the length test and the trim test together mean "blank". */
  function TitleMessage(title: string): (r: Option<string>)
    ensures r.Some? <==> Text.IsBlank(title)
    ensures r.Some? ==> r.value == TITLE_MISSING
  {
    if |title| == 0 || Text.IsBlank(title) then Some(TITLE_MISSING) else None
  }

  function ContentMessage(content: string): (r: Option<string>)
    ensures r.Some? <==> Text.IsBlank(content)
    ensures r.Some? ==> r.value == CONTENT_MISSING
  {
    if |content| == 0 || Text.IsBlank(content) then Some(CONTENT_MISSING) else None
  }

  function AddressMessage(address: string): (r: Option<string>)
    ensures r.Some? <==> Text.IsBlank(address)
    ensures r.Some? ==> r.value == ADDRESS_MISSING
  {
    if |address| == 0 || Text.IsBlank(address) then Some(ADDRESS_MISSING) else None
  }

  function TagsMessage(tags: seq<UploadTag.Tag>): (r: Option<string>)
    ensures r.Some? <==> tags == []
    ensures r.Some? ==> r.value == TAGS_MISSING
  {
    if |tags| == 0 then Some(TAGS_MISSING) else None
  }

  /** The checks of `onSubmit`, in order: the first message found and the input to focus. */
  function SubmitAlert(title: string, content: string, address: string, tags: seq<UploadTag.Tag>): (r: Option<Alert>)
    ensures r.None? <==> !Text.IsBlank(title) && !Text.IsBlank(content) && !Text.IsBlank(address) && tags != []
    ensures Text.IsBlank(title) ==> r == Some(Alert(TITLE_MISSING, TITLE_INPUT))
    ensures !Text.IsBlank(title) && Text.IsBlank(content) ==> r == Some(Alert(CONTENT_MISSING, CONTENT_INPUT))
    ensures !Text.IsBlank(title) && !Text.IsBlank(content) && Text.IsBlank(address) ==>
              r == Some(Alert(ADDRESS_MISSING, ADDRESS_INPUT))
    ensures !Text.IsBlank(title) && !Text.IsBlank(content) && !Text.IsBlank(address) && tags == [] ==>
              r == Some(Alert(TAGS_MISSING, TAG_INPUT))
  {
    var t := TitleMessage(title);
    var c := ContentMessage(content);
    var a := AddressMessage(address);
    var g := TagsMessage(tags);
    if t.Some? then Some(Alert(t.value, TITLE_INPUT))
    else if c.Some? then Some(Alert(c.value, CONTENT_INPUT))
    else if a.Some? then Some(Alert(a.value, ADDRESS_INPUT))
    else if g.Some? then Some(Alert(g.value, TAG_INPUT))
    else None
  }

  // ----- files -----

  /** `prev.filter(item => item.name !== name)`. */
  function RemoveNamed(files: seq<File>, name: string): (r: seq<File>)
    ensures |r| <= |files|
    ensures forall f :: f in r <==> f in files && f.name != name
  {
    if files == [] then []
    else
      var rest := RemoveNamed(files[1..], name);
      assert forall f :: f in files <==> f == files[0] || f in files[1..];
      if files[0].name != name then [files[0]] + rest else rest
  }

  /** Removal keeps the other files in order: it distributes over concatenation. */
  lemma {:induction false} RemoveNamedConcat(a: seq<File>, b: seq<File>, name: string)
    ensures RemoveNamed(a + b, name) == RemoveNamed(a, name) + RemoveNamed(b, name)
  {
    if a == [] {
      assert [] + b == b;
    } else {
      assert (a + b)[0] == a[0] && (a + b)[1..] == a[1..] + b;
      RemoveNamedConcat(a[1..], b, name);
    }
  }

  // ----- uploads -----

  /** What the storage answers for one file: its download address, or the error thrown. */
  datatype Upload = Stored(url: string) | Threw(message: string)

  predicate AllStored(s: seq<Upload>) { forall k :: 0 <= k < |s| ==> s[k].Stored? }

  /** The addresses of a run of successful uploads, in order. */
  function Urls(s: seq<Upload>): (r: seq<string>)
    requires AllStored(s)
    ensures |r| == |s|
    ensures forall k :: 0 <= k < |s| ==> r[k] == s[k].url
  {
    if s == [] then [] else Urls(s[..|s| - 1]) + [s[|s| - 1].url]
  }

  /** The index of the first failed upload, or the number of uploads when none failed. */
  function FirstThrow(s: seq<Upload>): (r: nat)
    ensures r <= |s| && AllStored(s[..r])
    ensures r < |s| ==> s[r].Threw?
  {
    if s == [] then 0
    else if s[0].Threw? then 0
    else
      var k := FirstThrow(s[1..]);
      assert s[..k + 1] == [s[0]] + s[1..][..k];
      k + 1
  }

  /** The signed-in author of the post. */
  datatype Author = Author(uid: string, nickname: Option<string>, profileImageUrl: Option<string>)

  /**
   * The document added to the posts collection. The fields the code always
   * writes the same way (empty likes, shares and bookmarks, `isLiked`
   * false, the server timestamp) are not kept.
   */
  datatype NewPost = NewPost(
    uid: string, imageUrl: Option<string>, imgs: seq<string>, content: string, title: string,
    lo: Location, tags: seq<UploadTag.Tag>, userNickname: Option<string>, userProfileImage: Option<string>)

  /** `imgUrls[0] || null`: the first address, unless there is none or it is empty. */
  function CoverImage(urls: seq<string>): (r: Option<string>)
    ensures r.Some? <==> |urls| > 0 && urls[0] != ""
    ensures r.Some? ==> r.value == urls[0]
  {
    if |urls| > 0 && urls[0] != "" then Some(urls[0]) else None
  }

  /**
   * The upload loop of `onSubmit`: the files are stored one after another,
   * and the first error stops the loop.
   */
  method UploadAll(uploads: seq<Upload>) returns (urls: seq<string>, failure: Option<string>)
    ensures failure.None? <==> AllStored(uploads)
    ensures failure.Some? ==> FirstThrow(uploads) < |uploads| && failure.value == uploads[FirstThrow(uploads)].message
    ensures failure.None? ==> urls == Urls(uploads)
  {
    urls := [];
    var i := 0;
    while i < |uploads|
      invariant 0 <= i <= |uploads| && AllStored(uploads[..i]) && urls == Urls(uploads[..i])
      invariant i <= FirstThrow(uploads)
    {
      if uploads[i].Threw? {
        return urls, Some(uploads[i].message);
      }
      assert uploads[..i + 1][..i] == uploads[..i];
      urls := urls + [uploads[i].url];
      i := i + 1;
    }
    assert uploads[..i] == uploads;
    failure := None;
  }

  datatype Outcome =
    | Ignored                  // the tag input has focus: the submit is swallowed
    | Shown(alert: Alert)      // a missing field
    | SignInFirst              // no user: a browser alert and a redirect
    | Failed(message: string)  // an upload or the write threw
    | Posted                   // written; the form is cleared and the feed opens

  /** The form's state. */
  class Form {
    var title: string
    var content: string
    var tags: seq<UploadTag.Tag>
    var tag: string
    var juso: Location
    var files: seq<File>
    var typingTag: bool

    /** The invariant the handlers keep: at most ten files, at most ten tags, tag names distinct. */
    predicate Valid()
      reads this
    {
      |files| <= MAX_FILES && |tags| <= UploadTag.MAX_TAGS && UploadTag.DistinctNames(tags)
    }

    /** Whether the form holds `initialState` with no files, tag text or address. */
    predicate Cleared()
      reads this
    {
      title == "" && content == "" && tags == [] && tag == "" && juso == NO_LOCATION && files == []
    }

    constructor ()
      ensures Valid() && Cleared() && !typingTag
    {
      title, content, tags, tag := "", "", [], "";
      juso := NO_LOCATION;
      files := [];
      typingTag := false;
    }

    method ChangeTitle(value: string)
      requires Valid()
      modifies this`title
      ensures Valid() && title == value
    {
      title := value;
    }

    method ChangeContent(value: string)
      requires Valid()
      modifies this`content
      ensures Valid() && content == value
    {
      content := value;
    }

    /** The address picker's result. */
    method ChangeLocation(loc: Location)
      requires Valid()
      modifies this`juso
      ensures Valid() && juso == loc
    {
      juso := loc;
    }

    method ChangeTagText(value: string)
      requires Valid()
      modifies this`tag
      ensures Valid() && tag == value
    {
      tag := value;
    }

    /** Focus entering or leaving the tag input. */
    method SetTypingTag(b: bool)
      requires Valid()
      modifies this`typingTag
      ensures Valid() && typingTag == b
    {
      typingTag := b;
    }

    /** `onChangeFiles`: a batch that would pass ten files is refused whole; otherwise appended in order. */
    method ChangeFiles(items: seq<File>) returns (alert: Option<string>)
      requires Valid()
      modifies this`files
      ensures Valid()
      ensures alert.Some? <==> |old(files)| + |items| > MAX_FILES
      ensures alert.Some? ==> alert.value == TOO_MANY_FILES && files == old(files)
      ensures alert.None? ==> files == old(files) + items
    {
      if |files| + |items| > MAX_FILES {
        return Some(TOO_MANY_FILES);
      }
      for k := 0 to |items|
        invariant files == old(files) + items[..k]
      {
        assert items[..k + 1] == items[..k] + [items[k]];
        files := files + [items[k]];
      }
      assert items[..|items|] == items;
      alert := None;
    }

    /** A file's delete button: every file with that name goes. */
    method DeleteFile(name: string)
      requires Valid()
      modifies this`files
      ensures Valid() && files == RemoveNamed(old(files), name)
    {
      files := RemoveNamed(files, name);
    }

    /** The tag add button, with `id` the new tag's uuid. */
    method ClickTag(id: string, letterOrNumber: char -> bool) returns (alert: Option<string>)
      requires Valid()
      modifies this`tags, this`tag
      ensures Valid()
      ensures UploadTag.Click(alert, tags, tag) == UploadTag.ClickTag(old(tags), old(tag), id, letterOrNumber)
    {
      UploadTag.ClickKeepsLimit(tags, tag, id, letterOrNumber);
      UploadTag.ClickKeepsNamesDistinct(tags, tag, id, letterOrNumber);
      var click := UploadTag.ClickTag(tags, tag, id, letterOrNumber);
      alert, tags, tag := click.alert, click.tags, click.input;
    }

    /** A tag's button: the tag with that id is removed. */
    method RemoveTag(id: string)
      requires Valid()
      modifies this`tags
      ensures Valid() && tags == UploadTag.RemoveTag(old(tags), id)
    {
      UploadTag.RemoveKeepsNamesDistinct(tags, id);
      tags := UploadTag.RemoveTag(tags, id);
    }

    /**
     * `onSubmit`. `user` is the signed-in author; `uploads` answers the
     * storage for each file in order; `writeError` is the message thrown by
     * the write, if any. Returns the outcome and the document written.
     */
    method Submit(user: Option<Author>, uploads: seq<Upload>, writeError: Option<string>)
      returns (outcome: Outcome, written: Option<NewPost>)
      requires Valid() && |uploads| == |files|
      modifies this`title, this`content, this`tags, this`tag, this`juso, this`files
      ensures Valid()
      ensures old(typingTag) ==> outcome == Ignored
      ensures !old(typingTag) && SubmitAlert(old(title), old(content), old(juso.address), old(tags)).Some? ==>
                outcome == Shown(SubmitAlert(old(title), old(content), old(juso.address), old(tags)).value)
      ensures !old(typingTag) && SubmitAlert(old(title), old(content), old(juso.address), old(tags)).None? && user.None? ==>
                outcome == SignInFirst
      ensures !old(typingTag) && SubmitAlert(old(title), old(content), old(juso.address), old(tags)).None? && user.Some?
              && FirstThrow(uploads) < |uploads| ==>
                outcome == Failed(ERROR_PREFIX + uploads[FirstThrow(uploads)].message)
      ensures !old(typingTag) && SubmitAlert(old(title), old(content), old(juso.address), old(tags)).None? && user.Some?
              && AllStored(uploads) && writeError.Some? ==>
                outcome == Failed(ERROR_PREFIX + writeError.value)
      ensures written.Some? <==> outcome == Posted
      ensures outcome == Posted ==>
                !old(typingTag) && SubmitAlert(old(title), old(content), old(juso.address), old(tags)).None? && user.Some?
                && AllStored(uploads) && writeError.None? && Cleared()
                && written.value == NewPost(user.value.uid, CoverImage(Urls(uploads)), Urls(uploads), old(content), old(title),
                                            old(juso), old(tags), user.value.nickname, user.value.profileImageUrl)
      ensures outcome != Posted ==>
                title == old(title) && content == old(content) && tags == old(tags) && tag == old(tag)
                && juso == old(juso) && files == old(files)
    {
      written := None;
      if typingTag {
        return Ignored, written;
      }
      var check := SubmitAlert(title, content, juso.address, tags);
      if check.Some? {
        return Shown(check.value), written;
      }
      if user.None? {
        return SignInFirst, written;
      }
      var imgUrls, failure := UploadAll(uploads);
      if failure.Some? {
        return Failed(ERROR_PREFIX + failure.value), written;
      }
      if writeError.Some? {
        return Failed(ERROR_PREFIX + writeError.value), written;
      }
      var u := user.value;
      written := Some(NewPost(u.uid, CoverImage(imgUrls), imgUrls, content, title, juso, tags, u.nickname, u.profileImageUrl));
      title, content, tags, tag := "", "", [], "";
      juso := NO_LOCATION;
      files := [];
      outcome := Posted;
    }
  }

  /** The stored pictures are the uploaded addresses in file order, the cover the first of them. */
  lemma PostedImagesInFileOrder(uploads: seq<Upload>)
    requires AllStored(uploads)
    ensures |Urls(uploads)| == |uploads|
    ensures forall k :: 0 <= k < |uploads| ==> Urls(uploads)[k] == uploads[k].url
    ensures |uploads| > 0 && uploads[0].url != "" ==> CoverImage(Urls(uploads)) == Some(uploads[0].url)
    ensures uploads == [] ==> CoverImage(Urls(uploads)).None?
  {
  }
}
