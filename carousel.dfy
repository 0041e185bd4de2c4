/**
 * The post detail modal shared by the main feed, the profile feed and the
 * bookmark page: opening a post shows its string images from the first
 * one, the arrows step through them with wrap-around, Escape closes it.
 */
module Carousel {
  import opened Wrappers
  import opened Posts
  import Arith

  /** The string elements of a list, in order. */
  function Strings(xs: seq<Option<string>>): (r: seq<string>)
    ensures |r| <= |xs|
    ensures forall e :: e in r <==> Some(e) in xs
  {
    if xs == [] then []
    else
      var rest := Strings(xs[1..]);
      assert forall e :: Some(e) in xs <==> Some(e) == xs[0] || Some(e) in xs[1..];
      match xs[0]
      case Some(e) => [e] + rest
      case None => rest
  }

  /** The filter keeps the string elements in their order: it distributes over concatenation. */
  lemma {:induction false} StringsConcat(xs: seq<Option<string>>, ys: seq<Option<string>>)
    ensures Strings(xs + ys) == Strings(xs) + Strings(ys)
  {
    if xs == [] {
      assert [] + ys == ys;
    } else {
      assert (xs + ys)[0] == xs[0] && (xs + ys)[1..] == xs[1..] + ys;
      StringsConcat(xs[1..], ys);
    }
  }

  /** `Array.isArray(imgs) ? imgs.filter(is string) : []`. */
  function StringImages(imgs: Option<seq<Option<string>>>): (r: seq<string>)
    ensures imgs.None? ==> r == []
    ensures imgs.Some? ==> forall e :: e in r <==> Some(e) in imgs.value
    ensures imgs.Some? ==> |r| <= |imgs.value|
  {
    match imgs
    case None => []
    case Some(xs) => Strings(xs)
  }

  /**
   * The images of two runs of `imgs` are the images of the first run
   * followed by those of the second; a string element is one image and
   * any other element none.
   */
  lemma StringImagesConcat(xs: seq<Option<string>>, ys: seq<Option<string>>, e: string)
    ensures StringImages(Some(xs + ys)) == StringImages(Some(xs)) + StringImages(Some(ys))
    ensures StringImages(Some([Some(e)])) == [e] && StringImages(Some([None])) == []
  {
    StringsConcat(xs, ys);
  }

  /** The previous image, wrapping from the first to the last. */
  function PrevIndex(i: nat, n: nat): (r: nat)
    requires i < n
    ensures r < n && r == (i + n - 1) % n
  {
    if i == 0 then Arith.DivModUnique(n - 1, n, 0, n - 1); n - 1
    else Arith.DivModUnique(i + n - 1, n, 1, i - 1); i - 1
  }

  /** The next image, wrapping from the last to the first. */
  function NextIndex(i: nat, n: nat): (r: nat)
    requires i < n
    ensures r < n && r == (i + 1) % n
  {
    if i == n - 1 then Arith.DivModUnique(n, n, 1, 0); 0
    else Arith.DivModUnique(i + 1, n, 0, i + 1); i + 1
  }

  /** Stepping back then forward, or forward then back, returns to the same image. */
  lemma PrevNextInverse(i: nat, n: nat)
    requires i < n
    ensures NextIndex(PrevIndex(i, n), n) == i
    ensures PrevIndex(NextIndex(i, n), n) == i
  {
  }

  /** `k` presses of the next arrow. */
  function NextTimes(i: nat, k: nat, n: nat): (r: nat)
    requires i < n
    ensures r < n
  {
    if k == 0 then i else NextIndex(NextTimes(i, k - 1, n), n)
  }

  /** After `k` presses the carousel shows image `(i + k) mod n`: `n` presses come full circle. */
  lemma {:induction false} NextTimesMod(i: nat, k: nat, n: nat)
    requires i < n
    ensures NextTimes(i, k, n) == (i + k) % n
  {
    if k > 0 {
      NextTimesMod(i, k - 1, n);
      Arith.ModSucc(i + k - 1, n);
    } else {
      Arith.DivModUnique(i, n, 0, i);
    }
  }

  /** The modal: the selected post, its images and the shown index. */
  class Viewer {
    var selected: Option<Post>
    var images: seq<string>
    var index: nat

    ghost predicate Valid()
      reads this
    {
      if images == [] then index == 0 else index < |images|
    }

    constructor ()
      ensures Valid() && selected == None && images == [] && index == 0
    {
      selected := None;
      images := [];
      index := 0;
    }

    /** `handleOpenPost`: select the post, show its string images from the first. */
    method Open(p: Post)
      modifies this
      ensures Valid() && selected == Some(p) && images == StringImages(p.imgs) && index == 0
    {
      selected := Some(p);
      images := StringImages(p.imgs);
      index := 0;
    }

    /** `handlePrev`: a no-op without images. */
    method Prev()
      requires Valid()
      modifies this`index
      ensures Valid()
      ensures index == if images == [] then old(index) else PrevIndex(old(index), |images|)
    {
      if |images| == 0 { return; }
      index := if index == 0 then |images| - 1 else index - 1;
    }

    /** `handleNext`: a no-op without images. */
    method Next()
      requires Valid()
      modifies this`index
      ensures Valid()
      ensures index == if images == [] then old(index) else NextIndex(old(index), |images|)
    {
      if |images| == 0 { return; }
      index := if index == |images| - 1 then 0 else index + 1;
    }

    /** Escape (or the close button) deselects the post. */
    method Close()
      modifies this`selected
      ensures selected == None
    {
      selected := None;
    }
  }
}
