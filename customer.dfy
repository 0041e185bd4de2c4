/**
 * The help page: a list of questions with answers, a search box that keeps
 * the questions containing the typed text, and an accordion in which at
 * most one answer is open at a time.
 */
module Customer {
  import opened Wrappers
  import Text
  import KeyedDedup

  /** `QnA`: a question and the lines of its answer. */
  datatype Qna = Qna(question: string, answer: seq<string>)

  /** `toggleQuestion`: the open question closes; any other question opens in its place. */
  function Toggle(open: Option<string>, question: string): (r: Option<string>)
    ensures open == Some(question) ==> r == None
    ensures open != Some(question) ==> r == Some(question)
  {
    if open == Some(question) then None else Some(question)
  }

  /** Toggling the same question twice restores a state in which none, or that question, was open. */
  lemma ToggleTwice(open: Option<string>, question: string)
    requires open == None || open == Some(question)
    ensures Toggle(Toggle(open, question), question) == open
  {
  }

  /** Toggling another question while one is open switches, rather than restoring the first. */
  lemma ToggleTwiceForgets(other: string, question: string)
    requires other != question
    ensures Toggle(Toggle(Some(other), question), question) == None
  {
  }

  /** `qna.filter(item => item.question.includes(searchTerm))`. */
  function Filtered(items: seq<Qna>, term: string): (r: seq<Qna>)
    ensures |r| <= |items|
    ensures forall q :: q in r <==> q in items && Text.Includes(q.question, term)
  {
    if items == [] then []
    else
      var rest := Filtered(items[1..], term);
      assert forall q :: q in items <==> q == items[0] || q in items[1..];
      if Text.Includes(items[0].question, term) then [items[0]] + rest else rest
  }

  /** The filtered list keeps the original order. */
  lemma {:induction false} FilteredInOrder(items: seq<Qna>, term: string)
    ensures KeyedDedup.IsSubseq(Filtered(items, term), items)
  {
    if items != [] {
      FilteredInOrder(items[1..], term);
      var rest := Filtered(items[1..], term);
      if Text.Includes(items[0].question, term) {
        assert ([items[0]] + rest)[1..] == rest;
      } else {
        SubseqOfTail(rest, items);
      }
    }
  }

  lemma SubseqOfTail<T>(r: seq<T>, s: seq<T>)
    requires s != [] && KeyedDedup.IsSubseq(r, s[1..])
    ensures KeyedDedup.IsSubseq(r, s)
  {
  }

  /** Every text contains the empty text. */
  lemma IncludesEmpty(s: string)
    ensures Text.Includes(s, "")
  {
    assert Text.OccursAt(s, "", 0);
  }

  /** An empty search term shows every question. */
  lemma {:induction false} EmptyTermKeepsAll(items: seq<Qna>)
    ensures Filtered(items, "") == items
  {
    if items != [] {
      IncludesEmpty(items[0].question);
      EmptyTermKeepsAll(items[1..]);
      assert [items[0]] + items[1..] == items;
    }
  }

  /** The "no results" line is shown exactly when no question contains the term. */
  lemma NoResultsIff(items: seq<Qna>, term: string)
    ensures Filtered(items, term) == [] <==> forall k :: 0 <= k < |items| ==> !Text.Includes(items[k].question, term)
  {
    var r := Filtered(items, term);
    if r != [] {
      assert r[0] in items;
    } else {
      forall k | 0 <= k < |items| ensures !Text.Includes(items[k].question, term) {
        assert items[k] in items && items[k] !in r;
      }
    }
  }

  /** The page state. The question list is fixed page content and is given to the constructor. */
  class Page {
    const qna: seq<Qna>
    var open: Option<string>
    var searchTerm: string

    constructor (qna: seq<Qna>)
      ensures this.qna == qna && open == None && searchTerm == ""
    {
      this.qna := qna;
      open := None;
      searchTerm := "";
    }

    /** A question's button. */
    method ToggleQuestion(question: string)
      modifies this`open
      ensures open == Toggle(old(open), question)
    {
      open := if open == Some(question) then None else Some(question);
    }

    /** The Escape key and a click on the background both close any open answer. */
    method Close()
      modifies this`open
      ensures open == None
    {
      open := None;
    }

    method Search(term: string)
      modifies this`searchTerm
      ensures searchTerm == term
    {
      searchTerm := term;
    }

    /** The listed questions, and whether "no results" is shown. */
    method Listed() returns (items: seq<Qna>, noResults: bool)
      ensures items == Filtered(qna, searchTerm)
      ensures noResults <==> items == []
    {
      items := Filtered(qna, searchTerm);
      noResults := |items| == 0;
    }

    /** Whether a question's answer is shown: only the open one's. */
    predicate AnswerShown(question: string)
      reads this
    {
      open == Some(question)
    }
  }
}
