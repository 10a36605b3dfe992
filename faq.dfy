/** The search of app/faq/page.tsx: the page keeps the entries whose
    question or answer contains the search query, ignoring letter case, in
    their original order. */
module Faq {

  /** One question with its answer. */
  datatype Entry = Entry(question: string, answer: string)

  // ---------------------------------------------------------------------
  // Lower-casing and substring search on strings

  /** `toLowerCase` on one character, restricted to ASCII: `A`–`Z` become
      `a`–`z`, every other character is kept. */
  function LowerChar(c: char): (r: char)
    ensures !('A' <= r <= 'Z')
    ensures !('A' <= c <= 'Z') ==> r == c
    ensures 'A' <= c <= 'Z' ==> r as int - 'a' as int == c as int - 'A' as int
  {
    if 'A' <= c <= 'Z' then (c as int + ('a' as int - 'A' as int)) as char else c
  }

  /** `String.prototype.toLowerCase`, character by character. */
  function Lower(s: string): (r: string)
    ensures |r| == |s|
    ensures forall i :: 0 <= i < |s| ==> r[i] == LowerChar(s[i])
    ensures forall i :: 0 <= i < |r| ==> !('A' <= r[i] <= 'Z')
  {
    seq(|s|, i requires 0 <= i < |s| => LowerChar(s[i]))
  }

  /** `needle` occurs in `hay` starting at index `i`. */
  predicate OccursAt(hay: string, needle: string, i: int)
  {
    0 <= i && i + |needle| <= |hay| && hay[i..i + |needle|] == needle
  }

  /** `String.prototype.includes`: `needle` occurs somewhere in `hay`. */
  predicate Includes(hay: string, needle: string)
  {
    exists i :: 0 <= i <= |hay| - |needle| && OccursAt(hay, needle, i)
  }

  /** Lower-casing is idempotent. */
  lemma LowerIdempotent(s: string)
    ensures Lower(Lower(s)) == Lower(s)
  {
  }

  /** Lower-casing commutes with slicing. */
  lemma LowerSlice(s: string, i: int, j: int)
    requires 0 <= i <= j <= |s|
    ensures Lower(s)[i..j] == Lower(s[i..j])
  {

  }

  /** The empty string occurs in every string. */
  lemma IncludesEmpty(hay: string)
    ensures Includes(hay, "")
  {
    assert OccursAt(hay, "", 0);
  }

  /** A string occurs in itself. */
  lemma IncludesSelf(s: string)
    ensures Includes(s, s)
  {
    assert OccursAt(s, s, 0);
  }

  /** Substring is transitive: what occurs in `mid` occurs in whatever
      `mid` occurs in. */
  lemma IncludesTransitive(hay: string, mid: string, needle: string)
    requires Includes(mid, needle) && Includes(hay, mid)
    ensures Includes(hay, needle)
  {
    var i :| 0 <= i <= |mid| - |needle| && OccursAt(mid, needle, i);
    var j :| 0 <= j <= |hay| - |mid| && OccursAt(hay, mid, j);
    forall k | 0 <= k < |needle|
      ensures hay[j + i..j + i + |needle|][k] == needle[k]
    {
      assert needle[k] == mid[i + k] == hay[j + (i + k)];
    }
    assert OccursAt(hay, needle, j + i);
  }

  /** An occurrence survives lower-casing both strings. */
  lemma IncludesLower(hay: string, needle: string)
    requires Includes(hay, needle)
    ensures Includes(Lower(hay), Lower(needle))
  {
    var i :| 0 <= i <= |hay| - |needle| && OccursAt(hay, needle, i);
    LowerSlice(hay, i, i + |needle|);
    assert OccursAt(Lower(hay), Lower(needle), i);
  }

  // ---------------------------------------------------------------------
  // The filter

  /** The test inside `faqs.filter(...)`: the lower-cased query occurs in
      the lower-cased question or in the lower-cased answer. */
  predicate Matches(e: Entry, query: string)
    ensures query == "" ==> Matches(e, query)
  {
    IncludesEmpty(Lower(e.question));
    assert Lower("") == "";
    Includes(Lower(e.question), Lower(query)) || Includes(Lower(e.answer), Lower(query))
  }

  /** `faqs.filter(...)`: the matching entries, in order, unchanged. */
  function Filter(faqs: seq<Entry>, query: string): (r: seq<Entry>)
    ensures |r| <= |faqs|
    ensures forall e :: e in r <==> e in faqs && Matches(e, query)
    ensures forall e :: multiset(r)[e] == if Matches(e, query) then multiset(faqs)[e] else 0
  {
    if faqs == [] then []
    else
      assert faqs == [faqs[0]] + faqs[1..];
      (if Matches(faqs[0], query) then [faqs[0]] else []) + Filter(faqs[1..], query)
  }

  /** `a` is `b` with some elements removed, the rest in their order. */
  predicate IsSubsequence(a: seq<Entry>, b: seq<Entry>)
    decreases |b|
  {
    if a == [] then true
    else if b == [] then false
    else (a[0] == b[0] && IsSubsequence(a[1..], b[1..])) || IsSubsequence(a, b[1..])
  }

  /** A subsequence is no longer than the sequence it is taken from. */
  lemma {:induction false} SubsequenceLength(a: seq<Entry>, b: seq<Entry>)
    requires IsSubsequence(a, b)
    ensures |a| <= |b|
    decreases |b|
  {
    if a != [] {
      if a[0] == b[0] && IsSubsequence(a[1..], b[1..]) {
        SubsequenceLength(a[1..], b[1..]);
      } else {
        SubsequenceLength(a, b[1..]);
      }
    }
  }

  /** The filtered list keeps the entries' order: it is a subsequence of
      the full list. */
  lemma {:induction false} FilterIsSubsequence(faqs: seq<Entry>, query: string)
    ensures IsSubsequence(Filter(faqs, query), faqs)
  {
    if faqs != [] {
      FilterIsSubsequence(faqs[1..], query);
      var rest := Filter(faqs[1..], query);
      if Matches(faqs[0], query) {
        assert Filter(faqs, query) == [faqs[0]] + rest;
        assert ([faqs[0]] + rest)[1..] == rest;
      } else {
        assert Filter(faqs, query) == rest;
        if rest != [] {
          assert IsSubsequence(rest, faqs[1..]);
        }
      }
    }
  }

  /** The empty query (the page's initial state) keeps every entry. */
  lemma {:induction false} EmptyQueryKeepsAll(faqs: seq<Entry>)
    ensures Filter(faqs, "") == faqs
  {
    if faqs != [] {
      IncludesEmpty(Lower(faqs[0].question));
      assert Lower("") == "";
      EmptyQueryKeepsAll(faqs[1..]);
    }
  }

  /** Two queries that lower-case to the same string select the same
      entries: the search ignores ASCII letter case. */
  lemma {:induction false} CaseInsensitive(faqs: seq<Entry>, q1: string, q2: string)
    requires Lower(q1) == Lower(q2)
    ensures Filter(faqs, q1) == Filter(faqs, q2)
  {
    if faqs != [] {
      CaseInsensitive(faqs[1..], q1, q2);
    }
  }

  /** A query and its lower-cased form select the same entries. */
  lemma QueryLowered(faqs: seq<Entry>, query: string)
    ensures Filter(faqs, Lower(query)) == Filter(faqs, query)
  {
    LowerIdempotent(query);
    CaseInsensitive(faqs, Lower(query), query);
  }

  /** An entry that matches a longer query matches every query contained
      in it. */
  lemma MatchesShorter(e: Entry, query: string, longer: string)
    requires Includes(longer, query) && Matches(e, longer)
    ensures Matches(e, query)
  {
    IncludesLower(longer, query);
    if Includes(Lower(e.question), Lower(longer)) {
      IncludesTransitive(Lower(e.question), Lower(longer), Lower(query));
    } else {
      IncludesTransitive(Lower(e.answer), Lower(longer), Lower(query));
    }
  }

  /** Searching for a longer query is searching the results of a shorter
      query it contains. */
  lemma {:induction false} FilterRefines(faqs: seq<Entry>, query: string, longer: string)
    requires Includes(longer, query)
    ensures Filter(Filter(faqs, query), longer) == Filter(faqs, longer)
  {
    if faqs != [] {
      FilterRefines(faqs[1..], query, longer);
      var head, tail := faqs[0], Filter(faqs[1..], query);
      if Matches(head, query) {
        assert Filter(faqs, query) == [head] + tail;
        assert ([head] + tail)[1..] == tail;
      } else {
        if Matches(head, longer) {
          MatchesShorter(head, query, longer);
        }
        assert Filter(faqs, query) == tail;
        assert Filter(faqs, longer) == Filter(faqs[1..], longer);
      }
    }
  }

  /** Monotonicity: extending the query can only drop entries, never add
      or reorder them. */
  lemma Monotone(faqs: seq<Entry>, query: string, longer: string)
    requires Includes(longer, query)
    ensures IsSubsequence(Filter(faqs, longer), Filter(faqs, query))
    ensures forall e :: e in Filter(faqs, longer) ==> e in Filter(faqs, query)
  {
    FilterRefines(faqs, query, longer);
    FilterIsSubsequence(Filter(faqs, query), longer);
  }

  /** Filtering twice with one query is filtering once. */
  lemma FilterIdempotent(faqs: seq<Entry>, query: string)
    ensures Filter(Filter(faqs, query), query) == Filter(faqs, query)
  {
    IncludesSelf(query);
    FilterRefines(faqs, query, query);
  }

  // ---------------------------------------------------------------------
  // The page state

  /** The FAQ page: a fixed list of entries and the `searchQuery` state
      that the search input replaces on every change. */
  class SearchPage {
    const faqs: seq<Entry>
    var searchQuery: string

    /** `useState("")`. */
    constructor (faqs: seq<Entry>)
      ensures this.faqs == faqs && searchQuery == ""
    {
      this.faqs := faqs;
      searchQuery := "";
    }

    /** The input's `onChange`: the new text replaces the query. */
    method SetSearchQuery(query: string)
      modifies this
      ensures searchQuery == query
    {
      searchQuery := query;
    }

    /** `filteredFaqs`, recomputed from the current query on each render. */
    function Shown(): (r: seq<Entry>)
      reads this
      ensures IsSubsequence(r, faqs)
      ensures forall e :: e in r <==> e in faqs && Matches(e, searchQuery)
      ensures forall e :: multiset(r)[e] == if Matches(e, searchQuery) then multiset(faqs)[e] else 0
      ensures r == Filter(faqs, searchQuery)
    {
      FilterIsSubsequence(faqs, searchQuery);
      Filter(faqs, searchQuery)
    }
  }

  /** A freshly opened page shows every entry; after typing `query` it
      shows the filtered entries. */
  method OpenAndSearch(faqs: seq<Entry>, query: string) returns (initial: seq<Entry>, searched: seq<Entry>)
    ensures initial == faqs
    ensures IsSubsequence(searched, faqs)
    ensures forall e :: e in searched <==> e in faqs && Matches(e, query)
    ensures searched == Filter(faqs, query)
  {
    var page := new SearchPage(faqs);
    EmptyQueryKeepsAll(faqs);
    initial := page.Shown();
    page.SetSearchQuery(query);
    searched := page.Shown();
  }
}
