/**
 * The search filter both view models apply: the query is lowercased and
 * split on spaces, and a recipe is kept when every term occurs in its
 * lowercased `"cuisine name"`. An empty query keeps every recipe.
 */
module Search {
  import opened Foundation
  import opened Recipes

  // ---------------------------------------------------------------------------
  // Splitting on spaces (`split(separator: " ")`, empty pieces omitted)

  /** The length of the leading run of non-space characters. */
  function WordLength(s: string): (n: nat)
    ensures n <= |s|
    ensures forall i :: 0 <= i < n ==> s[i] != ' '
    ensures n < |s| ==> s[n] == ' '
  {
    if s == [] || s[0] == ' ' then 0 else 1 + WordLength(s[1..])
  }

  function Split(s: string): (r: seq<string>)
    ensures forall k :: 0 <= k < |r| ==> r[k] != [] && ' ' !in r[k]
    decreases |s|
  {
    if s == [] then []
    else if s[0] == ' ' then Split(s[1..])
    else
      var n := WordLength(s);
      [s[..n]] + Split(s[n..])
  }

  /** A single word, with no space in it, splits into itself. */
  lemma SplitWord(w: string)
    requires w != [] && ' ' !in w
    ensures Split(w) == [w]
  {
    assert forall i :: 0 <= i < |w| ==> w[i] != ' ';
    assert WordLength(w) == |w|;
    assert w[..|w|] == w && w[|w|..] == [];
  }

  /** A query of spaces only has no terms. */
  lemma {:induction false} SpacesOnlyHaveNoTerms(s: string)
    requires forall i :: 0 <= i < |s| ==> s[i] == ' '
    ensures Split(s) == []
  {
    if s != [] {
      SpacesOnlyHaveNoTerms(s[1..]);
    }
  }

  /** Splitting a word followed by a space and more text. */
  lemma {:induction false} SplitAppendSpace(a: string, b: string)
    ensures Split(a + " " + b) == Split(a) + Split(b)
    decreases |a|
  {
    var s := a + " " + b;
    if a == [] {
      assert s[1..] == b;
    } else if a[0] == ' ' {
      assert s[1..] == a[1..] + " " + b;
      SplitAppendSpace(a[1..], b);
    } else {
      var n := WordLength(a);
      assert WordLength(s) == n by {
        WordLengthOfPrefix(a, " " + b);
        assert s == a + (" " + b);
      }
      assert s[..n] == a[..n];
      assert s[n..] == a[n..] + " " + b;
      SplitAppendSpace(a[n..], b);
    }
  }

  lemma {:induction false} WordLengthOfPrefix(a: string, t: string)
    requires t != [] && t[0] == ' '
    ensures WordLength(a + t) == WordLength(a)
  {
    if a != [] && a[0] != ' ' {
      assert (a + t)[1..] == a[1..] + t;
      WordLengthOfPrefix(a[1..], t);
    } else if a == [] {
      assert a + t == t;
    }
  }

  // ---------------------------------------------------------------------------
  // The filter

  /** The lowercased terms of a query. */
  function Terms(query: string): seq<string>
  {
    Split(Lower(query))
  }

  /** `"\(recipe.cuisine) \(recipe.name)".lowercased()`. */
  function SearchableText(r: Recipe): string
  {
    Lower(r.cuisine + " " + r.name)
  }

  /** Every term occurs in the recipe's searchable text. */
  predicate MatchesAll(r: Recipe, terms: seq<string>)
  {
    forall k :: 0 <= k < |terms| ==> Contains(SearchableText(r), terms[k])
  }

  /** Whether the filter keeps a recipe for a query. */
  predicate Keeps(query: string, r: Recipe)
  {
    query == [] || MatchesAll(r, Terms(query))
  }

  /** `xs` is an order-preserving subsequence of `ys`. */
  predicate IsSubsequence<T(==)>(xs: seq<T>, ys: seq<T>)
    decreases |ys|
  {
    if xs == [] then true
    else if ys == [] then false
    else if xs[0] == ys[0] then IsSubsequence(xs[1..], ys[1..])
    else IsSubsequence(xs, ys[1..])
  }

  lemma {:induction false} SubsequenceOfCons<T>(xs: seq<T>, y: T, ys: seq<T>)
    requires IsSubsequence(xs, ys)
    ensures IsSubsequence(xs, [y] + ys)
    decreases |xs| + |ys|, 1
  {
    assert ([y] + ys)[1..] == ys;
    if xs != [] && xs[0] == y {
      SubsequenceOfTail(xs, ys);
    }
  }

  lemma {:induction false} SubsequenceOfTail<T>(xs: seq<T>, ys: seq<T>)
    requires xs != [] && IsSubsequence(xs, ys)
    ensures IsSubsequence(xs[1..], ys)
    decreases |xs| + |ys|, 0
  {
    if xs[0] == ys[0] {
      SubsequenceOfCons(xs[1..], ys[0], ys[1..]);
    } else {
      SubsequenceOfTail(xs, ys[1..]);
      SubsequenceOfCons(xs[1..], ys[0], ys[1..]);
    }
    assert [ys[0]] + ys[1..] == ys;
  }

  /** The recipes the filter keeps, in their original order, each as many times as it occurs. */
  function Filter(recipes: seq<Recipe>, query: string): (r: seq<Recipe>)
    ensures IsSubsequence(r, recipes)
    ensures forall x :: x in r <==> x in recipes && Keeps(query, x)
    ensures forall x :: multiset(r)[x] == (if Keeps(query, x) then multiset(recipes)[x] else 0)
  {
    if recipes == [] then []
    else
      var rest := Filter(recipes[1..], query);
      assert [recipes[0]] + recipes[1..] == recipes;
      assert multiset(recipes) == multiset{recipes[0]} + multiset(recipes[1..]);
      if Keeps(query, recipes[0]) then
        [recipes[0]] + rest
      else
        SubsequenceOfCons(rest, recipes[0], recipes[1..]);
        rest
  }

  /** An empty query leaves the list as it is. */
  lemma {:induction false} EmptyQueryKeepsAll(recipes: seq<Recipe>)
    ensures Filter(recipes, "") == recipes
  {
    if recipes != [] {
      EmptyQueryKeepsAll(recipes[1..]);
    }
  }

  /** A query with no terms (only spaces) keeps every recipe too. */
  lemma {:induction false} SpacesOnlyKeepAll(recipes: seq<Recipe>, query: string)
    requires forall i :: 0 <= i < |query| ==> query[i] == ' '
    ensures Filter(recipes, query) == recipes
  {
    assert Terms(query) == [] by {
      SpacesOnlyHaveNoTerms(Lower(query));
    }
    if recipes != [] {
      SpacesOnlyKeepAll(recipes[1..], query);
    }
  }

  /** A recipe kept for a query is kept for any query whose terms it includes. */
  lemma KeptForFewerTerms(x: Recipe, q1: string, q2: string)
    requires forall k :: 0 <= k < |Terms(q1)| ==> Terms(q1)[k] in Terms(q2)
    ensures Keeps(q2, x) ==> Keeps(q1, x)
  {
    if Keeps(q2, x) && q1 != [] {
      forall k | 0 <= k < |Terms(q1)| ensures Contains(SearchableText(x), Terms(q1)[k]) {
        var j :| 0 <= j < |Terms(q2)| && Terms(q2)[j] == Terms(q1)[k];
      }
    }
  }

  /** A query whose terms include all of another's keeps no more recipes, in the same order. */
  lemma {:induction false} MoreTermsKeepFewer(recipes: seq<Recipe>, q1: string, q2: string)
    requires forall k :: 0 <= k < |Terms(q1)| ==> Terms(q1)[k] in Terms(q2)
    ensures IsSubsequence(Filter(recipes, q2), Filter(recipes, q1))
  {
    if recipes != [] {
      MoreTermsKeepFewer(recipes[1..], q1, q2);
      var x := recipes[0];
      var f1, f2 := Filter(recipes[1..], q1), Filter(recipes[1..], q2);
      KeptForFewerTerms(x, q1, q2);
      if Keeps(q1, x) {
        if Keeps(q2, x) {
          assert ([x] + f2)[1..] == f2 && ([x] + f1)[1..] == f1;
        } else {
          SubsequenceOfCons(f2, x, f1);
        }
      }
    }
  }

  /** Appending a term to the query never enlarges the result. */
  lemma AddingTermNeverEnlarges(recipes: seq<Recipe>, query: string, term: string)
    ensures IsSubsequence(Filter(recipes, query + " " + term), Filter(recipes, query))
  {
    calc {
      Terms(query + " " + term);
      Split(Lower(query + " " + term));
      { LowerAppend(query + " ", term); LowerAppend(query, " "); assert Lower(" ") == " "; }
      Split(Lower(query) + " " + Lower(term));
      { SplitAppendSpace(Lower(query), Lower(term)); }
      Terms(query) + Terms(term);
    }
    MoreTermsKeepFewer(recipes, query, query + " " + term);
  }

  /** The text contains a term exactly when the term occurs somewhere in it. */
  ghost predicate Occurs(text: string, term: string)
  {
    exists i: nat :: OccursAt(text, term, i)
  }

  /** Matching all terms means each term occurs somewhere in the searchable text. */
  lemma MatchesAllMeansOccurs(x: Recipe, ts: seq<string>)
    ensures MatchesAll(x, ts) <==> forall k :: 0 <= k < |ts| ==> Occurs(SearchableText(x), ts[k])
  {
    forall k | 0 <= k < |ts| ensures Contains(SearchableText(x), ts[k]) <==> Occurs(SearchableText(x), ts[k]) {
    }
  }

  /** A recipe is kept exactly when every term occurs in its lowercased cuisine and name. */
  lemma KeptIffAllTermsOccur(recipes: seq<Recipe>, query: string, x: Recipe)
    requires query != []
    ensures x in Filter(recipes, query) <==>
      x in recipes && forall k :: 0 <= k < |Terms(query)| ==>
        Occurs(Lower(x.cuisine + " " + x.name), Terms(query)[k])
  {
    MatchesAllMeansOccurs(x, Terms(query));
  }
}
