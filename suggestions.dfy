/**
 * The suggestion filter of the autocomplete popup: the data items that contain
 * what the user typed, in their original order, cut to the first five.
 */
module Suggestions {

  /** Most suggestions the popup ever lists (`maxSearchListSize`). */
  const MaxSearchListSize: nat := 5

  /**
   * `text.includes(q)`: q occurs in text as a contiguous, case-sensitive run of
   * characters. The empty query occurs in every text.
   */
  predicate Includes(text: string, q: string)
    ensures q == [] ==> Includes(text, q)
    ensures Includes(text, q) ==> |q| <= |text|
    decreases |text|
  {
    q <= text || (text != [] && Includes(text[1..], q))
  }

  /** q occurs in text starting at position i. */
  ghost predicate OccursAt(text: string, q: string, i: int)
  {
    0 <= i && i + |q| <= |text| && text[i..i + |q|] == q
  }

  /** A text that includes q has an occurrence of q. */
  lemma {:induction false} IncludesHasOccurrence(text: string, q: string) returns (i: nat)
    requires Includes(text, q)
    ensures OccursAt(text, q, i)
    decreases |text|
  {
    if q <= text {
      i := 0;
    } else {
      var j := IncludesHasOccurrence(text[1..], q);
      assert text[j + 1..j + 1 + |q|] == text[1..][j..j + |q|];
      i := j + 1;
    }
  }

  /** An occurrence of q at any position makes the text include q. */
  lemma {:induction false} OccurrenceIncludes(text: string, q: string, i: nat)
    requires OccursAt(text, q, i)
    ensures Includes(text, q)
    decreases i
  {
    if i > 0 {
      assert text[1..][i - 1..i - 1 + |q|] == text[i..i + |q|];
      OccurrenceIncludes(text[1..], q, i - 1);
    }
  }

  /** Includes is substring containment: it holds exactly when q occurs at some position. */
  lemma IncludesIffOccurs(text: string, q: string)
    ensures Includes(text, q) <==> exists i :: OccursAt(text, q, i)
  {
    if Includes(text, q) {
      var i := IncludesHasOccurrence(text, q);
    }
    if i :| OccursAt(text, q, i) {
      OccurrenceIncludes(text, q, i);
    }
  }

  /** xs can be obtained from ys by deleting elements: ys keeps xs in its order. */
  predicate IsSubsequence<T(==)>(xs: seq<T>, ys: seq<T>)
    decreases |ys|
  {
    xs == [] ||
    (ys != [] &&
     ((xs[0] == ys[0] && IsSubsequence(xs[1..], ys[1..])) || IsSubsequence(xs, ys[1..])))
  }

  /** `data.filter(text => text.includes(q))`: every matching item, in data order. */
  function Matches(data: seq<string>, q: string): (r: seq<string>)
    ensures |r| <= |data|
    ensures forall s :: s in r ==> Includes(s, q)
  {
    if data == [] then []
    else if Includes(data[0], q) then [data[0]] + Matches(data[1..], q)
    else Matches(data[1..], q)
  }

  /**
   * The suggestions for query q: `data.filter(...).slice(0, maxSearchListSize)`,
   * the first min(5, number of matches) matching items.
   */
  function Filter(data: seq<string>, q: string): (r: seq<string>)
    ensures |r| <= MaxSearchListSize
    ensures forall s :: s in r ==> Includes(s, q)
    ensures r <= Matches(data, q)
    ensures |r| == if |Matches(data, q)| <= MaxSearchListSize then |Matches(data, q)| else MaxSearchListSize
  {
    var m := Matches(data, q);
    if |m| <= MaxSearchListSize then m else m[..MaxSearchListSize]
  }

  /** Dropping elements of ys never adds occurrences. */
  lemma {:induction false} SubsequenceMultiset<T>(xs: seq<T>, ys: seq<T>)
    requires IsSubsequence(xs, ys)
    ensures multiset(xs) <= multiset(ys)
    decreases |ys|
  {
    if xs == [] {
    } else if xs[0] == ys[0] && IsSubsequence(xs[1..], ys[1..]) {
      SubsequenceMultiset(xs[1..], ys[1..]);
      assert xs == [xs[0]] + xs[1..];
      assert ys == [ys[0]] + ys[1..];
    } else {
      SubsequenceMultiset(xs, ys[1..]);
      assert ys == [ys[0]] + ys[1..];
    }
  }

  /** A prefix of a subsequence is a subsequence. */
  lemma {:induction false} SubsequencePrefix<T>(xs: seq<T>, ys: seq<T>, n: nat)
    requires IsSubsequence(xs, ys) && n <= |xs|
    ensures IsSubsequence(xs[..n], ys)
    decreases |ys|
  {
    if n == 0 {
    } else if xs[0] == ys[0] && IsSubsequence(xs[1..], ys[1..]) {
      SubsequencePrefix(xs[1..], ys[1..], n - 1);
      assert xs[..n][1..] == xs[1..][..n - 1];
    } else {
      SubsequencePrefix(xs, ys[1..], n);
    }
  }

  /** The matches keep the data's order: they are a subsequence of it. */
  lemma {:induction false} MatchesIsSubsequence(data: seq<string>, q: string)
    ensures IsSubsequence(Matches(data, q), data)
    decreases |data|
  {
    if data != [] {
      MatchesIsSubsequence(data[1..], q);
      var m := Matches(data, q);
      if Includes(data[0], q) {
        assert m[0] == data[0] && m[1..] == Matches(data[1..], q);
      }
    }
  }

  /** Each item of the data appears among the matches as often as in the data if it matches, and not at all otherwise. */
  lemma {:induction false} MatchesCounts(data: seq<string>, q: string)
    ensures forall s :: multiset(Matches(data, q))[s] == if Includes(s, q) then multiset(data)[s] else 0
    decreases |data|
  {
    if data != [] {
      MatchesCounts(data[1..], q);
      assert data == [data[0]] + data[1..];
    }
  }

  /**
   * Matches is the only subsequence of the data that holds every matching
   * occurrence and nothing else.
   */
  lemma {:induction false} MatchesUnique(data: seq<string>, q: string, r: seq<string>)
    requires IsSubsequence(r, data)
    requires forall s :: multiset(r)[s] == if Includes(s, q) then multiset(data)[s] else 0
    ensures r == Matches(data, q)
    decreases |data|
  {
    if data == [] {
    } else {
      var d, rest := data[0], data[1..];
      assert data == [d] + rest;
      if r != [] && r[0] == d && IsSubsequence(r[1..], rest) {
        assert r == [d] + r[1..];
        assert multiset(r)[d] >= 1;
        assert Includes(d, q);
        forall s ensures multiset(r[1..])[s] == if Includes(s, q) then multiset(rest)[s] else 0 {
          assert multiset(r)[s] == multiset(r[1..])[s] + (if s == d then 1 else 0);
          assert multiset(data)[s] == multiset(rest)[s] + (if s == d then 1 else 0);
        }
        MatchesUnique(rest, q, r[1..]);
      } else if r == [] {
        forall s ensures multiset(r)[s] == if Includes(s, q) then multiset(rest)[s] else 0 {
          assert multiset(data)[s] == multiset(rest)[s] + (if s == d then 1 else 0);
        }
        assert !Includes(d, q) by {
          assert multiset(r)[d] == 0;
        }
        MatchesUnique(rest, q, r);
      } else {
        assert IsSubsequence(r, rest);
        SubsequenceMultiset(r, rest);
        assert !Includes(d, q);
        forall s ensures multiset(r)[s] == if Includes(s, q) then multiset(rest)[s] else 0 {
          assert multiset(data)[s] == multiset(rest)[s] + (if s == d then 1 else 0);
        }
        MatchesUnique(rest, q, r);
      }
    }
  }

  /** An item that contains the query (in particular, one that starts with it) is never filtered out. */
  lemma {:induction false} MatchingItemIsCandidate(data: seq<string>, q: string, i: nat)
    requires i < |data| && Includes(data[i], q)
    ensures data[i] in Matches(data, q)
    decreases |data|
  {
    if i > 0 {
      MatchingItemIsCandidate(data[1..], q, i - 1);
    }
  }

  /** Filtering a concatenation filters each part. */
  lemma {:induction false} MatchesAppend(a: seq<string>, b: seq<string>, q: string)
    ensures Matches(a + b, q) == Matches(a, q) + Matches(b, q)
    decreases |a|
  {
    if a != [] {
      MatchesAppend(a[1..], b, q);
      assert (a + b)[0] == a[0];
      assert (a + b)[1..] == a[1..] + b;
      if Includes(a[0], q) {
        assert Matches(a + b, q) == [a[0]] + Matches(a[1..] + b, q);
      }
    } else {
      assert a + b == b;
    }
  }

  /** The suggestions are drawn from the data, in data order. */
  lemma FilterIsSubsequence(data: seq<string>, q: string)
    ensures IsSubsequence(Filter(data, q), data)
    ensures forall s :: s in Filter(data, q) ==> s in data
  {
    var m := Matches(data, q);
    MatchesIsSubsequence(data, q);
    SubsequencePrefix(m, data, |Filter(data, q)|);
    assert Filter(data, q) == m[..|Filter(data, q)|];
    SubsequenceMultiset(Filter(data, q), data);
    forall s | s in Filter(data, q) ensures s in data {
      assert s in multiset(Filter(data, q));
    }
  }

  /**
   * Once a prefix of the data already holds five matches, nothing after it can
   * change the suggestions: they are the earliest matches.
   */
  lemma FilterIgnoresLaterData(a: seq<string>, b: seq<string>, q: string)
    requires |Matches(a, q)| >= MaxSearchListSize
    ensures Filter(a + b, q) == Filter(a, q)
  {
    MatchesAppend(a, b, q);
    assert (Matches(a, q) + Matches(b, q))[..MaxSearchListSize] == Matches(a, q)[..MaxSearchListSize];
  }

  /** With at most five matches every matching item is suggested. */
  lemma FewMatchesAllShown(data: seq<string>, q: string, i: nat)
    requires i < |data| && Includes(data[i], q)
    requires |Matches(data, q)| <= MaxSearchListSize
    ensures data[i] in Filter(data, q)
  {
    MatchingItemIsCandidate(data, q, i);
  }

  /**
   * Matching is case-sensitive and anywhere in the text: typing "D" keeps
   * "Moby Dick" as well as the titles that start with "D".
   */
  lemma CapitalInsideTitleMatches()
    ensures Filter(["Moby Dick", "Dune", "Dracula"], "D") == ["Moby Dick", "Dune", "Dracula"]
  {
  }

  /**
   * `addFilteredData`: appends one list entry per suggestion to the list, in
   * suggestion order, and returns the list.
   */
  method AddFilteredData(list: seq<string>, data: seq<string>, currentContent: string) returns (r: seq<string>)
    ensures r == list + Filter(data, currentContent)
    ensures |r| <= |list| + MaxSearchListSize
    ensures forall k :: |list| <= k < |r| ==> Includes(r[k], currentContent)
  {
    var filteredList := Filter(data, currentContent);
    r := list;
    for i := 0 to |filteredList|
      invariant r == list + filteredList[..i]
    {
      r := r + [filteredList[i]];
    }
    assert filteredList[..|filteredList|] == filteredList;
    forall k | |list| <= k < |r| ensures Includes(r[k], currentContent) {
      assert r[k] == filteredList[k - |list|];
      assert r[k] in filteredList;
    }
  }
}
