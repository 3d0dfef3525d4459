/** Per-position letter constraints and the dictionary filter that keeps
    the words satisfying them. */
module Filter {

  /** What one letter position of a candidate word may hold. */
  datatype PossibleLetters =
    | Any
    | Exact(letter: char)
    | Possible(chars: set<char>)
    | Not(chars: set<char>)

  /** Whether letter `c` passes constraint `p`. */
  predicate Allows(p: PossibleLetters, c: char)
  {
    match p
    case Any => true
    case Exact(o) => c == o
    case Possible(s) => c in s
    case Not(s) => c !in s
  }

  /** Constraints and word letters zipped pairwise and all checked; zipping
      stops at the end of the shorter of the two. */
  predicate ZipAll(cs: seq<PossibleLetters>, word: string)
    decreases |cs|
  {
    |cs| == 0 || |word| == 0 || (Allows(cs[0], word[0]) && ZipAll(cs[1..], word[1..]))
  }

  /** Reference reading of a match: every position both sides have passes. */
  ghost predicate Fits(cs: seq<PossibleLetters>, word: string)
  {
    forall i :: 0 <= i < |cs| && i < |word| ==> Allows(cs[i], word[i])
  }

  lemma {:induction false} ZipAllFits(cs: seq<PossibleLetters>, word: string)
    ensures ZipAll(cs, word) <==> Fits(cs, word)
    decreases |cs|
  {
    if |cs| != 0 && |word| != 0 {
      ZipAllFits(cs[1..], word[1..]);
      if Fits(cs, word) {
        forall i | 0 <= i < |cs[1..]| && i < |word[1..]|
          ensures Allows(cs[1..][i], word[1..][i])
        {
          assert Allows(cs[i + 1], word[i + 1]);
        }
      }
      if ZipAll(cs, word) {
        forall i | 0 <= i < |cs| && i < |word|
          ensures Allows(cs[i], word[i])
        {
          if i > 0 {
            assert Allows(cs[1..][i - 1], word[1..][i - 1]);
          }
        }
      }
    }
  }

  /** The dictionary words matching `cs`, pushed in dictionary order. */
  function Find(dict: seq<string>, cs: seq<PossibleLetters>): (found: seq<string>)
    ensures |found| <= |dict|
  {
    if |dict| == 0 then []
    else
      var last := dict[|dict| - 1];
      assert dict == dict[..|dict| - 1] + [last];
      Find(dict[..|dict| - 1], cs) + (if ZipAll(cs, last) then [last] else [])
  }

  /** The loop that fills the result vector, one dictionary word at a time. */
  method FindLoop(dict: seq<string>, cs: seq<PossibleLetters>) returns (found: seq<string>)
    ensures found == Find(dict, cs)
  {
    found := [];
    var k := 0;
    while k < |dict|
      invariant 0 <= k <= |dict|
      invariant found == Find(dict[..k], cs)
    {
      var word := dict[k];
      assert dict[..k + 1][..k] == dict[..k];
      if ZipAll(cs, word) {
        found := found + [word];
      }
      k := k + 1;
    }
    assert dict[..k] == dict;
  }

  /** A word is found exactly when it is in the dictionary and matches. */
  lemma {:induction false} FindMembership(dict: seq<string>, cs: seq<PossibleLetters>, w: string)
    ensures w in Find(dict, cs) <==> w in dict && ZipAll(cs, w)
    decreases |dict|
  {
    if |dict| != 0 {
      var init := dict[..|dict| - 1];
      FindMembership(init, cs, w);
      assert dict == init + [dict[|dict| - 1]];
    }
  }

  /** The same, position by position: every position present in both the
      constraints and the word passes. */
  lemma FindPositions(dict: seq<string>, cs: seq<PossibleLetters>, w: string)
    ensures w in Find(dict, cs) <==>
      w in dict && forall i :: 0 <= i < |cs| && i < |w| ==> Allows(cs[i], w[i])
  {
    FindMembership(dict, cs, w);
    ZipAllFits(cs, w);
  }

  /** Filtering a concatenation filters each part and keeps them in order. */
  lemma {:induction false} FindAppend(a: seq<string>, b: seq<string>, cs: seq<PossibleLetters>)
    ensures Find(a + b, cs) == Find(a, cs) + Find(b, cs)
    decreases |b|
  {
    if |b| == 0 {
      assert a + b == a;
    } else {
      var b' := b[..|b| - 1];
      assert (a + b)[..|a + b| - 1] == a + b';
      FindAppend(a, b', cs);
    }
  }

  /** Each word occurs in the result as often as in the dictionary when it
      matches, and not at all otherwise: nothing is added or duplicated. */
  lemma {:induction false} FindCount(dict: seq<string>, cs: seq<PossibleLetters>, w: string)
    ensures multiset(Find(dict, cs))[w] == if ZipAll(cs, w) then multiset(dict)[w] else 0
    decreases |dict|
  {
    if |dict| != 0 {
      var init := dict[..|dict| - 1];
      assert dict == init + [dict[|dict| - 1]];
      FindCount(init, cs, w);
    }
  }

  /** `a` can be obtained from `b` by deleting elements. */
  ghost predicate Subsequence(a: seq<string>, b: seq<string>)
    decreases |b|
  {
    if |a| == 0 then true
    else if |b| == 0 then false
    else (a[|a| - 1] == b[|b| - 1] && Subsequence(a[..|a| - 1], b[..|b| - 1]))
         || Subsequence(a, b[..|b| - 1])
  }

  /** The filter only deletes words; it never reorders the dictionary. */
  lemma {:induction false} FindSubsequence(dict: seq<string>, cs: seq<PossibleLetters>)
    ensures Subsequence(Find(dict, cs), dict)
    decreases |dict|
  {
    if |dict| != 0 {
      var init := dict[..|dict| - 1];
      FindSubsequence(init, cs);
      var last := dict[|dict| - 1];
      var f := Find(dict, cs);
      if ZipAll(cs, last) {
        assert f[..|f| - 1] == Find(init, cs);
        assert f[|f| - 1] == last;
      } else {
        assert f == Find(init, cs);
        assert dict[..|dict| - 1] == init;
      }
    }
  }

  /** `strong` admits no word that `weak` rejects. */
  ghost predicate Refines(strong: seq<PossibleLetters>, weak: seq<PossibleLetters>)
  {
    forall w :: ZipAll(strong, w) ==> ZipAll(weak, w)
  }

  /** Filtering with stronger constraints after weaker ones is the same as
      filtering with the stronger ones directly. */
  lemma {:induction false} FindRefines(dict: seq<string>, weak: seq<PossibleLetters>, strong: seq<PossibleLetters>)
    requires Refines(strong, weak)
    ensures Find(Find(dict, weak), strong) == Find(dict, strong)
    decreases |dict|
  {
    if |dict| != 0 {
      var init := dict[..|dict| - 1];
      var last := dict[|dict| - 1];
      FindRefines(init, weak, strong);
      if ZipAll(weak, last) {
        FindAppend(Find(init, weak), [last], strong);
      } else {
        assert !ZipAll(strong, last);
        assert Find(dict, weak) == Find(init, weak);
        assert Find(dict, strong) == Find(init, strong);
      }
    }
  }

  /** Filtering an already filtered list with the same constraints changes nothing. */
  lemma FindIdempotent(dict: seq<string>, cs: seq<PossibleLetters>)
    ensures Find(Find(dict, cs), cs) == Find(dict, cs)
  {
    FindRefines(dict, cs, cs);
  }

  /** With every position unconstrained the whole dictionary comes back. */
  lemma {:induction false} FindAllAny(dict: seq<string>, cs: seq<PossibleLetters>)
    requires forall i :: 0 <= i < |cs| ==> cs[i] == Any
    ensures Find(dict, cs) == dict
    decreases |dict|
  {
    if |dict| != 0 {
      var last := dict[|dict| - 1];
      ZipAllFits(cs, last);
      FindAllAny(dict[..|dict| - 1], cs);
      assert dict == dict[..|dict| - 1] + [last];
    }
  }
}
