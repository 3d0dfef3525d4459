/** The two solvers: the naive one that reads only the first row, and the
    recursive one that works from the second-to-last row back to the first,
    carrying the letters of the words it chose for later rows as bad
    letters for earlier ones. */
module Search {
  import opened Feedback
  import opened Answer
  import opened Filter
  import opened Builder

  /** Row `level` exists and it and every earlier row fit the answer. */
  predicate RowsFit(input: Input, level: nat)
  {
    level < |input.guesses| && forall k :: 0 <= k <= level ==> RowFits(input, input.guesses[k])
  }

  /** The candidates for row `level` under bad letters `bad`. */
  function RowCandidates(input: Input, dict: seq<string>, level: nat, bad: set<char>): seq<string>
    requires RowsFit(input, level)
  {
    Find(dict, Constraints(input, input.guesses[level], bad))
  }

  /** The naive solver: the dictionary filtered by the first row alone. */
  function NaiveReverdle(input: Input, dict: seq<string>): (found: seq<string>)
    requires |input.guesses| >= 1
    requires RowFits(input, input.guesses[0])
    ensures found == Find(dict, Constraints(input, input.guesses[0], {}))
  {
    NaiveIsEmptyBad(input, input.guesses[0]);
    Find(dict, NaiveConstraints(input, input.guesses[0]))
  }

  /** The recursive search from row `level` down to the first row. */
  function Recurse(input: Input, dict: seq<string>, level: nat, bad: set<char>): (r: set<string>)
    requires RowsFit(input, level)
    decreases level, 0
  {
    var found := RowCandidates(input, dict, level, bad);
    if level == 0 then set w | w in found
    else Branches(input, dict, level - 1, bad, found)
  }

  /** The union, over the candidate words of one row, of the searches one
      row earlier with that word's letters added to the bad set. */
  function Branches(input: Input, dict: seq<string>, level: nat, bad: set<char>, words: seq<string>): (r: set<string>)
    requires RowsFit(input, level)
    decreases level, 1, |words|
  {
    if |words| == 0 then {}
    else
      var word := words[|words| - 1];
      Branches(input, dict, level, bad, words[..|words| - 1]) + Recurse(input, dict, level, bad + CharSet(word))
  }

  /** The recursive solver: starts at the second-to-last row with no bad
      letters (the last row is the answer itself). */
  function Reverdle(input: Input, dict: seq<string>): (r: set<string>)
    requires |input.guesses| >= 2
    requires RowsFit(input, |input.guesses| - 2)
    ensures forall x :: x in r ==> x in NaiveReverdle(input, dict)
  {
    var level := |input.guesses| - 2;
    forall x | x in Recurse(input, dict, level, {})
      ensures x in NaiveReverdle(input, dict)
    {
      RecurseWithinFirstRow(input, dict, level, {}, x);
    }
    Recurse(input, dict, level, {})
  }

  lemma {:induction false} BranchesMembership(input: Input, dict: seq<string>, level: nat, bad: set<char>, words: seq<string>, x: string)
    requires RowsFit(input, level)
    ensures x in Branches(input, dict, level, bad, words) <==>
      exists w :: w in words && x in Recurse(input, dict, level, bad + CharSet(w))
    decreases |words|
  {
    if |words| != 0 {
      var init := words[..|words| - 1];
      var last := words[|words| - 1];
      BranchesMembership(input, dict, level, bad, init, x);
      assert words == init + [last];
      if x in Branches(input, dict, level, bad, words) {
        if x in Branches(input, dict, level, bad, init) {
          var w :| w in init && x in Recurse(input, dict, level, bad + CharSet(w));
          assert w in words;
        } else {
          assert last in words && x in Recurse(input, dict, level, bad + CharSet(last));
        }
      }
      if exists w :: w in words && x in Recurse(input, dict, level, bad + CharSet(w)) {
        var w :| w in words && x in Recurse(input, dict, level, bad + CharSet(w));
        if w != last {
          assert w in init;
        }
      }
    }
  }

  /** At the first row a word is returned exactly when it is in the
      dictionary and every tile of the first row it reaches admits its
      letter there: a green tile the answer letter, a yellow tile a letter
      that is not bad and occurs in the answer at another position, a grey
      tile a letter that is neither bad nor in the answer. */
  lemma RecurseBase(input: Input, dict: seq<string>, bad: set<char>, x: string)
    requires RowsFit(input, 0)
    ensures x in Recurse(input, dict, 0, bad) <==>
      x in dict && forall i {:trigger x[i]} :: 0 <= i < |input.guesses[0].letters| && i < |x| ==>
        match input.guesses[0].letters[i]
        case Green => x[i] == input.solution[i]
        case Yellow => x[i] !in bad && exists j :: 0 <= j < |input.solution| && j != i && input.solution[j] == x[i]
        case Grey => x[i] !in bad && x[i] !in input.solution
  {
    var g := input.guesses[0];
    var cs := Constraints(input, g, bad);
    assert x in Recurse(input, dict, 0, bad) <==> x in Find(dict, cs);
    FindPositions(dict, cs, x);
    forall i | 0 <= i < |g.letters| && i < |x|
      ensures Allows(cs[i], x[i]) <==>
        match g.letters[i]
        case Green => x[i] == input.solution[i]
        case Yellow => x[i] !in bad && exists j :: 0 <= j < |input.solution| && j != i && input.solution[j] == x[i]
        case Grey => x[i] !in bad && x[i] !in input.solution
    {
      ConstraintMeaning(input, g, bad, i, x[i]);
    }
  }

  /** Above the first row a word is returned exactly when some candidate of
      the current row leads to it one row earlier, with that candidate's
      letters added to the bad set. */
  lemma {:induction false} RecurseStep(input: Input, dict: seq<string>, level: nat, bad: set<char>, x: string)
    requires RowsFit(input, level)
    requires level > 0
    ensures x in Recurse(input, dict, level, bad) <==>
      exists w :: w in RowCandidates(input, dict, level, bad) && x in Recurse(input, dict, level - 1, bad + CharSet(w))
  {
    assert Recurse(input, dict, level, bad) == Branches(input, dict, level - 1, bad, RowCandidates(input, dict, level, bad));
    BranchesMembership(input, dict, level - 1, bad, RowCandidates(input, dict, level, bad), x);
  }

  /** Every word the search returns is a first-row candidate under the bad
      letters it started with. */
  lemma {:induction false} RecurseWithinFirstRow(input: Input, dict: seq<string>, level: nat, bad: set<char>, x: string)
    requires RowsFit(input, level)
    requires x in Recurse(input, dict, level, bad)
    ensures x in RowCandidates(input, dict, 0, bad)
    decreases level
  {
    if level > 0 {
      RecurseStep(input, dict, level, bad, x);
      var w :| w in RowCandidates(input, dict, level, bad) && x in Recurse(input, dict, level - 1, bad + CharSet(w));
      RecurseWithinFirstRow(input, dict, level - 1, bad + CharSet(w), x);
      CandidateShrinks(input, dict, input.guesses[0], bad, bad + CharSet(w), x);
    }
  }

  /** A word the search returns under the larger bad set it also returns
      under the smaller. */
  lemma {:induction false} RecurseAntitoneAt(input: Input, dict: seq<string>, level: nat, bad: set<char>, more: set<char>, x: string)
    requires RowsFit(input, level)
    requires bad <= more
    requires x in Recurse(input, dict, level, more)
    ensures x in Recurse(input, dict, level, bad)
    decreases level
  {
    if level == 0 {
      CandidateShrinks(input, dict, input.guesses[0], bad, more, x);
    } else {
      RecurseStep(input, dict, level, more, x);
      var w :| w in RowCandidates(input, dict, level, more) && x in Recurse(input, dict, level - 1, more + CharSet(w));
      CandidateShrinks(input, dict, input.guesses[level], bad, more, w);
      RecurseAntitoneAt(input, dict, level - 1, bad + CharSet(w), more + CharSet(w), x);
      RecurseStep(input, dict, level, bad, x);
    }
  }

  /** Enlarging the starting bad set can only shrink the search result. */
  lemma RecurseAntitone(input: Input, dict: seq<string>, level: nat, bad: set<char>, more: set<char>)
    requires RowsFit(input, level)
    requires bad <= more
    ensures Recurse(input, dict, level, more) <= Recurse(input, dict, level, bad)
  {
    forall x | x in Recurse(input, dict, level, more)
      ensures x in Recurse(input, dict, level, bad)
    {
      RecurseAntitoneAt(input, dict, level, bad, more, x);
    }
  }

  /** A returned word never puts a bad letter under a yellow or grey tile
      of the first row. */
  lemma {:induction false} RecurseAvoidsBad(input: Input, dict: seq<string>, level: nat, bad: set<char>, x: string, i: nat)
    requires RowsFit(input, level)
    requires x in Recurse(input, dict, level, bad)
    requires i < |input.guesses[0].letters| && i < |x|
    requires input.guesses[0].letters[i] != Green
    ensures x[i] !in bad
  {
    var g := input.guesses[0];
    RecurseWithinFirstRow(input, dict, level, bad, x);
    FindPositions(dict, Constraints(input, g, bad), x);
    ConstraintMeaning(input, g, bad, i, x[i]);
  }

  /** The recursive search as the source runs it: filter the row, then loop
      over its candidates, extending the bad set letter by letter and
      accumulating the results of the searches one row earlier. */
  method RecurseLoop(input: Input, dict: seq<string>, level: nat, bad: set<char>) returns (r: set<string>)
    requires RowsFit(input, level)
    ensures r == Recurse(input, dict, level, bad)
    decreases level
  {
    var found := FindLoop(dict, Constraints(input, input.guesses[level], bad));
    if level == 0 {
      return set w | w in found;
    }
    var newSet: set<string> := {};
    var k := 0;
    while k < |found|
      invariant 0 <= k <= |found|
      invariant newSet == Branches(input, dict, level - 1, bad, found[..k])
    {
      var word := found[k];
      var newBad := bad;
      var j := 0;
      while j < |word|
        invariant 0 <= j <= |word|
        invariant newBad == bad + CharSet(word[..j])
      {
        assert word[..j + 1][..j] == word[..j];
        newBad := newBad + {word[j]};
        j := j + 1;
      }
      assert word[..j] == word;
      var sub := RecurseLoop(input, dict, level - 1, newBad);
      assert found[..k + 1][..k] == found[..k];
      newSet := newSet + sub;
      k := k + 1;
    }
    assert found[..k] == found;
    r := newSet;
  }
}
