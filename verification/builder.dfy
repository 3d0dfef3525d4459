/** Turning one feedback row into one letter constraint per position,
    given the answer and the letters already ruled out by later rows. */
module Builder {
  import opened Feedback
  import opened Answer
  import opened Filter

  /** Every green tile of the row lies inside the answer, so reading the
      answer letter under it does not panic. */
  predicate RowFits(input: Input, g: Guess)
  {
    forall i :: 0 <= i < |g.letters| && g.letters[i] == Green ==> i < |input.solution|
  }

  /** The constraints the naive solver builds for its single row. */
  function NaiveConstraints(input: Input, g: Guess): (cs: seq<PossibleLetters>)
    requires RowFits(input, g)
    ensures |cs| == |g.letters|
  {
    seq(|g.letters|, idx requires 0 <= idx < |g.letters| && RowFits(input, g) =>
      match g.letters[idx]
      case Green => Exact(Letter(input, idx))
      case Yellow => Possible(OtherLetters(input, idx))
      case Grey => Not(AllLetters(input)))
  }

  /** The constraints the recursive solver builds for a row, with `bad` the
      letters of the words already chosen for later rows. */
  function Constraints(input: Input, g: Guess, bad: set<char>): (cs: seq<PossibleLetters>)
    requires RowFits(input, g)
    ensures |cs| == |g.letters|
  {
    seq(|g.letters|, idx requires 0 <= idx < |g.letters| && RowFits(input, g) =>
      match g.letters[idx]
      case Green => Exact(Letter(input, idx))
      case Yellow => Possible(OtherLetters(input, idx) - bad)
      case Grey => Not(AllLetters(input) + bad))
  }

  /** What a position's constraint admits, in terms of the answer: a green
      tile admits only the answer letter under it, a yellow tile any answer
      letter found at another position that is not bad, a grey tile any
      letter that is neither in the answer nor bad. */
  lemma ConstraintMeaning(input: Input, g: Guess, bad: set<char>, i: nat, c: char)
    requires RowFits(input, g)
    requires i < |g.letters|
    ensures Allows(Constraints(input, g, bad)[i], c) <==>
      match g.letters[i]
      case Green => c == input.solution[i]
      case Yellow => c !in bad && exists j :: 0 <= j < |input.solution| && j != i && input.solution[j] == c
      case Grey => c !in bad && c !in input.solution
  {
    match g.letters[i]
    case Green =>
    case Yellow => OtherLettersMembers(input, i, c);
    case Grey => CharSetMembers(input.solution, c);
  }

  /** With no bad letters the recursive builder builds what the naive one does. */
  lemma NaiveIsEmptyBad(input: Input, g: Guess)
    requires RowFits(input, g)
    ensures NaiveConstraints(input, g) == Constraints(input, g, {})
  {
    var n := NaiveConstraints(input, g);
    var r := Constraints(input, g, {});
    forall i | 0 <= i < |g.letters|
      ensures n[i] == r[i]
    {
      assert OtherLetters(input, i) - {} == OtherLetters(input, i);
      assert AllLetters(input) + {} == AllLetters(input);
    }
  }

  /** More bad letters give constraints that admit fewer words: yellow sets
      shrink, grey sets grow, green letters stay. */
  lemma ConstraintsAntitone(input: Input, g: Guess, bad: set<char>, more: set<char>)
    requires RowFits(input, g)
    requires bad <= more
    ensures Refines(Constraints(input, g, more), Constraints(input, g, bad))
  {
    var strong := Constraints(input, g, more);
    var weak := Constraints(input, g, bad);
    forall w | ZipAll(strong, w)
      ensures ZipAll(weak, w)
    {
      ZipAllFits(strong, w);
      ZipAllFits(weak, w);
      forall i | 0 <= i < |weak| && i < |w|
        ensures Allows(weak[i], w[i])
      {
        assert Allows(strong[i], w[i]);
      }
    }
  }

  /** Enlarging the bad set can only drop words from a row's candidates,
      and the survivors keep their order. */
  lemma FindShrinks(input: Input, dict: seq<string>, g: Guess, bad: set<char>, more: set<char>)
    requires RowFits(input, g)
    requires bad <= more
    ensures Find(dict, Constraints(input, g, more)) ==
            Find(Find(dict, Constraints(input, g, bad)), Constraints(input, g, more))
    ensures Subsequence(Find(dict, Constraints(input, g, more)), Find(dict, Constraints(input, g, bad)))
  {
    ConstraintsAntitone(input, g, bad, more);
    FindRefines(dict, Constraints(input, g, bad), Constraints(input, g, more));
    FindSubsequence(Find(dict, Constraints(input, g, bad)), Constraints(input, g, more));
  }

  /** A word that is a candidate under the larger bad set is one under the
      smaller. */
  lemma CandidateShrinks(input: Input, dict: seq<string>, g: Guess, bad: set<char>, more: set<char>, x: string)
    requires RowFits(input, g)
    requires bad <= more
    requires x in Find(dict, Constraints(input, g, more))
    ensures x in Find(dict, Constraints(input, g, bad))
  {
    ConstraintsAntitone(input, g, bad, more);
    FindMembership(dict, Constraints(input, g, more), x);
    FindMembership(dict, Constraints(input, g, bad), x);
  }
}
