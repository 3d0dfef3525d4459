/** Worked transcripts for the answer CRANE. */
module Scenarios {
  import opened Feedback
  import opened Answer
  import opened Filter
  import opened Builder
  import opened Search

  const Crane: string := "CRANE"

  /** A grid row drawn with one stray letter in it is refused, naming the letter. */
  lemma StrayLetterRefused()
    ensures FromEmoji([GreenSquare, 'x', BlackSquare]) == Err(UnknownEmoji('x'))
  {
  }

  /** Filtering a three-word list, word by word. */
  lemma FindThree(a: string, b: string, c: string, cs: seq<PossibleLetters>)
    ensures Find([a, b, c], cs) ==
      (if ZipAll(cs, a) then [a] else []) + (if ZipAll(cs, b) then [b] else []) + (if ZipAll(cs, c) then [c] else [])
  {
    assert [a, b, c][..2] == [a, b];
    assert [a, b][..1] == [a];
    assert [a][..0] == [];
    assert Find([a], cs) == (if ZipAll(cs, a) then [a] else []);
    assert Find([a, b], cs) == Find([a], cs) + (if ZipAll(cs, b) then [b] else []);
    assert Find([a, b, c], cs) == Find([a, b], cs) + (if ZipAll(cs, c) then [c] else []);
  }

  const CraneLetters: set<char> := {'C', 'R', 'A', 'N', 'E'}

  lemma CraneAllLetters(rows: seq<Guess>)
    ensures AllLetters(Input(Crane, rows)) == CraneLetters
  {
    forall c ensures c in AllLetters(Input(Crane, rows)) <==> c in CraneLetters {
      CharSetMembers(Crane, c);
    }
  }

  const GreenThenGrey: Guess := Guess([Green, Grey, Grey, Grey, Grey])

  /** C is fixed at the start and every later position must avoid CRANE's letters. */
  lemma GreenThenGreyConstraints()
    ensures Constraints(Input(Crane, [GreenThenGrey]), GreenThenGrey, {}) ==
      [Exact('C'), Not(CraneLetters), Not(CraneLetters), Not(CraneLetters), Not(CraneLetters)]
  {
    var input := Input(Crane, [GreenThenGrey]);
    var cs := Constraints(input, GreenThenGrey, {});
    CraneAllLetters([GreenThenGrey]);
    assert AllLetters(input) + {} == CraneLetters;
    assert cs[0] == Exact('C');
    forall i | 1 <= i < 5 ensures cs[i] == Not(CraneLetters) {
      assert GreenThenGrey.letters[i] == Grey;
    }
  }

  /** Of CRANE, CRATE, CHESS and CLIPS only CLIPS survives that row. */
  lemma GreenThenGreyFind()
    ensures NaiveReverdle(Input(Crane, [GreenThenGrey]), ["CRANE", "CRATE", "CHESS", "CLIPS"]) == ["CLIPS"]
  {
    var cs := Constraints(Input(Crane, [GreenThenGrey]), GreenThenGrey, {});
    GreenThenGreyConstraints();
    assert !ZipAll(cs, "CRANE") by { assert !Allows(cs[1], 'R'); }
    assert !ZipAll(cs, "CRATE") by { assert !Allows(cs[1], 'R'); }
    assert !ZipAll(cs, "CHESS") by { assert !Allows(cs[2], 'E'); ZipAllFits(cs, "CHESS"); }
    assert ZipAll(cs, "CLIPS") by { ZipAllFits(cs, "CLIPS"); }
    FindThree("CRANE", "CRATE", "CHESS", cs);
    assert ["CRANE", "CRATE", "CHESS", "CLIPS"][..3] == ["CRANE", "CRATE", "CHESS"];
  }

  /** Three rows for CRANE: a yellow C then grey, four greens then a grey,
      and the solving row. */
  const Transcript: Input :=
    Input(Crane, [Guess([Yellow, Grey, Grey, Grey, Grey]),
                  Guess([Green, Green, Green, Green, Grey]),
                  Guess([Green, Green, Green, Green, Green])])

  const Words: seq<string> := ["CRANK", "ROUTS", "EMPTY"]

  lemma SecondRowConstraints()
    ensures Constraints(Transcript, Transcript.guesses[1], {}) ==
      [Exact('C'), Exact('R'), Exact('A'), Exact('N'), Not(CraneLetters)]
  {
    var cs := Constraints(Transcript, Transcript.guesses[1], {});
    CraneAllLetters(Transcript.guesses);
    assert AllLetters(Transcript) + {} == CraneLetters;
    assert cs[4] == Not(CraneLetters);
  }

  /** The second row leaves only CRANK. */
  lemma SecondRowCandidates()
    ensures RowsFit(Transcript, 1)
    ensures RowCandidates(Transcript, Words, 1, {}) == ["CRANK"]
  {
    var cs := Constraints(Transcript, Transcript.guesses[1], {});
    SecondRowConstraints();
    assert ZipAll(cs, "CRANK") by { ZipAllFits(cs, "CRANK"); }
    assert !ZipAll(cs, "ROUTS") by { assert !Allows(cs[0], 'R'); }
    assert !ZipAll(cs, "EMPTY") by { assert !Allows(cs[0], 'E'); }
    FindThree("CRANK", "ROUTS", "EMPTY", cs);
  }

  /** Other letters than the first of CRANE. */
  lemma CraneOtherLetters(rows: seq<Guess>)
    ensures OtherLetters(Input(Crane, rows), 0) == {'R', 'A', 'N', 'E'}
  {
    forall c ensures c in OtherLetters(Input(Crane, rows), 0) <==> c in {'R', 'A', 'N', 'E'} {
      OtherLettersMembers(Input(Crane, rows), 0, c);
      if c in {'R', 'A', 'N', 'E'} {
        assert Crane[1] == 'R' && Crane[2] == 'A' && Crane[3] == 'N' && Crane[4] == 'E';
      }
    }
  }

  lemma FirstRowConstraints(bad: set<char>)
    ensures Constraints(Transcript, Transcript.guesses[0], bad) == FirstRowWithBad(bad)
  {
    var cs := Constraints(Transcript, Transcript.guesses[0], bad);
    CraneAllLetters(Transcript.guesses);
    CraneOtherLetters(Transcript.guesses);
    assert cs[0] == Possible({'R', 'A', 'N', 'E'} - bad);
    forall i | 1 <= i < 5 ensures cs[i] == Not(CraneLetters + bad) {
      assert Transcript.guesses[0].letters[i] == Grey;
    }
  }

  /** The first row's constraints under bad letters `bad`, written out. */
  function FirstRowWithBad(bad: set<char>): seq<PossibleLetters>
  {
    [Possible({'R', 'A', 'N', 'E'} - bad), Not(CraneLetters + bad), Not(CraneLetters + bad),
     Not(CraneLetters + bad), Not(CraneLetters + bad)]
  }

  lemma NoBadFilter()
    ensures Find(Words, FirstRowWithBad({})) == ["ROUTS", "EMPTY"]
  {
    var cs := FirstRowWithBad({});
    assert {'R', 'A', 'N', 'E'} - {} == {'R', 'A', 'N', 'E'};
    assert CraneLetters + {} == CraneLetters;
    assert !ZipAll(cs, "CRANK") by { assert !Allows(cs[0], 'C'); }
    assert ZipAll(cs, "ROUTS") by { ZipAllFits(cs, "ROUTS"); }
    assert ZipAll(cs, "EMPTY") by { ZipAllFits(cs, "EMPTY"); }
    FindThree("CRANK", "ROUTS", "EMPTY", cs);
  }

  /** On its own the first row admits ROUTS and EMPTY. */
  lemma FirstRowAlone()
    ensures NaiveReverdle(Transcript, Words) == ["ROUTS", "EMPTY"]
  {
    FirstRowConstraints({});
    NoBadFilter();
  }

  lemma CrankLetters()
    ensures CharSet("CRANK") == {'C', 'R', 'A', 'N', 'K'}
  {
    forall c ensures c in CharSet("CRANK") <==> c in {'C', 'R', 'A', 'N', 'K'} {
      CharSetMembers("CRANK", c);
    }
  }

  lemma CrankBadFilter()
    ensures Find(Words, FirstRowWithBad({'C', 'R', 'A', 'N', 'K'})) == ["EMPTY"]
  {
    var cs := FirstRowWithBad({'C', 'R', 'A', 'N', 'K'});
    assert {'R', 'A', 'N', 'E'} - {'C', 'R', 'A', 'N', 'K'} == {'E'};
    assert !ZipAll(cs, "CRANK") by { assert !Allows(cs[0], 'C'); }
    assert !ZipAll(cs, "ROUTS") by { assert !Allows(cs[0], 'R'); }
    assert ZipAll(cs, "EMPTY") by { ZipAllFits(cs, "EMPTY"); }
    FindThree("CRANK", "ROUTS", "EMPTY", cs);
  }

  /** After CRANK is chosen for the second row its letters are bad, which
      leaves only E for the yellow tile: ROUTS drops out. */
  lemma FirstRowAfterCrank()
    ensures RowCandidates(Transcript, Words, 0, CharSet("CRANK")) == ["EMPTY"]
  {
    CrankLetters();
    FirstRowConstraints({'C', 'R', 'A', 'N', 'K'});
    CrankBadFilter();
  }

  /** The recursive solver keeps EMPTY only, a strict part of the naive answer. */
  lemma RecursiveNarrowsNaive()
    ensures Reverdle(Transcript, Words) == {"EMPTY"}
  {
    SecondRowCandidates();
    FirstRowAfterCrank();
    var bad := CharSet("CRANK");
    assert Recurse(Transcript, Words, 0, bad) == {"EMPTY"};
    assert Branches(Transcript, Words, 0, {}, ["CRANK"]) == Branches(Transcript, Words, 0, {}, []) + Recurse(Transcript, Words, 0, {} + bad);
    assert {} + bad == bad;
  }
}
