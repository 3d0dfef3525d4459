/** A solved puzzle as the solver sees it: the known answer word and the
    feedback rows in the order they were guessed, with the three helpers
    that read letters off the answer. */
module Answer {
  import opened Feedback

  datatype Input = Input(solution: string, guesses: seq<Guess>)

  /** The characters of `s` collected into a set, left to right. */
  function CharSet(s: string): set<char>
  {
    if |s| == 0 then {} else CharSet(s[..|s| - 1]) + {s[|s| - 1]}
  }

  /** The answer characters at positions of `s` other than `idx`, collected
      over the enumerated positions of `s`. */
  function OtherChars(s: string, idx: nat): set<char>
  {
    if |s| == 0 then {}
    else OtherChars(s[..|s| - 1], idx) + (if |s| - 1 == idx then {} else {s[|s| - 1]})
  }

  /** Every character of the answer. */
  function AllLetters(input: Input): set<char>
  {
    CharSet(input.solution)
  }

  /** The answer characters found at some position other than `idx`. */
  function OtherLetters(input: Input, idx: nat): set<char>
  {
    OtherChars(input.solution, idx)
  }

  /** The answer character at `idx`; reading past the end of the answer
      panics, so callers must stay inside it. */
  function Letter(input: Input, idx: nat): (r: char)
    requires idx < |input.solution|
    ensures r in AllLetters(input)
    ensures AllLetters(input) == OtherLetters(input, idx) + {r}
  {
    LetterSets(input, idx);
    input.solution[idx]
  }

  /** A character is collected exactly when it occurs in the string. */
  lemma {:induction false} CharSetMembers(s: string, c: char)
    ensures c in CharSet(s) <==> c in s
    decreases |s|
  {
    if |s| != 0 {
      CharSetMembers(s[..|s| - 1], c);
      assert s == s[..|s| - 1] + [s[|s| - 1]];
    }
  }

  /** A character is collected exactly when it occurs at a position other
      than `idx`. */
  lemma {:induction false} OtherCharsMembers(s: string, idx: nat, c: char)
    ensures c in OtherChars(s, idx) <==> exists i :: 0 <= i < |s| && i != idx && s[i] == c
    decreases |s|
  {
    if |s| != 0 {
      var init := s[..|s| - 1];
      OtherCharsMembers(init, idx, c);
      if c in OtherChars(s, idx) && c !in OtherChars(init, idx) {
        assert s[|s| - 1] == c;
      }
      if exists i :: 0 <= i < |s| && i != idx && s[i] == c {
        var i :| 0 <= i < |s| && i != idx && s[i] == c;
        if i < |s| - 1 {
          assert init[i] == c;
        }
      }
    }
  }

  /** The answer letters are exactly the characters of the answer. */
  lemma AllLettersMembers(input: Input, c: char)
    ensures c in AllLetters(input) <==> exists i :: 0 <= i < |input.solution| && input.solution[i] == c
  {
    CharSetMembers(input.solution, c);
  }

  /** The other letters are the answer characters at positions other than
      `idx`; they are among all letters, and an index past the end of the
      answer excludes nothing. */
  lemma OtherLettersMembers(input: Input, idx: nat, c: char)
    ensures c in OtherLetters(input, idx) <==>
      exists i :: 0 <= i < |input.solution| && i != idx && input.solution[i] == c
    ensures c in OtherLetters(input, idx) ==> c in AllLetters(input)
    ensures idx >= |input.solution| ==> (c in OtherLetters(input, idx) <==> c in AllLetters(input))
  {
    OtherCharsMembers(input.solution, idx, c);
    AllLettersMembers(input, c);
  }

  /** All letters split into the letter at `idx` and the other letters. */
  lemma LetterSets(input: Input, idx: nat)
    requires idx < |input.solution|
    ensures input.solution[idx] in AllLetters(input)
    ensures AllLetters(input) == OtherLetters(input, idx) + {input.solution[idx]}
  {
    AllLettersMembers(input, input.solution[idx]);
    forall c
      ensures c in AllLetters(input) <==> c in OtherLetters(input, idx) + {input.solution[idx]}
    {
      AllLettersMembers(input, c);
      OtherLettersMembers(input, idx, c);
    }
  }
}
