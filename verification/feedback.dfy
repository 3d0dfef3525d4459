/** The coloured feedback of one shared result grid: one tile per letter
    position, green (right letter, right place), yellow (letter elsewhere
    in the answer) or grey (absent). Each grid row is read as a string of
    square emoji. */
module Feedback {

  datatype Colour = Green | Yellow | Grey

  /** One row of the grid, one colour per letter position, left to right. */
  datatype Guess = Guess(letters: seq<Colour>)

  /** The only way reading a row can fail: a symbol that is none of the
      three squares. The error names the offending symbol. */
  datatype ParseError = UnknownEmoji(symbol: char)

  datatype Result<+T> = Ok(value: T) | Err(error: ParseError)

  /** U+1F7E9 LARGE GREEN SQUARE */
  const GreenSquare: char := '\U{1F7E9}'
  /** U+1F7E8 LARGE YELLOW SQUARE */
  const YellowSquare: char := '\U{1F7E8}'
  /** U+2B1B BLACK LARGE SQUARE (the grey tile in dark mode) */
  const BlackSquare: char := '\U{2B1B}'

  /** The square a colour is drawn with. */
  function Symbol(c: Colour): char
  {
    match c
    case Green => GreenSquare
    case Yellow => YellowSquare
    case Grey => BlackSquare
  }

  /** Classifies one symbol of a row. */
  function FromChar(ch: char): (r: Result<Colour>)
    ensures r.Ok? <==> ch == GreenSquare || ch == YellowSquare || ch == BlackSquare
    ensures r.Ok? ==> Symbol(r.value) == ch
    ensures r.Err? ==> r.error == UnknownEmoji(ch)
  {
    if ch == GreenSquare then Ok(Green)
    else if ch == YellowSquare then Ok(Yellow)
    else if ch == BlackSquare then Ok(Grey)
    else Err(UnknownEmoji(ch))
  }

  /** The row of squares that draws a guess. */
  function Render(g: Guess): (s: string)
    ensures |s| == |g.letters|
    ensures forall i :: 0 <= i < |s| ==> FromChar(s[i]) == Ok(g.letters[i])
  {
    seq(|g.letters|, i requires 0 <= i < |g.letters| => Symbol(g.letters[i]))
  }

  /** Reads a row of squares, stopping at the first symbol that is not one
      of the three squares, as collecting an iterator of results does. */
  function FromEmoji(s: string): (r: Result<Guess>)
    ensures r.Ok? <==> forall i :: 0 <= i < |s| ==> FromChar(s[i]).Ok?
    ensures r.Ok? ==> Render(r.value) == s
    ensures r.Err? ==>
      exists k :: 0 <= k < |s| && FromChar(s[k]).Err? && r.error == UnknownEmoji(s[k])
              && forall j :: 0 <= j < k ==> FromChar(s[j]).Ok?
  {
    if |s| == 0 then Ok(Guess([]))
    else
      match FromChar(s[0])
      case Err(e) => Err(e)
      case Ok(c) =>
        match FromEmoji(s[1..])
        case Err(e) =>
          ghost var k :| 0 <= k < |s[1..]| && FromChar(s[1..][k]).Err? && e == UnknownEmoji(s[1..][k])
                        && forall j :: 0 <= j < k ==> FromChar(s[1..][j]).Ok?;
          assert FromChar(s[k + 1]).Err? && forall j :: 0 <= j < k + 1 ==> FromChar(s[j]).Ok? by {
            forall j | 0 <= j < k + 1 ensures FromChar(s[j]).Ok? {
              if j > 0 { assert s[j] == s[1..][j - 1]; }
            }
          }
          Err(e)
        case Ok(g) =>
          assert Render(Guess([c] + g.letters)) == [s[0]] + Render(g);
          Ok(Guess([c] + g.letters))
  }

  /** Drawing a guess and reading the drawing back gives the guess. */
  lemma {:induction false} RenderRoundTrip(g: Guess)
    ensures FromEmoji(Render(g)) == Ok(g)
  {
    var s := Render(g);
    var r := FromEmoji(s);
    assert r.Ok?;
    var t := Render(r.value);
    assert |r.value.letters| == |g.letters|;
    forall i | 0 <= i < |g.letters|
      ensures r.value.letters[i] == g.letters[i]
    {
      assert FromChar(t[i]) == Ok(r.value.letters[i]);
    }
    assert r.value.letters == g.letters;
  }
}
