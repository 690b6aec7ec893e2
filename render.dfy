/** What the page shows of the state: one cell per character of the answered
    quote, each with its hint, and the letter keyboard. */
module Render {
  import opened GameState

  /** The content of a hint cell: a number, or a space. */
  datatype HintCell = Shown(n: int) | Space

  /** The hint shown under position `index`: the hint when it is a number;
      a space when it is not, or when the hints are shorter than the quote. */
  function HintAt(hints: seq<Hint>, index: nat): (c: HintCell)
    ensures c.Shown? <==> index < |hints| && hints[index].Number?
    ensures c.Shown? ==> c.n == hints[index].value
  {
    if index < |hints| && hints[index].Number? then Shown(hints[index].value) else Space
  }

  /** One displayed character cell. */
  datatype Cell = Cell(ch: char, hint: HintCell)

  /** The quote display: one cell per character of the answered quote, in order. */
  function QuoteDisplay(g: GameData): (cells: seq<Cell>)
    ensures |cells| == |g.answeredQuote|
    ensures forall i :: 0 <= i < |cells| ==>
              cells[i].ch == g.answeredQuote[i] && cells[i].hint == HintAt(g.numericalHints, i)
  {
    seq(|g.answeredQuote|, i requires 0 <= i < |g.answeredQuote| => Cell(g.answeredQuote[i], HintAt(g.numericalHints, i)))
  }

  /** The hint row depends only on the hints and on the length of the answered
      quote, so a guess that keeps the answered quote's length keeps the displayed hints,
      whatever the service sent back. */
  lemma HintRowKeptByGuess(s: AppState, letter: char, reply: Reply<GuessResponse>)
    requires reply.Ok? ==> |reply.body.data.answeredQuote| == |s.gameData.answeredQuote|
    ensures var after := LetterClick(s, letter, reply).state;
            var before := QuoteDisplay(s.gameData);
            var now := QuoteDisplay(after.gameData);
            |now| == |before| && forall i :: 0 <= i < |now| ==> now[i].hint == before[i].hint
  {
  }

  /** The keyboard: the 26 lower-case letters, in alphabetical order. */
  function KeyboardLetters(): (letters: seq<char>)
    ensures |letters| == 26
    ensures forall i :: 0 <= i < 26 ==> letters[i] == ('a' as int + i) as char
  {
    "abcdefghijklmnopqrstuvwxyz"
  }
}
