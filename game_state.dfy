/** The state of the quote-guessing game controller and its transitions, as values.

    The controller keeps three state cells: the game data of the current puzzle,
    the selected character position (or none) and the status message. Each event
    handler is one atomic step from a state to the next; the remote game service
    is not modelled, its reply to a request is an input of the step.
 */
module GameState {

  datatype Option<T> = None | Some(value: T)

  /** The reply of the remote service to one request: a response body, or a
      transport or service failure. */
  datatype Reply<T> = Ok(body: T) | Failed

  /** One entry of `numerical_hints`: a number, or anything else (null). */
  datatype Hint = Number(value: int) | NoNumber

  /** The puzzle as the service sends it and the client keeps it. */
  datatype GameData = GameData(
    quote: string,
    answeredQuote: string,
    numericalHints: seq<Hint>,
    author: string,
    category: string)

  /** The body of a reply to a guess: the new puzzle and whether the guess was right. */
  datatype GuessResponse = GuessResponse(data: GameData, correct: bool)

  /** The body of a guess request. */
  datatype GuessRequest = GuessRequest(
    quote: string,
    answeredQuote: string,
    numericalHints: seq<Hint>,
    author: string,
    category: string,
    guessIndex: nat,
    guessLetter: char)

  /** The three state cells of the controller. */
  datatype AppState = AppState(gameData: GameData, selectedIdx: Option<nat>, message: string)

  /** What a letter click does: the state afterwards, and the request sent, if any. */
  datatype ClickOutcome = ClickOutcome(state: AppState, sent: Option<GuessRequest>)

  /** The marker of a position not yet revealed in `answeredQuote`. */
  const Blank: char := '_'

  const LoadFailedText: string := "Failed to load game data."
  const SelectFirstText: string := "Please select a position first."
  const CorrectText: string := "Correct guess!"
  const IncorrectText: string := "Incorrect guess, try again!"
  const WinText: string := "Congratulations, you have guessed the entire quote!"
  const GuessFailedText: string := "Error processing your guess."

  /** The game data before any session is loaded. */
  function EmptyGame(): (g: GameData)
    ensures g.quote == "" && g.answeredQuote == "" && g.numericalHints == []
    ensures g.author == "" && g.category == ""
  {
    GameData("", "", [], "", "")
  }

  /** The state the controller starts in. */
  function Initial(): (s: AppState)
    ensures s.gameData == EmptyGame() && s.selectedIdx == None && s.message == ""
  {
    AppState(EmptyGame(), None, "")
  }

  /** Loading a session (fetchGameData): a response replaces the game data
      wholesale; a failure keeps it and reports the fixed load-failure text.
      The selection is never touched, nor is the message on success. */
  function Load(s: AppState, reply: Reply<GameData>): (r: AppState)
    ensures r.selectedIdx == s.selectedIdx
    ensures reply.Ok? ==> r.gameData == reply.body && r.message == s.message
    ensures reply.Failed? ==> r.gameData == s.gameData && r.message == LoadFailedText
  {
    match reply
    case Ok(data) => s.(gameData := data)
    case Failed => s.(message := LoadFailedText)
  }

  /** Selecting a character cell (handleCharacterSelect): the index becomes the
      selection, whatever was selected before; nothing else changes. */
  function Select(s: AppState, index: nat): (r: AppState)
    ensures r.selectedIdx == Some(index)
    ensures r.gameData == s.gameData && r.message == s.message
  {
    s.(selectedIdx := Some(index))
  }

  /** The guess request built from the current game data, position and letter. */
  function RequestFor(g: GameData, index: nat, letter: char): (q: GuessRequest)
    ensures q.quote == g.quote && q.answeredQuote == g.answeredQuote
    ensures q.numericalHints == g.numericalHints
    ensures q.author == g.author && q.category == g.category
    ensures q.guessIndex == index && q.guessLetter == letter
  {
    GuessRequest(g.quote, g.answeredQuote, g.numericalHints, g.author, g.category, index, letter)
  }

  /** The message shown after a successful guess: the win text exactly when the
      new answered quote has no blank left, whether or not the guess was
      correct; otherwise the correct or incorrect text. */
  function GuessMessage(correct: bool, answeredQuote: string): (m: string)
    ensures m == WinText <==> Blank !in answeredQuote
    ensures m == CorrectText <==> Blank in answeredQuote && correct
    ensures m == IncorrectText <==> Blank in answeredQuote && !correct
  {
    if Blank !in answeredQuote then WinText
    else if correct then CorrectText
    else IncorrectText
  }

  /** The game data after a successful guess: the response's puzzle, but the
      client's own hints. */
  function Merge(g: GameData, response: GuessResponse): (r: GameData)
    ensures r.numericalHints == g.numericalHints
    ensures r.quote == response.data.quote && r.answeredQuote == response.data.answeredQuote
    ensures r.author == response.data.author && r.category == response.data.category
  {
    response.data.(numericalHints := g.numericalHints)
  }

  /** Clicking a letter (handleLetterClick). With no selection no request is
      sent and only the message changes. Otherwise the request carries the
      current game data and the selection; on a response the game data is
      merged, the selection cleared and the message derived from the
      response; on a failure only the message changes, so the selection
      survives. */
  function LetterClick(s: AppState, letter: char, reply: Reply<GuessResponse>): (r: ClickOutcome)
    ensures r.sent.None? <==> s.selectedIdx.None?
    ensures s.selectedIdx.None? ==> r.state == s.(message := SelectFirstText)
    ensures s.selectedIdx.Some? ==> r.sent == Some(RequestFor(s.gameData, s.selectedIdx.value, letter))
    ensures r.state.gameData.numericalHints == s.gameData.numericalHints
    ensures s.selectedIdx.Some? && reply.Ok? ==>
              r.state.gameData == Merge(s.gameData, reply.body) && r.state.selectedIdx == None &&
              r.state.message == GuessMessage(reply.body.correct, reply.body.data.answeredQuote)
    ensures s.selectedIdx.Some? && reply.Failed? ==>
              r.state.gameData == s.gameData && r.state.selectedIdx == s.selectedIdx &&
              r.state.message == GuessFailedText
  {
    match s.selectedIdx
    case None => ClickOutcome(s.(message := SelectFirstText), None)
    case Some(index) =>
      var request := RequestFor(s.gameData, index, letter);
      match reply
      case Ok(response) =>
        var next := AppState(Merge(s.gameData, response), None,
                             GuessMessage(response.correct, response.data.answeredQuote));
        ClickOutcome(next, Some(request))
      case Failed => ClickOutcome(s.(message := GuessFailedText), Some(request))
  }

  /** The events that drive the controller, each with the service's reply where
      the handler makes a request. */
  datatype Event =
    | LoadEvent(loadReply: Reply<GameData>)
    | SelectEvent(index: nat)
    | ClickEvent(letter: char, guessReply: Reply<GuessResponse>)

  /** One event handled. */
  function Step(s: AppState, e: Event): (r: AppState)
  {
    match e
    case LoadEvent(reply) => Load(s, reply)
    case SelectEvent(index) => Select(s, index)
    case ClickEvent(letter, reply) => LetterClick(s, letter, reply).state
  }

  /** A sequence of events handled one after the other. */
  function Run(s: AppState, events: seq<Event>): (r: AppState)
    decreases |events|
  {
    if events == [] then s else Run(Step(s, events[0]), events[1..])
  }
}
