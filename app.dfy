/** The game controller component with its three state cells, updated in place
    by its event handlers. */
module AppController {
  import opened GameState

  class App {
    var gameData: GameData
    var selectedIdx: Option<nat>
    var message: string

    /** The three cells as one value. */
    function State(): AppState
      reads this
    {
      AppState(gameData, selectedIdx, message)
    }

    /** A fresh component: no puzzle, no selection, no message. */
    constructor ()
      ensures State() == Initial()
    {
      gameData := EmptyGame();
      selectedIdx := None;
      message := "";
    }

    /** Loads a session; `reply` is the service's answer to the start request. */
    method FetchGameData(reply: Reply<GameData>)
      modifies this
      ensures State() == Load(old(State()), reply)
      ensures selectedIdx == old(selectedIdx)
      ensures reply.Ok? ==> gameData == reply.body && message == old(message)
      ensures reply.Failed? ==> gameData == old(gameData) && message == LoadFailedText
    {
      match reply
      case Ok(data) =>
        gameData := data;
      case Failed =>
        message := LoadFailedText;
    }

    /** Selects the character cell at `index`. */
    method HandleCharacterSelect(index: nat)
      modifies this
      ensures State() == Select(old(State()), index)
      ensures selectedIdx == Some(index)
      ensures gameData == old(gameData) && message == old(message)
    {
      selectedIdx := Some(index);
    }

    /** Guesses `letter` at the selected position. `reply` is the service's
        answer to the guess request, if one is sent; `sent` is that request. */
    method HandleLetterClick(letter: char, reply: Reply<GuessResponse>) returns (sent: Option<GuessRequest>)
      modifies this
      ensures State() == LetterClick(old(State()), letter, reply).state
      ensures sent == LetterClick(old(State()), letter, reply).sent
      ensures old(selectedIdx).None? ==>
                sent == None && gameData == old(gameData) && selectedIdx == None &&
                message == SelectFirstText
      ensures old(selectedIdx).Some? ==>
                sent == Some(GuessRequest(old(gameData).quote, old(gameData).answeredQuote,
                                          old(gameData).numericalHints, old(gameData).author,
                                          old(gameData).category, old(selectedIdx).value, letter))
      ensures gameData.numericalHints == old(gameData).numericalHints
      ensures old(selectedIdx).Some? && reply.Ok? ==>
                selectedIdx == None &&
                gameData.answeredQuote == reply.body.data.answeredQuote &&
                (message == WinText <==> Blank !in reply.body.data.answeredQuote)
      ensures old(selectedIdx).Some? && reply.Failed? ==>
                gameData == old(gameData) && selectedIdx == old(selectedIdx) &&
                message == GuessFailedText
    {
      if selectedIdx == None {
        message := SelectFirstText;
        return None;
      }
      var index := selectedIdx.value;
      sent := Some(GuessRequest(gameData.quote, gameData.answeredQuote, gameData.numericalHints,
                                gameData.author, gameData.category, index, letter));
      match reply
      case Failed =>
        message := GuessFailedText;
      case Ok(response) =>
        gameData := response.data.(numericalHints := gameData.numericalHints);
        selectedIdx := None;
        message := if response.correct then CorrectText else IncorrectText;
        if Blank !in response.data.answeredQuote {
          message := WinText;
        }
    }
  }

  /** A session played through the component: the hints survive every guess,
      a guess without a selection sends nothing, and the win text overrides an
      incorrect guess. */
  method PlaySession()
  {
    var app := new App();
    var hints := [Number(1), NoNumber, NoNumber, Number(2), NoNumber];
    app.FetchGameData(Ok(GameData("ab cd", "__ __", hints, "X", "Y")));
    assert app.gameData.numericalHints == hints;

    var none := app.HandleLetterClick('a', Failed);
    assert none == None && app.message == SelectFirstText;
    assert app.gameData.answeredQuote == "__ __";

    app.HandleCharacterSelect(0);
    var sent := app.HandleLetterClick('a', Ok(GuessResponse(GameData("ab cd", "a_ __", [], "X", "Y"), true)));
    assert sent.Some? && sent.value.guessIndex == 0 && sent.value.guessLetter == 'a';
    assert sent.value.answeredQuote == "__ __";
    assert app.gameData.numericalHints == hints;
    assert app.selectedIdx == None;
    assert "a_ __"[1] == Blank;
    assert app.message == CorrectText;

    app.HandleCharacterSelect(1);
    sent := app.HandleLetterClick('z', Failed);
    assert app.message == GuessFailedText && app.selectedIdx == Some(1);
    assert app.gameData.answeredQuote == "a_ __";

    sent := app.HandleLetterClick('z', Ok(GuessResponse(GameData("ab cd", "ab cd", hints, "X", "Y"), false)));
    assert sent.Some? && sent.value.guessIndex == 1;
    assert forall i :: 0 <= i < |"ab cd"| ==> "ab cd"[i] != Blank;
    assert app.message == WinText;
  }
}
