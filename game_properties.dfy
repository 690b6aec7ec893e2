/** Properties of the controller over whole sequences of events. */
module GameProperties {
  import opened GameState

  /** No event of the sequence loads a session. */
  predicate NoLoad(events: seq<Event>)
  {
    forall i :: 0 <= i < |events| ==> !events[i].LoadEvent?
  }

  /** Guesses and selections never change the hints: whatever the service sends
      back, the hints stay those of the state the sequence started from. */
  lemma {:induction false} HintsKeptByRun(s: AppState, events: seq<Event>)
    requires NoLoad(events)
    ensures Run(s, events).gameData.numericalHints == s.gameData.numericalHints
    decreases |events|
  {
    if events != [] {
      assert !events[0].LoadEvent?;
      var next := Step(s, events[0]);
      assert next.gameData.numericalHints == s.gameData.numericalHints;
      assert NoLoad(events[1..]) by {
        forall i | 0 <= i < |events[1..]| ensures !events[1..][i].LoadEvent? {
          assert events[1..][i] == events[i + 1];
        }
      }
      HintsKeptByRun(next, events[1..]);
    }
  }

  /** Once a session is loaded, the hints shown are those of the session for the
      rest of the game. */
  lemma HintsFixedAfterLoad(g: GameData, events: seq<Event>)
    requires NoLoad(events)
    ensures Run(Initial(), [LoadEvent(Ok(g))] + events).gameData.numericalHints == g.numericalHints
  {
    var loaded := Load(Initial(), Ok(g));
    assert ([LoadEvent(Ok(g))] + events)[1..] == events;
    HintsKeptByRun(loaded, events);
  }

  /** The message is always one of the controller's fixed texts, or the initial
      empty one. */
  predicate KnownMessage(m: string)
  {
    m == "" || m == LoadFailedText || m == SelectFirstText || m == CorrectText ||
    m == IncorrectText || m == WinText || m == GuessFailedText
  }

  lemma {:induction false} MessagesStayKnown(s: AppState, events: seq<Event>)
    requires KnownMessage(s.message)
    ensures KnownMessage(Run(s, events).message)
    decreases |events|
  {
    if events != [] {
      var next := Step(s, events[0]);
      if events[0].ClickEvent? && s.selectedIdx.Some? && events[0].guessReply.Ok? {
        var response := events[0].guessReply.body;
        var m := GuessMessage(response.correct, response.data.answeredQuote);
        assert m == WinText || m == CorrectText || m == IncorrectText;
      }
      MessagesStayKnown(next, events[1..]);
    }
  }

  /** The message after a letter click tells which branch the handler took:
      the select-first text exactly when nothing was selected, the failure text
      exactly when the request failed, and a guess verdict exactly when the
      service answered. */
  lemma MessageTellsBranch(s: AppState, letter: char, reply: Reply<GuessResponse>)
    ensures var m := LetterClick(s, letter, reply).state.message;
            (m == SelectFirstText <==> s.selectedIdx.None?) &&
            (m == GuessFailedText <==> s.selectedIdx.Some? && reply.Failed?) &&
            (m in {WinText, CorrectText, IncorrectText} <==> s.selectedIdx.Some? && reply.Ok?)
  {
  }

  /** The selection, when there is one, is a position of the displayed answered quote. */
  predicate SelectionInGrid(s: AppState)
  {
    s.selectedIdx.Some? ==> s.selectedIdx.value < |s.gameData.answeredQuote|
  }

  /** A sequence of events a loaded page can produce: letter clicks, and
      selections of cells that are displayed at the time of the click. */
  predicate ClickedOnGrid(s: AppState, events: seq<Event>)
    decreases |events|
  {
    events == [] ||
    (!events[0].LoadEvent? &&
     (events[0].SelectEvent? ==> events[0].index < |s.gameData.answeredQuote|) &&
     ClickedOnGrid(Step(s, events[0]), events[1..]))
  }

  /** Clicks on the grid keep the selection inside the grid: a successful guess
      clears it, a failed one keeps the game data it was chosen on. */
  lemma {:induction false} SelectionStaysInGrid(s: AppState, events: seq<Event>)
    requires SelectionInGrid(s) && ClickedOnGrid(s, events)
    ensures SelectionInGrid(Run(s, events))
    decreases |events|
  {
    if events != [] {
      var next := Step(s, events[0]);
      assert SelectionInGrid(next);
      SelectionStaysInGrid(next, events[1..]);
    }
  }

  /** From the start of a session, with the one load the page makes when it is
      mounted, the selection is always a displayed position. */
  lemma SessionSelectionInGrid(reply: Reply<GameData>, events: seq<Event>)
    requires ClickedOnGrid(Load(Initial(), reply), events)
    ensures SelectionInGrid(Run(Initial(), [LoadEvent(reply)] + events))
  {
    assert ([LoadEvent(reply)] + events)[1..] == events;
    SelectionStaysInGrid(Load(Initial(), reply), events);
  }

  /** A failed guess keeps the selection, so clicking the letter again resends
      the very same request without selecting again. */
  lemma RetryResendsSameRequest(s: AppState, letter: char, reply: Reply<GuessResponse>)
    requires s.selectedIdx.Some?
    ensures LetterClick(LetterClick(s, letter, Failed).state, letter, reply).sent ==
            LetterClick(s, letter, Failed).sent
  {
  }

  /** A successful guess ends the selection: the next click, without a new
      selection, sends nothing and asks for a position. */
  lemma SecondClickNeedsNewSelection(s: AppState, first: char, second: char,
                                     response: GuessResponse, reply: Reply<GuessResponse>)
    requires s.selectedIdx.Some?
    ensures var after := LetterClick(s, first, Ok(response)).state;
            LetterClick(after, second, reply).sent == None &&
            LetterClick(after, second, reply).state.message == SelectFirstText
  {
  }
}
