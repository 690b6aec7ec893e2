# Quote guessing game: the client controller

This project models the client-side controller of a quote guessing game
(`src/App.js`). The page shows a partly revealed quotation, one cell per
character with an optional numeric hint under it, and a keyboard of 26
letters. The user selects a cell and clicks a letter; the controller asks a
remote game service whether the guess is right and shows the outcome.

The controller keeps three state cells: the game data (`quote`,
`answered_quote`, `numerical_hints`, `author`, `category`), the selected
position (or none) and the status message. Three handlers change them:
loading a session, selecting a cell, and clicking a letter.

- `game_state.dfy` (module `GameState`) holds the data model and the
  handlers as pure transitions from one state to the next. The service's
  reply to a request is an input of the transition: a response body or a
  failure. A letter click also returns the request it sends, if any, so
  that "no request sent" and "what the request carries" can be stated.
- `app.dfy` (module `AppController`) holds the component as a class with
  the three cells as fields. Its handlers update the fields step by step as
  the source does, writing the message from `correct`, and a second time
  with the win text when the response's answered quote has no `_` left. Each
  handler's postcondition ties the new fields to the transition of the old
  ones. `PlaySession` walks through a session: load, a guess without a
  selection, a correct guess, a failed request, and a winning guess that
  the service marks incorrect.
- `game_properties.dfy` (module `GameProperties`) holds the properties of
  whole sequences of events: the hints never change after the load, the
  message is always one of the fixed texts, and the selection always names
  a displayed cell.
- `render.dfy` (module `Render`) holds what the page shows of the state: the
  hint under each cell and the keyboard letters.

Three behaviours of the code worth noting:

- A failed guess request does not clear the selection; only a response does.
- The letter of a guess is any character: the handler does not check it
  against the alphabet, only the keyboard limits what it receives.
- Nothing checks that `quote`, `answered_quote` and `numerical_hints` have
  the same length, so no such invariant is claimed. The display treats a
  missing hint as a space, and `HintRowKeptByGuess` assumes the guess
  response keeps the answered quote's length.

## Model

| member | source | states |
|---|---|---|
| `GameState.EmptyGame` | src/App.js:7-13 | the game data before a load has empty strings and no hints |
| `GameState.Initial` | src/App.js:7-15 | the controller starts with empty game data, no selection and an empty message |
| `GameState.Load` | src/App.js:21-31 | a response replaces the game data wholesale and leaves the message; a failure keeps the game data and sets the message to exactly the load-failure text; the selection is never touched |
| `GameState.Select` | src/App.js:34-36 | the selection becomes exactly the given index, overwriting any earlier one; game data and message are unchanged |
| `GameState.RequestFor` | src/App.js:44-52 | the guess request carries the current quote, answered quote, hints, author and category unchanged, the selected index and the letter |
| `GameState.Merge` | src/App.js:53-56 | after a response the hints are the client's own, whatever the response holds; quote, answered quote, author and category come from the response |
| `GameState.GuessMessage` | src/App.js:58-61 | the message after a response is the win text exactly when the new answered quote has no `_`, even for an incorrect guess; otherwise the correct text exactly when the guess was correct, and the incorrect text exactly when it was not |
| `GameState.LetterClick` | src/App.js:38-66 | a request is sent exactly when a position is selected; without one only the message changes, to the select-first text; with a response the game data is merged, the selection cleared and the message derived from the response; with a failure the game data and the selection are kept and the message is the guess-failure text; the hints never change |
| `GameProperties.HintsKeptByRun` | src/App.js:53-56 | over any sequence of selections and letter clicks, whatever the service replies, the hints stay as they were |
| `GameProperties.HintsFixedAfterLoad` | src/App.js:24-56 | after the session is loaded, the hints are those of the loaded session for the rest of the game |
| `GameProperties.MessagesStayKnown` | src/App.js:15-64 | over any sequence of events the message is the empty initial one or one of the six fixed texts |
| `GameProperties.MessageTellsBranch` | src/App.js:39-65 | after a letter click the message is the select-first text exactly when nothing was selected, the guess-failure text exactly when the request failed, and one of the win, correct and incorrect texts exactly when the service answered |
| `GameProperties.SelectionStaysInGrid` | src/App.js:34-88 | if each selection is of a displayed cell, the selection stays a position of the displayed answered quote across selections and letter clicks, successful or failed |
| `GameProperties.SessionSelectionInGrid` | src/App.js:17-88 | from the initial state and the load at mount, the selection is always a displayed position |
| `GameProperties.RetryResendsSameRequest` | src/App.js:38-65 | after a failed request, clicking the same letter again sends the same request without a new selection |
| `GameProperties.SecondClickNeedsNewSelection` | src/App.js:39-57 | after a response, the next letter click without a new selection sends nothing and asks for a position |
| `AppController.App.constructor` | src/App.js:7-15 | the component starts in the initial state: empty strings, no hints, no selection and an empty message |
| `AppController.App.FetchGameData` | src/App.js:21-32 | updates the cells as `GameState.Load` does: response replaces the game data, failure sets the load-failure text |
| `AppController.App.HandleCharacterSelect` | src/App.js:34-36 | sets the selection to the index and changes nothing else |
| `AppController.App.HandleLetterClick` | src/App.js:38-66 | updates the cells and returns the request as `GameState.LetterClick` does; the request carries the old game data and selection; the hints are kept; the win text appears exactly when the response's answered quote has no `_` |
| `Render.HintAt` | src/App.js:91 | a cell shows a number exactly when the hint at its position exists and is a number, and then shows that number; otherwise a space |
| `Render.QuoteDisplay` | src/App.js:87-91 | one cell per character of the answered quote, in order, each with its character and its hint |
| `Render.HintRowKeptByGuess` | src/App.js:53-91 | a letter click whose response keeps the answered quote's length leaves every displayed hint as it was |
| `Render.KeyboardLetters` | src/App.js:69 | the keyboard has the 26 lower-case letters `a` to `z` in order |

## Left out

- The HTTP calls and their endpoints: each reply is an input value, a response body or a failure. The service's own guess checking is not modelled.
- React mechanics: batching of state updates, the mount effect and stale closures. Each handler is one atomic step, and the load at mount is the first event of `SessionSelectionInGrid`.
- Overlapping guess requests: nothing guards against them, and that is a matter of concurrency only.
- Markup, styling, the author and category headings, and the logging of errors.
- Responses without an `answered_quote`, where the check for `_` fails after the state has been updated: responses are assumed well formed.
- The spread of a guess response also copies its `correct` flag into the game data; nothing reads it, so the game data does not hold it.
- Hints are JavaScript numbers, floating point; the model holds whole numbers, and every non-number (such as null) is `NoNumber`.
- The reply to a guess is a parameter of the letter click even when no request is sent; it is then ignored.
- `Render.QuoteDisplay`: strings are modelled as sequences of Unicode characters, while the page splits `answered_quote` into UTF-16 code units; the cells, the displayed positions and the `guess_index` sent agree only for text within the Basic Multilingual Plane.
