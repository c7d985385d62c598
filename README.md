# XOBot core in Dafny

XOBot is a Telegram mini-app. The player plays tic-tac-toe against the computer and wins promo codes. This project models the three parts of it that hold logic:

- **The game engine of `webapp/game.js`.**
  - State: the nine-cell board, the player to move, the active flag and the move counter. `Game.GameSession` is a class whose fields the methods update in place.
  - Win and draw detection over the eight winning lines.
  - The computer's move. It usually plays a random empty cell. On a difficulty roll of at least 0.95 it plays the move chosen by a minimax search with alpha-beta pruning.
    - `MoveSearch.Search` models the pruned search as a function, and `MoveSearch.Value` is the plain, unpruned game value.
    - The search is proved exact at the root and, for any window, exact up to that window.
    - The move it picks is proved to keep the game's value, so the human can do no better against it than against perfect play.
    - `MoveSearch.Minimax` is the in-place search on the board array. It places a mark, recurses and removes the mark. It is proved to return `Search` of the board and to leave the array as it found it.
- **The promo codes of `promo_generator.py`.**
  - The format: five characters, each from A-Z or 0-9.
  - The generator, proved to produce only valid codes and to be able to produce every valid code.
  - The bounded retry loop around the database insert.
  - The quota of three codes per day.
- **The rate limiter of `api.py`.** An in-memory map from user id to the timestamps admitted within the last minute. `RateLimit.RateLimiter.CheckRateLimit` updates that map. For a clock that never goes backwards, it is proved that at the moment of any call at most ten of the user's requests were admitted during the minute before it. It is also proved that a call is admitted exactly when fewer than ten were.

Randomness, the clock and the database are parameters:
- `Math.random()` and `random.choices` become the values they return: a real in [0, 1), or positions in the alphabet.
- `datetime.now().timestamp()` becomes a real.
- `database.add_promo_code` becomes a function from code and user id to success.
- `database.get_promo_codes_today` becomes the count it returns.

Files:
- `board.dfy` holds modules `Wrappers` and `GameBoard`.
- `search.dfy` holds `MoveSearch`.
- `game.dfy` holds `Game`.
- `promo.dfy` holds `PromoGenerator`.
- `ratelimit.dfy` holds `RateLimit`.

## Model

| member | source | states |
|---|---|---|
| GameBoard.WinnerIsFirstWinningLine | webapp/game.js:57-72 | the reported winner is the first of the eight lines, in table order, that holds three equal marks other than EMPTY, with that mark |
| GameBoard.NoWinnerIffNoWinningLine | webapp/game.js:57-72 | the scan returns null exactly when no line of the table is won |
| GameBoard.WinnerHoldsItsLine | webapp/game.js:18-27 | a reported line is one of the table's lines and all three of its cells hold the reported mark, which is not EMPTY |
| GameBoard.EmptyIndices | webapp/game.js:119-121 | the available positions are exactly the EMPTY cells, in ascending order |
| GameBoard.FilledUpdate | webapp/game.js:47-48 | writing a mark into an EMPTY cell fills exactly one more cell, so counting the move keeps the counter equal to the filled cells |
| GameBoard.LegalMovesPlusFilled | webapp/game.js:119-123 | the number of available positions plus the number of filled cells is nine |
| GameBoard.EmptyBoardIsOpen | webapp/game.js:12-15 | the initial board has no winner, nine available positions and no filled cell |
| MoveSearch.CheckWinnerForBoard | webapp/game.js:212-224 | the loop returns the mark of the first won line, or null when there is none |
| MoveSearch.ValueIsScore | webapp/game.js:155-161 | every game value is -10, 0 or 10 |
| MoveSearch.SearchShape | webapp/game.js:146-161 | a terminal board yields its score with no index; otherwise the result names an EMPTY cell and its score is -10, 0 or 10 |
| MoveSearch.SearchWindow | webapp/game.js:163-206 | for any window alpha < beta, the pruned score and the true game value agree once both are clamped to the window |
| MoveSearch.MinimaxIsExact | webapp/game.js:146-207 | started with the full window, the pruned search returns exactly the game value |
| MoveSearch.BestMoveIsOptimal | webapp/game.js:164-184 | on an undecided board the move AI picks is an EMPTY cell whose value after AI plays it equals the value of the position |
| MoveSearch.Minimax | webapp/game.js:146-207 | the in-place search returns the pruned search of the board and restores every cell it marked |
| MoveSearch.MaximizeOver | webapp/game.js:164-184 | AI's loop over the available positions returns the pruned maximum and restores the board |
| MoveSearch.MinimizeOver | webapp/game.js:185-206 | PLAYER's loop over the available positions returns the pruned minimum and restores the board |
| Game.RandomPick | webapp/game.js:130 | flooring a random value in [0, 1) times n gives a position in 0..n-1 |
| Game.AiChoiceIsEmptyCell | webapp/game.js:115-140 | with a cell available, the computer's choice (random or searched) is an EMPTY cell, and playing it fills exactly one more cell |
| Game.SmartAiChoiceIsOptimal | webapp/game.js:131-135 | on an undecided board, a roll of at least 0.95 plays a move that keeps the minimax value of the position |
| Game.AsWrittenSmartMoveBreaksCount | webapp/game.js:133-138 | on a board PLAYER has won, the code as written takes the missing index as a move: no cell changes, yet the counter goes from 3 to 4 with 3 cells filled |
| Game.GameSession.constructor | webapp/game.js:12-15 | nine EMPTY cells, PLAYER to move, the game active and no moves counted |
| Game.GameSession.InitGame | webapp/game.js:32-37 | a fresh empty board, PLAYER to move, the game active and the counter at zero |
| Game.GameSession.MakeMove | webapp/game.js:42-51 | accepted exactly when the game is active and the position is an EMPTY cell on the board; an accepted move writes PLAYER's mark and counts it, a rejected one changes nothing |
| Game.GameSession.CheckWinner | webapp/game.js:57-72 | the loop returns the first won line and its mark, or null |
| Game.GameSession.CheckDraw | webapp/game.js:77-79 | a draw is exactly a full board with no won line |
| Game.GameSession.GetGameState | webapp/game.js:84-108 | a won line decides the status, mark and line, even on a full board; otherwise DRAW exactly when the board is full and ONGOING exactly when a cell is EMPTY |
| Game.GameSession.MakeAIMove | webapp/game.js:115-140 | null and no change when the game is inactive or the board is full; otherwise AI's mark goes into the chosen EMPTY cell and the move is counted |
| Game.GameSession.GetBoard | webapp/game.js:229-231 | a copy of the nine cells |
| Game.GameSession.SetGameActive | webapp/game.js:236-238 | only the active flag changes |
| Game.GameSession.GetMoveCount | webapp/game.js:243-245 | the counter equals the number of filled cells, and with the available positions it makes nine |
| PromoGenerator.CharactersAreCodeChars | promo_generator.py:16 | the alphabet has 36 characters and holds exactly the upper-case letters and the digits |
| PromoGenerator.ValidatePromoCode | promo_generator.py:46-54 | a code is valid exactly when it has five characters, each an upper-case letter or a digit |
| PromoGenerator.GeneratePromoCode | promo_generator.py:11-18 | every generated code passes validation |
| PromoGenerator.EveryValidCodeIsGenerated | promo_generator.py:11-18 | every valid code is generated by some choice of positions, so the generator covers the whole format |
| PromoGenerator.GenerateUniquePromoCode | promo_generator.py:21-34 | returns the first generated code the database accepts, if any is accepted within the allowed attempts; None exactly when every attempt is refused |
| PromoGenerator.CanGeneratePromoCode | promo_generator.py:37-43 | a code may be issued exactly when one more still fits in the daily limit of three |
| RateLimit.Recent | api.py:51-55 | the kept timestamps are exactly the stored ones newer than a minute ago, and no more of them |
| RateLimit.RecentTwice | api.py:51-55 | pruning at an earlier cutoff and then a later one is pruning at the later one |
| RateLimit.RecentAppend | api.py:51-55 | pruning distributes over concatenated lists |
| RateLimit.Admit | api.py:43-65 | admitted exactly when fewer than ten recent timestamps remain; the stored list afterwards holds only recent timestamps, at most ten and ending with the new one when admitted |
| RateLimit.ReplayStoresLastMinute | api.py:43-65 | after every call of a user, with a clock that never goes backwards, the stored list is exactly the admitted requests of the last minute and holds at most ten |
| RateLimit.AtMostTenPerMinute | api.py:43-65 | at any call at most ten of the user's requests were admitted during the preceding minute, and a call is admitted exactly when fewer than ten were |
| RateLimit.RateLimiter.constructor | api.py:22 | the server starts with an empty store |
| RateLimit.RateLimiter.CheckRateLimit | api.py:43-65 | only the calling user's entry changes, to the pruned list plus the new timestamp when admitted; the answer is Admit's; no user ever holds more than ten timestamps |

## Left out

- Game.GameSession.MakeMove: positions are integers. JavaScript would also index the board with a numeric string or a fractional number, and that is not modelled.
- Game.GameSession.MakeAIMove: models the corrected choice of position (see Findings). The code as written is `Game.AiMoveAsWritten`.
- MoveSearch.Minimax: the source's single recursive function is split into `Minimax` and its two loops, `MaximizeOver` and `MinimizeOver`. JavaScript's `-Infinity` and `Infinity` are -100 and 100, which lie outside every score (-10, 0, 10).
- Game.RandomPick: `Math.random()` is a parameter in [0, 1). Its distribution, and the 95% / 5% split it produces, are not modelled.
- The player to move is always PLAYER. The source never changes `currentPlayer`, and `Valid` records this.
- RateLimit.AtMostTenPerMinute: assumes clock readings that never go backwards. `datetime.now()` is a wall clock that can go backwards, and the bound is not claimed then.
- RateLimit.RateLimiter.CheckRateLimit: timestamps are exact reals, not floating-point values. Concurrent requests on Flask threads sharing the dictionary are not modelled.
- PromoGenerator.GenerateUniquePromoCode: `database.add_promo_code` is a fixed function of code and user. A failed insert leaves the database unchanged, but another writer between two attempts is not modelled. The database itself, including code expiry (`PROMO_CODE_EXPIRY_DAYS`), is not part of this model.
- PromoGenerator.CanGeneratePromoCode: takes the result of `database.get_promo_codes_today` as its argument.
- The Flask routes, `validate_telegram_data`, the Telegram bot, the UI, sounds, confetti and the one-second AI delay are not part of this model. They are I/O and presentation.

## Findings

| source | as written | input that shows it | evidently intended | confidence | as-written member | corrected member |
|---|---|---|---|---|---|---|
| webapp/game.js:133-138 | `minimax` returns `{ score }` with no index on a terminal board. `makeAIMove` tests the missing index with `!== null`, which is true for `undefined`, so it writes `board[undefined]` and still increments `moveCount` | board `O O O / _ _ _ / _ _ _`, game active, difficulty roll >= 0.95: no cell changes and `moveCount` goes from 3 to 4 | fall back to the first available position (or make no move) whenever the search gives no position, so that `moveCount` always equals the number of filled cells | not executed; `app.js` ends the game before the computer moves on a won board, so only a direct call reaches it | Game.AsWrittenSmartMoveBreaksCount | Game.AiChoiceIsEmptyCell |
