# Pig, modelled in Dafny

This project models the rules engine of the two-player dice game Pig as implemented in `Pig.py`:

- players whose score is banked with `add_score` and cleared with `reset_score`;
- the computer's policy, which rolls while the turn total is below `min(25, 100 - score)`;
- the human's console answer, where "r" in either case means roll;
- the player factory;
- the turn loop of `Game.play_turn`, with a bust on a 1 and a hold when the player declines to roll;
- the alternation of `current_player`;
- the win check at 100, applied to the player found at `players[current_player - 1]`;
- the timed variant `Proxy`, which checks the elapsed time before each turn and, past 60 seconds, declares the highest score the winner.

The die, the console and the clock are oracles passed in as parameters:

- the die is a sequence of faces `rolls` with a cursor `i`;
- the console is a sequence of typed lines `answers` with a cursor `j`;
- the clock is a sequence `clock` of elapsed-time readings, one read before each turn of a timed game.

The game stops with outcome `Suspended`, and the turn in progress commits nothing, when:

- the die sequence runs out in the middle of a turn (the real die never runs out);
- the console answers run out in the middle of a turn, which stands for `input()` raising EOFError at end of input;
- the clock readings run out between turns of a timed game.

Files:

- `Wrappers.dfy`: an `Option` type.
- `Rules.dfy` (module `Rules`): the rules as values. It defines the decision functions, `TurnFrom` (one turn over the oracles), `PlayFrom` and `TimedFrom` (the two game loops), and `DeclareWinner`. Lemmas prove what these promise.
- `Pig.dfy` (module `Pig`): the objects of the program.
  - `Player` has a mutable `score`.
  - `Game` holds its two players and a mutable `current`.
  - `Proxy` wraps a `Game`.
  - Each loop (`PlayTurn`, `Game.PlayGame`, `Proxy.PlayGame`) is proved to compute exactly what its specification function in `Rules` says.

The two Python classes `Player` and `ComputerPlayer` become one class with a constant `kind`. `decides_to_roll` then dispatches on that tag (`Rules.Decide`).

The timed winner choice is deterministic, even on a tie:

- `max` over a dict returns the first maximal key, and Python dicts keep insertion order. So the first player wins a tie, and `Rules.DeclareWinner` proves this.
- The dict is keyed by player name. Two players with the same name share one entry, which keeps the first player's place and holds the second player's score. `Rules.DeclareWinner` states this case too. `main` always uses distinct names.

## Model

| member | source | states |
|---|---|---|
| `Pig.Player.constructor` | Pig.py:19-21 | a new player has the given name and variant and score 0 |
| `Pig.Player.AddScore` | Pig.py:23-24 | the score grows by exactly the points given; nothing else changes |
| `Pig.Player.ResetScore` | Pig.py:26-27 | the score becomes 0 |
| `Rules.Lower` | Pig.py:30 | lower-casing keeps the length and folds each character on its own; only ASCII letters are folded |
| `Rules.HumanDecides` | Pig.py:29-31 | a human rolls exactly when the typed line is "r" or "R"; any other line holds |
| `Rules.Target` | Pig.py:39 | the target is at most 25 and at most the points still missing to 100, and equals one of the two |
| `Rules.ComputerDecides` | Pig.py:37-40 | the computer rolls exactly when the turn total is under 25 and banking it would leave the score under 100; it holds at or above the target, and always holds once the score is 100 or more |
| `Rules.Decide` | Pig.py:29-40 | the computer answers with `ComputerDecides` and reads no input; a human has no answer exactly when the answers are used up, and otherwise consumes one answer and answers with `HumanDecides` on it |
| `Rules.KindOf` | Pig.py:46-49 | the tag "computer" gives a computer player and every other tag gives a human one |
| `Pig.CreatePlayer` | Pig.py:46-49 | the factory returns a new player with the given name, score 0 and the variant that `KindOf` picks for the tag |
| `Rules.TurnFrom` | Pig.py:62-81 | a finished turn consumes at least one face and moves both cursors only forward, within their streams |
| `Rules.TurnBustDiscards` | Pig.py:72-75 | a turn busts exactly when its last face is a 1, no earlier face is a 1, and a busted turn banks 0 |
| `Rules.TurnHoldBanksRolls` | Pig.py:76-83 | a held turn banks exactly the sum of the faces drawn, none of which is a 1 |
| `Rules.TurnBanksNonNegative` | Pig.py:68-83 | with faces in 1..6, a turn never banks a negative total; a held turn's faces are all in 2..6 and bank at least 2 points each |
| `Rules.ComputerHoldsInBand` | Pig.py:77-81 | a computer turn that holds has reached its target, and when the target is positive it ends below target + 6 |
| `Rules.Switched` | Pig.py:59-60 | switching the turn gives the other index in {0, 1} |
| `Rules.SwitchedTwice` | Pig.py:59-60 | switching twice restores the turn index |
| `Pig.Game.SwitchTurn` | Pig.py:59-60 | `current` becomes the other player's index and stays in {0, 1} |
| `Rules.PyIndex` | Pig.py:93 | Python indexing with a negative index gives a valid position congruent to the index modulo the list length |
| `Rules.Mover` | Pig.py:93 | `1 - current` is the same index as Python's `players[current_player - 1]` |
| `Rules.AfterTurn` | Pig.py:83-85 | committing a turn adds its total to the active player only, leaves the other score unchanged, and passes the turn, so the mover is the player who just played |
| `Rules.IsWinner` | Pig.py:87-88 | a player has won exactly when their score is at least 100, which is exactly when the computer's target is no longer positive |
| `Pig.Game.constructor` | Pig.py:54-57 | a new game holds the two players in order and starts with player 0 to move |
| `Pig.Game.PlayTurn` | Pig.py:62-85 | the turn ends as `TurnFrom` says; when it finishes, the active player's score rises by the banked total, the other score is unchanged and the turn passes; an abandoned turn changes nothing |
| `Rules.PlayFrom` | Pig.py:90-95 | the untimed game loop as a value: it always ends in a valid state and never undoes turns |
| `Pig.Game.PlayGame` | Pig.py:90-95 | the loop returns the outcome and leaves the scores and turn index that `PlayFrom` gives from the starting state |
| `Rules.PlayEndsOnlyOnWin` | Pig.py:87-95 | from scores under 100, the game stops with a win exactly when a player reaches 100; that winner is the player who just moved, reported with their score, and the other player is still under 100 |
| `Rules.PlayScoresNeverDrop` | Pig.py:62-95 | with faces in 1..6, no score ever decreases over a game, and the turn index flips once per turn played |
| `Rules.Put` | Pig.py:118 | dict assignment keeps keys unique: an existing key keeps its place and takes the new value, and a key not yet in the dict is appended last, so the dict grows by exactly one entry |
| `Rules.PutKeys` | Pig.py:118 | assigning a key already present leaves the key order unchanged; assigning a new key appends it to the key order |
| `Rules.ScoreTable` | Pig.py:118 | the name-to-score dict has unique keys and no more entries than there are players |
| `Rules.ScoreTableKeysAreNames` | Pig.py:118 | every key of the dict is a player's name |
| `Rules.ScoreTableNamesAreKeys` | Pig.py:118 | every player's name is a key of the dict |
| `Rules.MaxByValue` | Pig.py:119 | `max` by value picks an entry whose value is maximal, and no earlier entry holds that value |
| `Rules.DeclareWinner` | Pig.py:117-120 | with distinct names, the timeout winner is the player with the higher score, and the first player on a tie; with equal names, the single dict entry carries the second player's score |
| `Pig.Proxy.constructor` | Pig.py:101-103 | the proxy wraps the given game |
| `Rules.TimedFrom` | Pig.py:105-115 | the timed game loop as a value: it ends in a valid state after no more turns than there are clock readings |
| `Pig.Proxy.PlayGame` | Pig.py:105-115 | the timed loop returns the outcome and leaves the scores and turn index that `TimedFrom` gives from the starting state |
| `Rules.TimedStopsAtLimit` | Pig.py:105-119 | every turn of a timed game started within 60 seconds; a game stopped by the clock plays no turn after the reading that passed 60, and declares the name and score that `DeclareWinner` picks from the final scores: a player's score, the highest one when names are distinct, and the first player's on a tie |
| `Rules.TimedWithinLimitIsPlain` | Pig.py:105-115 | while every clock reading is within 60 seconds and the clock has more readings than faces left, the timed game is exactly the plain game |
| `Rules.TimedWinIsPlain` | Pig.py:105-115 | a timed game that ends in a win, whatever the clock holds afterwards, has played exactly the plain game: same turns, same final scores, same winner |
| `Rules.BustScenario` | Pig.py:68-75 | faces 5, 4, 1 for a computer at target 25 bust the turn and bank 0 |
| `Rules.WinFrom97Scenario` | Pig.py:37-40 | a computer at 97 rolls 3, holds at target 3 and wins with 100 |
| `Rules.TimeUpScenario` | Pig.py:105-120 | at 61 seconds with scores 40 and 55 no turn is played and Player 2 is declared with 55 |

## Left out

- The `Die` class and the global `random.seed` / `randint`: no pseudo-random generator is modelled. The die is a sequence of faces, and the properties that need faces in 1..6 assume it (`AllDieFaces`).
- All `print` output, `time.time()` and `time.sleep(2)`: these are I/O. Elapsed time is a sequence of readings passed to `Proxy.PlayGame`, and the start time is not a field.
- `main` and the argparse command line: this is process plumbing.
- The Python die never runs out, but the model's finite sequence of faces can. When it runs out mid-turn, the model abandons that turn without committing anything (`Suspended`). That outcome does not exist in the source.
- When the console answers run out, the model returns `Suspended` with nothing committed. In the source, `input()` raises EOFError at that point. The error escapes `play_turn` before `add_score` runs, so nothing is committed, and the program ends with a traceback. The exception itself is not modelled.
- When the clock readings run out between turns, the timed game returns `Suspended`. The real clock always has a reading.
- Termination of `play_game` with a random die, or with a human who never stops rolling: this is probabilistic or unbounded. Only finite runs over finite streams are modelled.
- Rules.Lower: only ASCII 'A'..'Z' are lower-cased, one character at a time. Python's `str.lower` folds every Unicode letter, depends on context (a final 'Σ' becomes 'ς') and can lengthen a string ('İ' becomes two characters).
- Rules.HumanDecides: built on the ASCII-only `Lower`. Its contract is still exact, because "r" and "R" are the only strings that Python lower-cases to "r".
- Pig.Game.constructor: requires the two player objects to be distinct. `main` always builds two distinct players. If both seats held the same object, one turn would update both entries of `players`.
- The subclass relation between `Player` and `ComputerPlayer` is a tag (`Kind`), not a class hierarchy.
