# Rock, Paper, Scissors, Lizard, Spock — a Dafny model of the game component

The game is a single React component, `App` in `src/App.tsx`. The player picks
one of five options: Scissors, Paper, Rock, Lizard or Spock. The component then
shuffles the options and flashes them one after another on a 200 ms interval.
After two seconds it settles on a random option for "the house" and resolves
the round with `playRound`. The player reads the message ("YOU WIN",
"YOU LOSE", "It's a draw!") and presses "Play Again".

The model has three modules:

- `Rules` (`rules.dfy`, pure) holds:
  - the five options and the `winningConditions` table;
  - the name normalisation of `playRound`: the first character is upper-cased and the rest lower-cased;
  - the outcome of a round, `RoundOutcome`, and the message and winner each outcome produces.

  It also holds an independent description of the rules, the pentagon. Around the cycle Scissors, Paper, Rock, Lizard, Spock, every name beats the next one and the one three places on. Lemmas tie the table and the resolver to the pentagon.
- `Shuffle` (`shuffle.dfy`, pure) models `options.sort(() => Math.random() - 0.5)`. A sort with a random comparator leaves some permutation of the array behind. That permutation is an explicit argument `perm`. The module proves that applying it preserves the multiset of elements.
- `AppState` (`app_state.dfy`, imperative) models the component's state and its transitions, as the class `App`:
  - its fields are the `useState` cells, the flash index, the start time, and whether the interval is scheduled;
  - the options array is an `array` shared with the module level, which is shuffled in place;
  - the methods are selecting an option, one interval tick, settling a round, "Play Again", and unmounting;
  - `Valid()` is the object invariant. The constructor establishes it, and every transition preserves it: `Select`, `Tick` (with its parts `Flash` and `Settle`), `PlayAgain` and `Teardown`. `PlayRound` is the resolver's step inside `Settle`. It may break the invariant on its own, because it sets `winner` before the message is stored. `ShuffleOptions` keeps only the part about the options array.

The model takes the following as parameters: the clock (`Date.now()` becomes `now`), the permutation and the final index produced by `Math.random`.

Behaviour of the code worth noting:

- normalisation does not trim whitespace, so `" rock"` is an invalid choice;
- `playRound` has a side effect: on a win or a loss it sets `winner`;
- the module-level options array is shuffled in place, and the new order persists into later rounds and later mounts. So `App.constructor` accepts any arrangement of the five options.

## Model

| member | source | states |
|---|---|---|
| Rules.Normalize | src/App.tsx:44-45 | Defines the normalisation: the first character is upper-cased, the rest lower-cased, and nothing is trimmed. Its properties are the Normalize… lemmas below. |
| Rules.RoundOutcome | src/App.tsx:43-63 | Defines the outcome of `playRound`: invalid if a normalised name is not a key, otherwise a draw for equal names, otherwise a win exactly when the computer's name is listed under the player's. Its properties are the Outcome… lemmas, `InvalidExactlyWhenUnknown`, `DrawExactlyWhenSame` and `SwapExchangesWinAndLose`. |
| Rules.Message | src/App.tsx:49-63 | Defines the string returned for each outcome (lines 50, 54, 59 and 62). `MessagesAreDistinct` shows the message determines the outcome. |
| Rules.WinnerAfter | src/App.tsx:57-63 | Defines the value of `winner` after a round: "human" after a win (line 58), "computer" after a loss (line 61), unchanged otherwise. `WinnerMatchesMessage` relates it to the message. |
| Rules.TableMatchesPentagon | src/App.tsx:35-41 | The keys of `winningConditions` are exactly the five pentagon names, and every listed loser is a key. A name lists another exactly when the pentagon rule says it beats it. |
| Rules.OptionsArePentagon | src/App.tsx:19-25 | There are five options, their names are the pentagon names in order, and they are pairwise distinct. |
| Rules.OptionNamesAreValid | src/App.tsx:19-25 | Every option's name is a key of the table, is unchanged by normalisation, and is therefore accepted by the resolver. |
| Rules.TableIsTournament | src/App.tsx:35-41 | No name beats itself. Of two distinct names, exactly one beats the other. |
| Rules.CaseFoldingIdempotent | src/App.tsx:44-45 | Upper-casing or lower-casing a character twice is the same as doing it once. |
| Rules.NormalizeIdempotent | src/App.tsx:44-45 | Normalising an already normalised name changes nothing. |
| Rules.NormalizeIgnoresCase | src/App.tsx:44-45 | Two names that differ only in letter case normalise to the same name. |
| Rules.NormalizeKeepsFirstNonLetter | src/App.tsx:44-45 | A leading character that is not a letter, such as a blank, survives normalisation, and the length is kept. Nothing is trimmed. |
| Rules.OutcomeOfNormalized | src/App.tsx:44-57 | The outcome depends only on the normalised names. |
| Rules.OutcomeIgnoresCase | src/App.tsx:44-57 | Changing the letter case of either name does not change the outcome. |
| Rules.InvalidExactlyWhenUnknown | src/App.tsx:47-51 | The outcome is an invalid choice if and only if one of the normalised names is not a key of the table. |
| Rules.DrawExactlyWhenSame | src/App.tsx:53-55 | For two valid names, the round is a draw if and only if the normalised names are equal. |
| Rules.OutcomeFollowsPentagon | src/App.tsx:57-63 | For two pentagon names, the player wins if and only if the player's name beats the computer's around the pentagon. The player loses if and only if the reverse holds. A draw happens if and only if the names are the same. |
| Rules.SwapExchangesWinAndLose | src/App.tsx:43-63 | Exchanging the two arguments turns a win into a loss and a loss into a win. A draw stays a draw and an invalid choice stays invalid. |
| Rules.MessagesAreDistinct | src/App.tsx:49-63 | The four returned messages are pairwise different, so the message determines the outcome. |
| Rules.WinnerMatchesMessage | src/App.tsx:57-63 | Starting from no winner, `winner` is "human" if and only if the message is "YOU WIN", "computer" if and only if it is "YOU LOSE", and stays empty if and only if the message is the draw or the invalid-choice message. |
| Rules.OptionsNeverInvalid | src/App.tsx:86-92 | A round between two options of the board never produces the invalid-choice message. |
| Rules.SampleWinAndLoss | src/App.tsx:36-38 | "Rock" against "Scissors" is a win, and "Rock" against "Paper" is a loss. |
| Rules.SampleDraw | src/App.tsx:53-55 | "Spock" against "Spock" is a draw. |
| Rules.SampleMixedCase | src/App.tsx:44-45 | "rock" against "SCISSORS" has the outcome of "Rock" against "Scissors", which is a win. |
| Rules.SampleInvalid | src/App.tsx:47-51 | "Banana", " rock" (with a leading blank) and the empty string are invalid choices. |
| Shuffle.Permute | src/App.tsx:75 | Defines the arrangement a sort leaves behind: position `i` holds the old element at `perm[i]`. `PermutePreservesMultiset` and `PermuteSameElements` are its properties. |
| Shuffle.PermutePreservesMultiset | src/App.tsx:75 | The shuffled sequence has the same multiset of elements as the original. |
| Shuffle.PermuteSameElements | src/App.tsx:75 | The shuffled sequence has the same length and the same elements as the original. |
| AppState.App.OptionsElement | src/App.tsx:19-25 | In a consistent state, every element of the options array is one of the five options. |
| AppState.App.PlayableElement | src/App.tsx:86-91 | In a consistent state, every element of the options array has a name the resolver accepts. |
| AppState.App.ResultNeverInvalid | src/App.tsx:91-92 | In a consistent state, the message on display is never the invalid-choice message. |
| AppState.App.constructor | src/App.tsx:27-32 | On mount, every piece of round state is empty and no interval runs. The options array is left as it is. |
| AppState.App.PlayRound | src/App.tsx:43-64 | `playRound` returns the message of the round's outcome. It sets `winner` to "human" or "computer" on a win or a loss, and leaves it alone otherwise. |
| AppState.App.Select | src/App.tsx:68-82 | Clicking an option (line 102) while nothing is selected selects it and starts the reveal. The array becomes the permutation of its old contents, the index is 0, the start time is `now`, and the interval is scheduled. Nothing is flashing, final or resolved yet. |
| AppState.App.ShuffleOptions | src/App.tsx:75 | The array is rearranged in place by `perm`. Its multiset of elements stays the same, and it still holds only options of the game. |
| AppState.App.Tick | src/App.tsx:82-94 | A tick of a cancelled interval changes nothing. Otherwise the option at the current index flashes and the index advances modulo the array length. Past the two-second window the interval stops, the option at `finalIndex` becomes final, and the message and winner are those of the selected option played against it. Within the window nothing is resolved. A final option, once set, never changes. |
| AppState.App.Flash | src/App.tsx:83-84 | The option at the current index flashes, and the index advances by one modulo the array length. The invariant is kept and the interval stays active. |
| AppState.App.Settle | src/App.tsx:86-93 | The interval is cancelled, the option at `finalIndex` becomes final, and the result and the winner are those of the selected option's name against the final option's name. |
| AppState.App.SettledRoundValid | src/App.tsx:86-93 | A settled round whose message and winner come from two accepted names satisfies the round invariant. |
| AppState.App.PlayAgain | src/App.tsx:117-123 | All round state is cleared. `winner` becomes "" and the interval no longer runs. |
| AppState.App.Teardown | src/App.tsx:96-98 | The effect's cleanup cancels the interval and keeps the state consistent. |
| AppState.LizardRound | src/App.tsx:82-93 | Pick Lizard and tick past the window. The final option is the option the shuffle put at `finalIndex`, that is `OPTIONS[perm[finalIndex]]`. The message is `playRound("Lizard", …)` against it, and it is never the invalid-choice message. A later tick leaves the final option and the message unchanged. |
| AppState.TeardownWhileFlashing | src/App.tsx:96-98 | After unmounting mid-reveal, no later tick flashes another option or settles the round. |

## Left out

- The rules modal, the `isRulesOpened` toggle, the JSX rendering, CSS class names and the fixed score "12" are presentation only.
- The scheduling of `setInterval` is not modelled: ticks are explicit method calls, and `FLASH_INTERVAL` is only a constant. Time is the parameter `now`.
- `Math.random` is not modelled: the shuffle permutation and the final index are parameters. Whether `Array.prototype.sort` with a random comparator gives a uniform shuffle is not modelled either. Any permutation is allowed.
- Normalisation covers ASCII letters only: JavaScript's full Unicode case mapping is not modelled.
- React's batching of state updates, re-render timing and the effect dependency mechanism are not modelled. Each `set…` call is an immediate field update, and the effect is started by `Select`.
- `App.BoardValid` states that the array holds options of the game. It does not also state that the array is a permutation of all five. `ShuffleOptions` additionally proves that the multiset of elements is preserved.
- `App.Select` requires that nothing is selected yet: the option buttons are rendered only while `selectedOption` is null (lines 139-147).
- `App.Tick` leaves out the "never invalid" promise from its own contract. The promise follows from `Valid()`, as `App.ResultNeverInvalid` states.
