/**
 The round resolver of the rock-paper-scissors-lizard-Spock game: the table of
 which name beats which, the normalisation of player-supplied names, and the
 outcome of one round.  Everything here is pure; the one side effect of the
 resolver (recording the winner) is applied by `AppState.App.PlayRound`.
 */
module Rules {

  /** One selectable option of the game: its icon and its display name. */
  datatype Option = Option(icon: string, name: string)

  /** The module-level list of options, in the order the source declares them
      (which is also the order around the pentagon on the board). */
  const OPTIONS: seq<Option> := [
    Option("./images/icon-scissors.svg", "Scissors"),
    Option("./images/icon-paper.svg", "Paper"),
    Option("./images/icon-rock.svg", "Rock"),
    Option("./images/icon-lizard.svg", "Lizard"),
    Option("./images/icon-spock.svg", "Spock")
  ]

  /** For each name, the names it defeats. */
  const WINNING_CONDITIONS: map<string, seq<string>> := map[
    "Rock" := ["Scissors", "Lizard"],
    "Scissors" := ["Paper", "Lizard"],
    "Paper" := ["Rock", "Spock"],
    "Lizard" := ["Paper", "Spock"],
    "Spock" := ["Rock", "Scissors"]
  ]

  const INVALID_MESSAGE := "Invalid choice. Please choose Rock, Paper, Scissors, Lizard, or Spock."
  const DRAW_MESSAGE := "It's a draw!"
  const WIN_MESSAGE := "YOU WIN"
  const LOSE_MESSAGE := "YOU LOSE"

  /** The values the `winner` state takes. */
  const NO_WINNER := ""
  const HUMAN := "human"
  const COMPUTER := "computer"

  /** The four ways a round can end, one per `return` of the resolver. */
  datatype Outcome = InvalidChoice | Draw | HumanWins | ComputerWins

  // ---------------------------------------------------------------------------
  // Normalisation: first character upper-cased, the rest lower-cased (ASCII).

  function ToUpper(c: char): char
  {
    if 'a' <= c <= 'z' then (c as int - 32) as char else c
  }

  function ToLower(c: char): char
  {
    if 'A' <= c <= 'Z' then (c as int + 32) as char else c
  }

  function ToLowerCase(s: string): string
  {
    seq(|s|, i requires 0 <= i < |s| => ToLower(s[i]))
  }

  /** `s.charAt(0).toUpperCase() + s.slice(1).toLowerCase()`; the empty string
      stays empty, and no whitespace is trimmed. */
  function Normalize(s: string): string
  {
    if |s| == 0 then "" else [ToUpper(s[0])] + ToLowerCase(s[1..])
  }

  /** Two names that differ only in the case of ASCII letters. */
  predicate SameIgnoringCase(s: string, t: string)
  {
    |s| == |t| && forall i :: 0 <= i < |s| ==> ToLower(s[i]) == ToLower(t[i])
  }

  // ---------------------------------------------------------------------------
  // The resolver.

  /** `Object.keys(winningConditions).includes(name)` */
  predicate IsValidChoice(name: string)
  {
    name in WINNING_CONDITIONS
  }

  /** A name the resolver accepts once it is normalised. */
  predicate Playable(name: string)
  {
    IsValidChoice(Normalize(name))
  }

  /** The outcome of `playRound(playerSelection, computerSelection)`. */
  function RoundOutcome(playerSelection: string, computerSelection: string): Outcome
  {
    var player := Normalize(playerSelection);
    var computer := Normalize(computerSelection);
    if !IsValidChoice(player) || !IsValidChoice(computer) then InvalidChoice
    else if player == computer then Draw
    else if computer in WINNING_CONDITIONS[player] then HumanWins
    else ComputerWins
  }

  /** The string `playRound` returns for an outcome. */
  function Message(o: Outcome): string
  {
    match o
    case InvalidChoice => INVALID_MESSAGE
    case Draw => DRAW_MESSAGE
    case HumanWins => WIN_MESSAGE
    case ComputerWins => LOSE_MESSAGE
  }

  /** The value of `winner` after `playRound` ran with outcome `o`: only a win or
      a loss calls `setWinner`. */
  function WinnerAfter(o: Outcome, winner: string): string
  {
    match o
    case HumanWins => HUMAN
    case ComputerWins => COMPUTER
    case _ => winner
  }

  /** The outcome seen from the other player's side. */
  function Swap(o: Outcome): Outcome
  {
    match o
    case HumanWins => ComputerWins
    case ComputerWins => HumanWins
    case _ => o
  }

  // ---------------------------------------------------------------------------
  // An independent description of the rules: around the pentagon
  // Scissors, Paper, Rock, Lizard, Spock, each name beats the next one and the
  // one three places further on.

  const PENTAGON: seq<string> := ["Scissors", "Paper", "Rock", "Lizard", "Spock"]

  predicate PentagonBeats(i: int, j: int)
  {
    (j - i) % 5 == 1 || (j - i) % 5 == 3
  }

  // ---------------------------------------------------------------------------
  // Lemmas about the table.

  /** The table has exactly the five pentagon names as keys, every name it
      lists is a key, and it agrees with the pentagon rule. */
  lemma TableMatchesPentagon()
    ensures forall a :: a in WINNING_CONDITIONS <==> a in PENTAGON
    ensures forall a | a in WINNING_CONDITIONS :: forall b | b in WINNING_CONDITIONS[a] :: b in WINNING_CONDITIONS
    ensures forall i, j | 0 <= i < 5 && 0 <= j < 5 ::
      PENTAGON[j] in WINNING_CONDITIONS[PENTAGON[i]] <==> PentagonBeats(i, j)
  {
  }

  /** The names of the options are the pentagon, in order. */
  lemma OptionsArePentagon()
    ensures |OPTIONS| == 5
    ensures forall i | 0 <= i < 5 :: OPTIONS[i].name == PENTAGON[i]
    ensures forall i, j | 0 <= i < j < 5 :: OPTIONS[i] != OPTIONS[j]
  {
  }

  /** Every option's name is a key of the table, so the resolver never sees an
      invalid name from the board. */
  lemma OptionNamesAreValid(o: Option)
    requires o in OPTIONS
    ensures IsValidChoice(o.name)
    ensures Normalize(o.name) == o.name
    ensures Playable(o.name)
  {
    OptionsArePentagon();
    TableMatchesPentagon();
    var i :| 0 <= i < 5 && OPTIONS[i] == o;
    assert o.name == PENTAGON[i];
  }

  /** `winningConditions` is a tournament: no name beats itself, and of two
      distinct names exactly one beats the other. */
  lemma TableIsTournament()
    ensures forall a | a in WINNING_CONDITIONS :: a !in WINNING_CONDITIONS[a]
    ensures forall a, b | a in WINNING_CONDITIONS && b in WINNING_CONDITIONS && a != b ::
      (b in WINNING_CONDITIONS[a]) != (a in WINNING_CONDITIONS[b])
  {
    TableMatchesPentagon();
    forall a, b | a in WINNING_CONDITIONS && b in WINNING_CONDITIONS
      ensures a !in WINNING_CONDITIONS[a]
      ensures a != b ==> (b in WINNING_CONDITIONS[a]) != (a in WINNING_CONDITIONS[b])
    {
      var i :| 0 <= i < 5 && PENTAGON[i] == a;
      var j :| 0 <= j < 5 && PENTAGON[j] == b;
      assert !PentagonBeats(i, i);
      if a != b {
        assert i != j;
        assert PentagonBeats(i, j) != PentagonBeats(j, i);
      }
    }
  }

  // ---------------------------------------------------------------------------
  // Lemmas about normalisation.

  lemma CaseFoldingIdempotent(c: char)
    ensures ToUpper(ToUpper(c)) == ToUpper(c)
    ensures ToLower(ToLower(c)) == ToLower(c)
  {
  }

  /** Normalising twice is normalising once. */
  lemma NormalizeIdempotent(s: string)
    ensures Normalize(Normalize(s)) == Normalize(s)
  {
    if |s| > 0 {
      var n := Normalize(s);
      CaseFoldingIdempotent(s[0]);
      assert n[1..] == ToLowerCase(s[1..]);
      forall i | 0 <= i < |n| - 1
        ensures ToLowerCase(n[1..])[i] == n[1..][i]
      {
        CaseFoldingIdempotent(s[1..][i]);
      }
    }
  }

  /** Two names that agree up to the case of their letters normalise to the
      same name. */
  lemma NormalizeIgnoresCase(s: string, t: string)
    requires SameIgnoringCase(s, t)
    ensures Normalize(s) == Normalize(t)
  {
    if |s| > 0 {
      assert ToLower(s[0]) == ToLower(t[0]);
      assert ToUpper(s[0]) == ToUpper(t[0]);
      assert ToLowerCase(s[1..]) == ToLowerCase(t[1..]) by {
        forall i | 0 <= i < |s| - 1
          ensures ToLowerCase(s[1..])[i] == ToLowerCase(t[1..])[i]
        {
          assert s[1..][i] == s[i + 1] && t[1..][i] == t[i + 1];
        }
      }
    }
  }

  /** A character that is not an ASCII letter is left alone by normalisation,
      so a name with leading whitespace keeps it. */
  lemma NormalizeKeepsFirstNonLetter(s: string)
    requires |s| > 0 && !('a' <= s[0] <= 'z') && !('A' <= s[0] <= 'Z')
    ensures |Normalize(s)| == |s| && Normalize(s)[0] == s[0]
  {
  }

  // ---------------------------------------------------------------------------
  // Lemmas about the resolver.

  /** The outcome is decided by the normalised names alone. */
  lemma OutcomeOfNormalized(playerSelection: string, computerSelection: string)
    ensures RoundOutcome(Normalize(playerSelection), Normalize(computerSelection))
         == RoundOutcome(playerSelection, computerSelection)
  {
    NormalizeIdempotent(playerSelection);
    NormalizeIdempotent(computerSelection);
  }

  /** Changing the case of the letters of either name does not change the
      outcome. */
  lemma OutcomeIgnoresCase(p: string, p': string, c: string, c': string)
    requires SameIgnoringCase(p, p') && SameIgnoringCase(c, c')
    ensures RoundOutcome(p, c) == RoundOutcome(p', c')
  {
    NormalizeIgnoresCase(p, p');
    NormalizeIgnoresCase(c, c');
  }

  /** The invalid-choice message is returned exactly when one of the
      normalised names is not a key of the table. */
  lemma InvalidExactlyWhenUnknown(playerSelection: string, computerSelection: string)
    ensures RoundOutcome(playerSelection, computerSelection) == InvalidChoice
        <==> !IsValidChoice(Normalize(playerSelection)) || !IsValidChoice(Normalize(computerSelection))
  {
  }

  /** A name played against itself (up to normalisation) is a draw, and a draw
      happens only then. */
  lemma DrawExactlyWhenSame(playerSelection: string, computerSelection: string)
    requires IsValidChoice(Normalize(playerSelection)) && IsValidChoice(Normalize(computerSelection))
    ensures RoundOutcome(playerSelection, computerSelection) == Draw
        <==> Normalize(playerSelection) == Normalize(computerSelection)
  {
  }

  /** For valid names the resolver follows the pentagon rule: the player wins
      exactly when the player's name beats the computer's around the
      pentagon, and loses exactly when the computer's beats the player's. */
  lemma OutcomeFollowsPentagon(i: int, j: int)
    requires 0 <= i < 5 && 0 <= j < 5
    ensures RoundOutcome(PENTAGON[i], PENTAGON[j]) == HumanWins <==> PentagonBeats(i, j)
    ensures RoundOutcome(PENTAGON[i], PENTAGON[j]) == ComputerWins <==> PentagonBeats(j, i)
    ensures RoundOutcome(PENTAGON[i], PENTAGON[j]) == Draw <==> i == j
  {
    TableMatchesPentagon();
    TableIsTournament();
    OptionsArePentagon();
    OptionNamesAreValid(OPTIONS[i]);
    OptionNamesAreValid(OPTIONS[j]);
    assert !PentagonBeats(i, i);
    if i != j {
      assert PENTAGON[i] != PENTAGON[j];
      assert PentagonBeats(i, j) != PentagonBeats(j, i);
    }
  }

  /** Exchanging the two names exchanges win and lose, and keeps a draw a
      draw and an invalid choice invalid. */
  lemma SwapExchangesWinAndLose(playerSelection: string, computerSelection: string)
    ensures RoundOutcome(computerSelection, playerSelection)
         == Swap(RoundOutcome(playerSelection, computerSelection))
  {
    var p, c := Normalize(playerSelection), Normalize(computerSelection);
    if IsValidChoice(p) && IsValidChoice(c) && p != c {
      TableIsTournament();
    }
  }

  /** The message of an outcome determines the outcome. */
  lemma MessagesAreDistinct(o: Outcome, o': Outcome)
    ensures Message(o) == Message(o') <==> o == o'
  {
  }

  /** Starting from no winner, the winner is the human exactly when the
      message is "YOU WIN", the computer exactly when it is "YOU LOSE", and
      stays unset otherwise. */
  lemma WinnerMatchesMessage(o: Outcome)
    ensures WinnerAfter(o, NO_WINNER) == HUMAN <==> Message(o) == WIN_MESSAGE
    ensures WinnerAfter(o, NO_WINNER) == COMPUTER <==> Message(o) == LOSE_MESSAGE
    ensures WinnerAfter(o, NO_WINNER) == NO_WINNER <==> Message(o) in {DRAW_MESSAGE, INVALID_MESSAGE}
  {
  }

  /** Rounds between two options of the board are never invalid. */
  lemma OptionsNeverInvalid(a: Option, b: Option)
    requires a in OPTIONS && b in OPTIONS
    ensures RoundOutcome(a.name, b.name) != InvalidChoice
    ensures Message(RoundOutcome(a.name, b.name)) != INVALID_MESSAGE
  {
    OptionNamesAreValid(a);
    OptionNamesAreValid(b);
  }

  /** "Rock" against "Scissors" is a win, "Rock" against "Paper" a loss. */
  lemma SampleWinAndLoss()
    ensures RoundOutcome("Rock", "Scissors") == HumanWins
    ensures RoundOutcome("Rock", "Paper") == ComputerWins
  {
    OutcomeFollowsPentagon(2, 0);
    OutcomeFollowsPentagon(2, 1);
  }

  /** "Spock" against "Spock" is a draw. */
  lemma SampleDraw()
    ensures RoundOutcome("Spock", "Spock") == Draw
  {
    OutcomeFollowsPentagon(4, 4);
  }

  /** "rock" against "SCISSORS" is "Rock" against "Scissors". */
  lemma SampleMixedCase()
    ensures RoundOutcome("rock", "SCISSORS") == RoundOutcome("Rock", "Scissors") == HumanWins
  {
    assert SameIgnoringCase("rock", "Rock");
    assert SameIgnoringCase("SCISSORS", "Scissors");
    OutcomeIgnoresCase("rock", "Rock", "SCISSORS", "Scissors");
    SampleWinAndLoss();
  }

  /** Unknown names, the empty name and a name with a leading blank are all
      invalid choices. */
  lemma SampleInvalid()
    ensures RoundOutcome("Rock", "Banana") == InvalidChoice
    ensures RoundOutcome(" rock", "Rock") == InvalidChoice
    ensures RoundOutcome("", "Rock") == InvalidChoice
  {
    TableMatchesPentagon();
    assert Normalize("Banana")[0] == 'B' && |Normalize("Banana")| == 6;
    NormalizeKeepsFirstNonLetter(" rock");
  }
}
