/**
 The per-round state of the game component and its transitions: selecting an
 option starts the reveal (shuffle the options, start the interval), each
 interval tick flashes the next shuffled option and, once the flash window
 has passed, settles on a final option and resolves the round; "Play Again"
 clears the round, and unmounting the component cancels the interval.

 The sources of nondeterminism are parameters: the permutation left behind by
 the random-comparator sort, the clock reading at the start and at each tick,
 and the final index drawn from `Math.random`.  The interval itself is the
 boolean `timerActive`: a tick delivered while it is false does nothing.
 */
module AppState {
  import opened Rules
  import opened Shuffle

  /** A state value that may be `null`. */
  datatype Nullable<T> = Null | Some(value: T)

  /** Length of the flash window, in milliseconds. */
  const FLASH_DURATION := 2000
  /** Period of the interval, in milliseconds.  The scheduler is not
      modelled; the scenarios below tick at multiples of this period. */
  const FLASH_INTERVAL := 200

  class App {
    /** The module-level options array; the reveal effect sorts it in place and
        uses it, under the name of the shuffled options, as the flash cycle. */
    const options: array<Option>

    var selectedOption: Nullable<Option>
    var flashingOption: Nullable<Option>
    var finalOption: Nullable<Option>
    var resultMessage: Nullable<string>
    var winner: string

    /** Whether the interval of the current reveal is still scheduled. */
    var timerActive: bool
    /** The reveal's position in the flash cycle. */
    var index: nat
    /** The clock reading when the reveal started. */
    var startTime: int

    /** The object invariant: the options array holds options of the game,
        and the round state is consistent. */
    ghost predicate Valid()
      reads this, options
    {
      BoardValid() && RoundValid()
    }

    /** The options array holds five options of the game. */
    ghost predicate BoardValid()
      reads options
    {
      && options.Length == |OPTIONS|
      && (forall o | o in options[..] :: o in OPTIONS)
    }

    /** Without a selection the round is empty; a running reveal has not
        settled yet; a settled round carries a draw, win or lose message, and
        the winner is the human exactly after "YOU WIN" and the computer
        exactly after "YOU LOSE". */
    ghost predicate RoundValid()
      reads this
    {
      && index < options.Length
      && (selectedOption.Some? ==> Playable(selectedOption.value.name))
      && (flashingOption.Some? ==> flashingOption.value in OPTIONS)
      && (selectedOption == Null ==>
            !timerActive && flashingOption == Null && finalOption == Null && resultMessage == Null)
      && (timerActive ==> finalOption == Null)
      && (finalOption == Null <==> resultMessage == Null)
      && (resultMessage.Some? ==> resultMessage.value in {WIN_MESSAGE, LOSE_MESSAGE, DRAW_MESSAGE})
      && (winner == HUMAN <==> resultMessage == Some(WIN_MESSAGE))
      && (winner == COMPUTER <==> resultMessage == Some(LOSE_MESSAGE))
      && winner in {NO_WINNER, HUMAN, COMPUTER}
    }

    /** Elements of the options array are options of the game. */
    lemma OptionsElement(i: int)
      requires Valid() && 0 <= i < options.Length
      ensures options[i] in OPTIONS
    {
      assert options[i] in options[..];
    }

    /** Elements of the options array have names the resolver accepts. */
    lemma PlayableElement(i: int)
      requires Valid() && 0 <= i < options.Length
      ensures Playable(options[i].name)
    {
      OptionsElement(i);
      OptionNamesAreValid(options[i]);
    }

    /** In a consistent state the message on display is never the invalid-choice
        message: both names of a round always come from the board. */
    lemma ResultNeverInvalid()
      requires Valid()
      ensures resultMessage.Some? ==> resultMessage.value != INVALID_MESSAGE
    {
    }

    /** Mounting the component: every piece of round state starts out empty.
        The options array is shared by every mount and may already have been
        shuffled by an earlier one. */
    constructor (options: array<Option>)
      requires options.Length == |OPTIONS|
      requires forall o | o in options[..] :: o in OPTIONS
      ensures Valid() && this.options == options && options[..] == old(options[..])
      ensures selectedOption == Null && flashingOption == Null && finalOption == Null
      ensures resultMessage == Null && winner == NO_WINNER && !timerActive
    {
      this.options := options;
      selectedOption, flashingOption, finalOption := Null, Null, Null;
      resultMessage, winner := Null, NO_WINNER;
      timerActive, index, startTime := false, 0, 0;
    }

    /** `playRound`: normalise both names, reject unknown ones, and otherwise
        report a draw, a win or a loss, recording the winner of a decided
        round. */
    method PlayRound(playerSelection: string, computerSelection: string) returns (message: string)
      modifies this`winner
      ensures message == Message(RoundOutcome(playerSelection, computerSelection))
      ensures winner == WinnerAfter(RoundOutcome(playerSelection, computerSelection), old(winner))
    {
      var player := Normalize(playerSelection);
      var computer := Normalize(computerSelection);
      if player !in WINNING_CONDITIONS || computer !in WINNING_CONDITIONS {
        return INVALID_MESSAGE;
      }
      if player == computer {
        return DRAW_MESSAGE;
      }
      if computer in WINNING_CONDITIONS[player] {
        winner := HUMAN;
        return WIN_MESSAGE;
      } else {
        winner := COMPUTER;
        return LOSE_MESSAGE;
      }
    }

    /** Clicking an option (offered only while nothing is selected) selects
        it, and the reveal effect starts: the options are shuffled in place,
        the cycle starts at position 0, the clock is read and the interval is
        scheduled. */
    method Select(option: Option, perm: seq<nat>, now: int)
      requires Valid() && selectedOption == Null
      requires option in OPTIONS
      requires IsPermutation(perm, options.Length)
      modifies this, options
      ensures Valid()
      ensures options[..] == Permute(old(options[..]), perm)
      ensures selectedOption == Some(option)
      ensures timerActive && index == 0 && startTime == now
      ensures flashingOption == Null && finalOption == Null && resultMessage == Null
      ensures winner == old(winner) == NO_WINNER
    {
      OptionNamesAreValid(option);
      ShuffleOptions(perm);
      selectedOption, index, startTime, timerActive := Some(option), 0, now, true;
    }

    /** `options.sort(() => Math.random() - 0.5)`: the options array is
        rearranged in place by the permutation the sort happened to produce. */
    method ShuffleOptions(perm: seq<nat>)
      requires BoardValid() && IsPermutation(perm, options.Length)
      modifies options
      ensures BoardValid()
      ensures options[..] == Permute(old(options[..]), perm)
      ensures multiset(options[..]) == multiset(old(options[..]))
    {
      var before := options[..];
      forall i | 0 <= i < options.Length {
        options[i] := before[perm[i]];
      }
      assert options[..] == Permute(before, perm);
      PermutePreservesMultiset(before, perm);
      PermuteSameElements(before, perm);
    }

    /** One firing of the interval at clock reading `now`.  A tick of a
        cancelled interval changes nothing.  Otherwise the option at the
        current position flashes and the position advances cyclically; once
        more than the flash window has elapsed the interval is cancelled, the
        option at `finalIndex` becomes final and the round is resolved. */
    method Tick(now: int, finalIndex: nat)
      requires Valid()
      requires finalIndex < options.Length
      modifies this
      ensures Valid()
      ensures !old(timerActive) ==> unchanged(this)
      ensures old(timerActive) ==>
        && flashingOption == Some(options[old(index)])
        && index == (old(index) + 1) % options.Length
        && selectedOption == old(selectedOption)
        && startTime == old(startTime)
      ensures old(timerActive) && now - startTime > FLASH_DURATION ==>
        && !timerActive
        && finalOption == Some(options[finalIndex])
        && resultMessage == Some(Message(RoundOutcome(selectedOption.value.name, options[finalIndex].name)))
        && winner == WinnerAfter(RoundOutcome(selectedOption.value.name, options[finalIndex].name), NO_WINNER)
      ensures old(timerActive) && now - startTime <= FLASH_DURATION ==>
        && timerActive
        && finalOption == old(finalOption) == Null
        && resultMessage == old(resultMessage) == Null
        && winner == old(winner)
      ensures old(finalOption).Some? ==> finalOption == old(finalOption)
    {
      if timerActive {
        Flash();
        if now - startTime > FLASH_DURATION {
          Settle(finalIndex);
        }
      }
    }

    /** The flashing part of a tick: the option at the current position
        flashes and the position moves on, wrapping around at the end. */
    method Flash()
      requires Valid() && timerActive
      modifies this`flashingOption, this`index
      ensures Valid() && timerActive
      ensures flashingOption == Some(options[old(index)])
      ensures index == (old(index) + 1) % options.Length
    {
      OptionsElement(index);
      flashingOption := Some(options[index]);
      index := (index + 1) % options.Length;
    }

    /** The settling part of a tick: the interval is cancelled, the option at
        `finalIndex` becomes final, and the selected option is played against
        it. */
    method Settle(finalIndex: nat)
      requires Valid() && timerActive
      requires finalIndex < options.Length
      modifies this
      ensures Valid() && !timerActive
      ensures finalOption == Some(options[finalIndex])
      ensures resultMessage == Some(Message(RoundOutcome(selectedOption.value.name, options[finalIndex].name)))
      ensures winner == WinnerAfter(RoundOutcome(selectedOption.value.name, options[finalIndex].name), NO_WINNER)
      ensures selectedOption == old(selectedOption) && flashingOption == old(flashingOption)
      ensures index == old(index) && startTime == old(startTime)
    {
      timerActive := false;
      PlayableElement(finalIndex);
      finalOption := Some(options[finalIndex]);
      var result := PlayRound(selectedOption.value.name, options[finalIndex].name);
      resultMessage := Some(result);
      SettledRoundValid();
    }

    /** A settled round whose message and winner are those of the outcome of
        two playable names satisfies the round invariant. */
    lemma SettledRoundValid()
      requires index < options.Length && !timerActive
      requires selectedOption.Some? && Playable(selectedOption.value.name)
      requires flashingOption.Some? ==> flashingOption.value in OPTIONS
      requires finalOption.Some? && Playable(finalOption.value.name)
      requires resultMessage == Some(Message(RoundOutcome(selectedOption.value.name, finalOption.value.name)))
      requires winner == WinnerAfter(RoundOutcome(selectedOption.value.name, finalOption.value.name), NO_WINNER)
      ensures RoundValid()
    {
      WinnerMatchesMessage(RoundOutcome(selectedOption.value.name, finalOption.value.name));
    }

    /** `handlePlayAgain`: every piece of round state is cleared.  Clearing the
        selection runs the reveal effect's cleanup, which cancels its
        interval. */
    method PlayAgain()
      requires Valid()
      modifies this
      ensures Valid()
      ensures selectedOption == Null && flashingOption == Null && finalOption == Null
      ensures resultMessage == Null && winner == NO_WINNER && !timerActive
      ensures index == old(index) && startTime == old(startTime)
    {
      var hadSelection := selectedOption.Some?;
      selectedOption := Null;
      flashingOption := Null;
      finalOption := Null;
      resultMessage := Null;
      winner := NO_WINNER;
      if hadSelection {
        timerActive := false;
      }
    }

    /** Unmounting the component runs the effect's cleanup: the interval is
        cancelled and nothing else changes. */
    method Teardown()
      requires Valid()
      modifies this`timerActive
      ensures Valid() && !timerActive
    {
      timerActive := false;
    }
  }

  /** A whole round: the player picks Lizard, the interval fires until the
      flash window has passed, and the round settles on the shuffled option
      at `finalIndex`; a later tick leaves the final option and the message
      as they were. */
  method LizardRound(perm: seq<nat>, finalIndex: nat)
    returns (final: Option, message: string, later: Nullable<Option>, laterMessage: Nullable<string>)
    requires IsPermutation(perm, |OPTIONS|) && finalIndex < |OPTIONS|
    ensures final == OPTIONS[perm[finalIndex]]
    ensures message == Message(RoundOutcome("Lizard", final.name))
    ensures message != INVALID_MESSAGE
    ensures later == Some(final) && laterMessage == Some(message)
  {
    var options := new Option[5](i requires 0 <= i < 5 => OPTIONS[i]);
    assert options[..] == OPTIONS;
    var app := new App(options);
    app.Select(OPTIONS[3], perm, 0);
    app.Tick(FLASH_INTERVAL, finalIndex);
    assert app.finalOption == Null;
    app.Tick(FLASH_DURATION + 1, finalIndex);
    final := app.finalOption.value;
    message := app.resultMessage.value;
    app.ResultNeverInvalid();
    app.Tick(FLASH_DURATION + 1 + FLASH_INTERVAL, 0);
    later, laterMessage := app.finalOption, app.resultMessage;
  }

  /** Unmounting in the middle of the reveal: no later tick flashes another
      option or settles the round. */
  method TeardownWhileFlashing(perm: seq<nat>, finalIndex: nat) returns (before: Nullable<Option>, after: Nullable<Option>, settled: bool)
    requires IsPermutation(perm, |OPTIONS|) && finalIndex < |OPTIONS|
    ensures before.Some? && before == after
    ensures !settled
  {
    var options := new Option[5](i requires 0 <= i < 5 => OPTIONS[i]);
    assert options[..] == OPTIONS;
    var app := new App(options);
    var scissors := options[0];
    app.Select(scissors, perm, 0);
    app.Tick(FLASH_INTERVAL, finalIndex);
    assert app.finalOption == Null;
    before := app.flashingOption;
    app.Teardown();
    app.Tick(2 * FLASH_INTERVAL, finalIndex);
    assert app.flashingOption == before && app.finalOption == Null;
    app.Tick(5000, finalIndex);
    after := app.flashingOption;
    settled := app.finalOption.Some?;
  }
}
