/**
 * The game of script.js as the object it is in the source: the
 * module-level variables as fields that the handlers update in place.
 * Each method is tied, through Abs(), to the function of SimonState
 * that models the same handler; all but the mid-click helper GameOver
 * keep the invariant SimonState.Inv.
 */
module SimonGame {
  import opened SimonState

  class Game {
    var gameSequence: seq<Color>
    var playerSequence: seq<Color>
    var round: nat
    var isPlayerTurn: bool
    var gameStarted: bool
    /** The callback the browser still has to run (not a variable of the source). */
    ghost var pending: Timer

    ghost function Abs(): State
      reads this
    {
      State(gameSequence, playerSequence, round, isPlayerTurn, gameStarted, pending)
    }

    ghost predicate Valid()
      reads this
    {
      Inv(Abs())
    }

    /** The initial values of script.js:2-7. */
    constructor ()
      ensures Valid() && Abs() == Initial()
    {
      gameSequence := [];
      playerSequence := [];
      round := 0;
      isPlayerTurn := false;
      gameStarted := false;
      pending := NoTimer;
    }

    /** startGame (script.js:26-38); the start button is shown only while idle. */
    method StartGame(pick: nat)
      requires Valid() && pick < |Colors|
      requires !gameStarted && pending == NoTimer
      modifies this
      ensures Valid() && Abs() == SimonState.StartGame(old(Abs()), pick)
      ensures round == 1 && playerSequence == []
      ensures gameStarted && !isPlayerTurn
      ensures gameSequence == [Colors[pick]]
    {
      gameSequence := [];
      playerSequence := [];
      round := 0;
      gameStarted := true;
      isPlayerTurn := false;
      NextRound(pick);
    }

    /**
     * nextRound (script.js:41-61); `pick` is the random index of
     * script.js:47. Playback is then scheduled.
     */
    method NextRound(pick: nat)
      requires pick < |Colors|
      requires gameStarted && |gameSequence| == round < MaxRounds
      modifies this
      ensures Valid() && Abs() == SimonState.NextRound(old(Abs()), pick)
      ensures round == old(round) + 1
      ensures playerSequence == [] && !isPlayerTurn && gameStarted
      ensures gameSequence == old(gameSequence) + [Colors[pick]]
      ensures pending == PlaybackDue
    {
      round := round + 1;
      playerSequence := [];
      isPlayerTurn := false;
      var randomColor := Colors[pick];
      gameSequence := gameSequence + [randomColor];
      pending := PlaybackDue;
    }

    /**
     * playSequence (script.js:64-73): activates the pads of gameSequence
     * in index order, returned as `activated`, then schedules the
     * hand-off. Nothing else runs in between: clicks are ignored while
     * isPlayerTurn is false.
     */
    method PlaySequence() returns (activated: seq<Color>)
      requires Valid() && pending == PlaybackDue
      modifies this`pending
      ensures Valid() && Abs() == SimonState.PlaySequence(old(Abs()))
      ensures activated == gameSequence
      ensures pending == HandOffDue
    {
      var i := 0;
      activated := [];
      while i < |gameSequence|
        invariant 0 <= i <= |gameSequence|
        invariant activated == gameSequence[..i]
      {
        activated := activated + [gameSequence[i]];
        i := i + 1;
      }
      pending := HandOffDue;
    }

    /**
     * The hand-off callback (script.js:73-77): the player's turn begins;
     * `expected` is the number of clicks the status line asks for.
     */
    method PlaybackFinished() returns (expected: nat)
      requires Valid() && pending == HandOffDue
      modifies this
      ensures Valid() && Abs() == SimonState.PlaybackFinished(old(Abs()))
      ensures isPlayerTurn && pending == NoTimer
      ensures gameSequence == old(gameSequence) && playerSequence == old(playerSequence) == []
      ensures expected == |gameSequence| >= 1
    {
      isPlayerTurn := true;
      pending := NoTimer;
      expected := |gameSequence|;
    }

    /** handlePadClick (script.js:83-120). */
    method HandlePadClick(clickedColor: Color) returns (response: Response)
      requires Valid()
      modifies this
      ensures Valid() && (Abs(), response) == SimonState.HandlePadClick(old(Abs()), clickedColor)
      ensures gameSequence == old(gameSequence) && round == old(round)
      ensures response == Ignored <==> !old(isPlayerTurn) || !old(gameStarted)
      ensures response == Ignored ==> Abs() == old(Abs())
      ensures response != Ignored ==> playerSequence == old(playerSequence) + [clickedColor]
      ensures response == GameLost <==>
        response != Ignored && clickedColor != gameSequence[|old(playerSequence)|]
      ensures response == GameWon || response == GameLost ==>
        !gameStarted && !isPlayerTurn && pending == ResetDue
      ensures response == GameWon ==> round == MaxRounds && playerSequence == gameSequence
      ensures response == RoundCleared ==>
        round < MaxRounds && playerSequence == gameSequence && !isPlayerTurn && pending == NextRoundDue
      ensures response.MoreClicks? ==>
        isPlayerTurn && response.remaining == |gameSequence| - |playerSequence| >= 1
    {
      if !isPlayerTurn || !gameStarted {
        return Ignored;
      }
      ghost var s := Abs();
      playerSequence := playerSequence + [clickedColor];
      var currentIndex := |playerSequence| - 1;
      assert playerSequence[..currentIndex] == s.playerSequence;
      if currentIndex >= |gameSequence| || playerSequence[currentIndex] != gameSequence[currentIndex] {
        GameOver();
        return GameLost;
      }
      assert playerSequence == gameSequence[..currentIndex + 1];
      if |playerSequence| == |gameSequence| {
        isPlayerTurn := false;
        if round == MaxRounds {
          GameOver();
          response := GameWon;
        } else {
          pending := NextRoundDue;
          response := RoundCleared;
        }
      } else {
        var remaining := |gameSequence| - |playerSequence|;
        response := MoreClicks(remaining);
      }
    }

    /**
     * The state-changing part of gameOver (script.js:147-149), which
     * schedules the auto-reset (script.js:163-165).
     */
    method GameOver()
      requires pending == NoTimer
      modifies this
      ensures Abs() == SimonState.GameOver(old(Abs()))
      ensures !gameStarted && !isPlayerTurn && pending == ResetDue
      ensures gameSequence == old(gameSequence) && playerSequence == old(playerSequence)
      ensures round == old(round)
    {
      gameStarted := false;
      isPlayerTurn := false;
      pending := ResetDue;
    }

    /** The round-transition callback (script.js:111-113). */
    method RoundTransitionFired(pick: nat)
      requires Valid() && pick < |Colors| && pending == NextRoundDue
      modifies this
      ensures Valid() && Abs() == Step(old(Abs()), RoundTimerFired(pick))
      ensures round == old(round) + 1 <= MaxRounds
      ensures gameSequence == old(gameSequence) + [Colors[pick]]
    {
      NextRound(pick);
    }

    /** The auto-reset callback (script.js:163-165). */
    method AutoResetFired()
      requires Valid() && pending == ResetDue
      modifies this
      ensures Valid() && Abs() == Step(old(Abs()), ResetTimerFired)
      ensures Abs() == Initial()
    {
      ResetGame();
    }

    /** resetGame (script.js:169-174); reached only once no game is running. */
    method ResetGame()
      requires Valid() && !gameStarted
      modifies this
      ensures Valid() && Abs() == SimonState.ResetGame(old(Abs()))
      ensures gameSequence == [] && playerSequence == [] && round == 0
      ensures !gameStarted && !isPlayerTurn && pending == NoTimer
      ensures Abs() == Initial()
    {
      gameSequence := [];
      playerSequence := [];
      round := 0;
      gameStarted := false;
      isPlayerTurn := false;
      pending := NoTimer;
    }
  }

  /**
   * A client driving one round through the methods' contracts alone:
   * start, playback, a wrong click, a stray click, the auto-reset. The
   * extra ResetGame call at the end is not made by the source; it only
   * shows that a second reset changes nothing.
   */
  method LoseFirstRound()
  {
    var g := new Game();
    g.StartGame(0);
    var shown := g.PlaySequence();
    assert shown == [Red];
    var expected := g.PlaybackFinished();
    assert expected == 1;
    var r := g.HandlePadClick(Blue);
    assert r == GameLost && g.playerSequence == [Blue];
    r := g.HandlePadClick(Red);
    assert r == Ignored && g.playerSequence == [Blue];
    g.AutoResetFired();
    g.ResetGame();
    assert g.Abs() == Initial();
  }
}
