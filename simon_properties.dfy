/**
 * What the Simon-says handlers of script.js promise, proved on the
 * value-level model: one lemma per handler, the invariant on every
 * reachable state, and properties of whole runs.
 */
module SimonProperties {
  import opened SimonState

  /** The state after the player clicks `cs`, one pad after the other. */
  function AfterClicks(s: State, cs: seq<Color>): State
    decreases |cs|
  {
    if cs == [] then s else AfterClicks(HandlePadClick(s, cs[0]).0, cs[1..])
  }

  // ---------------------------------------------------------------------
  // One handler at a time
  // ---------------------------------------------------------------------

  /** startGame begins round 1 with a one-colour sequence (script.js:26-38, 41-48). */
  lemma StartGameBeginsRoundOne(s: State, pick: nat)
    requires pick < |Colors|
    ensures var r := StartGame(s, pick);
      && r.round == 1
      && r.playerSequence == []
      && r.gameStarted && !r.isPlayerTurn
      && |r.gameSequence| == 1 && r.gameSequence[0] == Colors[pick]
      && r.pending == PlaybackDue
      && Inv(r)
  {
  }

  /**
   * nextRound adds one colour and keeps what was there
   * (script.js:41-48).
   */
  lemma NextRoundAppendsOne(s: State, pick: nat)
    requires pick < |Colors|
    ensures var r := NextRound(s, pick);
      && r.round == s.round + 1
      && r.playerSequence == [] && !r.isPlayerTurn
      && |r.gameSequence| == |s.gameSequence| + 1
      && r.gameSequence[..|s.gameSequence|] == s.gameSequence
      && r.gameSequence[|s.gameSequence|] in Colors
      && (|s.gameSequence| == s.round ==> |r.gameSequence| == r.round)
  {
  }

  /** A stray click changes nothing (script.js:84). */
  lemma StrayClickIgnored(s: State, c: Color)
    requires !s.isPlayerTurn || !s.gameStarted
    ensures HandlePadClick(s, c) == (s, Ignored)
  {
  }

  /**
   * A wrong click loses (script.js:87-97, 147-149): the game stops,
   * the wrong colour is kept and the next click is ignored.
   */
  lemma WrongClickLoses(s: State, c: Color)
    requires Inv(s) && s.isPlayerTurn
    requires c != s.gameSequence[|s.playerSequence|]
    ensures var (r, resp) := HandlePadClick(s, c);
      && resp == GameLost
      && !r.gameStarted && !r.isPlayerTurn && r.pending == ResetDue
      && r.playerSequence == s.playerSequence + [c]
      && r.gameSequence == s.gameSequence && r.round == s.round
      && forall c' :: HandlePadClick(r, c') == (r, Ignored)
  {
  }

  /**
   * A click is a loss exactly when it is accepted and differs from the
   * colour at the same index (script.js:93-97).
   */
  lemma ClickLosesIff(s: State, c: Color)
    requires Inv(s)
    ensures HandlePadClick(s, c).1 == GameLost <==>
      (s.isPlayerTurn && s.gameStarted && c != s.gameSequence[|s.playerSequence|])
  {
  }

  /**
   * A right click that completes the sequence wins on the last round and
   * otherwise only schedules nextRound (script.js:101-114).
   */
  lemma CompletingClick(s: State, c: Color)
    requires Inv(s) && s.isPlayerTurn
    requires |s.playerSequence| + 1 == |s.gameSequence|
    requires c == s.gameSequence[|s.playerSequence|]
    ensures var (r, resp) := HandlePadClick(s, c);
      && !r.isPlayerTurn
      && r.playerSequence == s.gameSequence
      && r.gameSequence == s.gameSequence && r.round == s.round
      && (s.round == MaxRounds ==> resp == GameWon && !r.gameStarted && r.pending == ResetDue)
      && (s.round < MaxRounds ==> resp == RoundCleared && r.gameStarted && r.pending == NextRoundDue)
  {
    assert s.playerSequence + [c] == s.gameSequence[..|s.playerSequence| + 1];
  }

  /**
   * A right click that does not complete the sequence keeps the turn and
   * reports at least one click left (script.js:93-94, 115-118).
   */
  lemma PartialClick(s: State, c: Color)
    requires Inv(s) && s.isPlayerTurn
    requires |s.playerSequence| + 1 < |s.gameSequence|
    requires c == s.gameSequence[|s.playerSequence|]
    ensures var (r, resp) := HandlePadClick(s, c);
      && r.isPlayerTurn && r.gameStarted
      && r.playerSequence == s.playerSequence + [c]
      && IsStrictPrefix(r.playerSequence, r.gameSequence)
      && resp == MoreClicks(|s.gameSequence| - |r.playerSequence|)
      && resp.remaining >= 1
      && r.gameSequence == s.gameSequence && r.round == s.round
  {
    assert s.playerSequence + [c] == s.gameSequence[..|s.playerSequence| + 1];
  }

  /** No click ever changes the sequence or the round (script.js:83-120). */
  lemma ClickKeepsSequence(s: State, c: Color)
    ensures HandlePadClick(s, c).0.gameSequence == s.gameSequence
    ensures HandlePadClick(s, c).0.round == s.round
  {
  }

  /**
   * resetGame restores the initial state, so a second reset changes
   * nothing (script.js:2-7, 169-174).
   */
  lemma ResetRestoresInitial(s: State)
    ensures ResetGame(s) == Initial()
    ensures ResetGame(ResetGame(s)) == ResetGame(s)
  {
  }

  /**
   * The player's turn begins only through the hand-off callback, and that
   * callback is scheduled only when playback has run (script.js:64-77).
   */
  lemma TurnBeginsAfterPlayback(s: State, e: Event)
    requires Enabled(s, e)
    ensures !s.isPlayerTurn && Step(s, e).isPlayerTurn ==>
      e == HandOffFired && s.pending == HandOffDue
    ensures s.pending != HandOffDue && Step(s, e).pending == HandOffDue ==>
      e == PlaybackRan && s.pending == PlaybackDue
  {
  }

  /**
   * After a round is cleared the only thing that can change the state is
   * the round-transition callback (script.js:102, 111-113).
   */
  lemma RoundClearedLeadsOnlyToNextRound(s: State, e: Event)
    requires Inv(s) && s.pending == NextRoundDue && Enabled(s, e)
    ensures e.RoundTimerFired? || Step(s, e) == s
  {
  }

  // ---------------------------------------------------------------------
  // The invariant
  // ---------------------------------------------------------------------

  lemma InitialInv()
    ensures Inv(Initial())
  {
  }

  lemma ClickPreservesInv(s: State, c: Color)
    requires Inv(s)
    ensures Inv(HandlePadClick(s, c).0)
  {
    if s.isPlayerTurn && s.gameStarted {
      var ps := s.playerSequence + [c];
      var k := |s.playerSequence|;
      assert ps[..k] == s.playerSequence;
      if c == s.gameSequence[k] {
        assert ps == s.gameSequence[..k + 1];
      }
    }
  }

  /** Every enabled event keeps the invariant. */
  lemma StepPreservesInv(s: State, e: Event)
    requires Inv(s) && Enabled(s, e)
    ensures Inv(Step(s, e))
  {
    match e
    case PadClicked(c) => ClickPreservesInv(s, c);
    case _ =>
  }

  lemma {:induction false} RunPreservesInv(s: State, evs: seq<Event>)
    requires Inv(s) && Trace(s, evs)
    ensures Inv(Run(s, evs))
    decreases |evs|
  {
    if evs != [] {
      StepPreservesInv(s, evs[0]);
      RunPreservesInv(Step(s, evs[0]), evs[1..]);
    }
  }

  /**
   * In every state the game can reach: the sequence is as long as the
   * round number, the round never exceeds maxRounds, and during the
   * player's turn the input is a proper prefix of the sequence.
   */
  lemma ReachableStates(evs: seq<Event>)
    requires Trace(Initial(), evs)
    ensures var r := Run(Initial(), evs);
      && |r.gameSequence| == r.round
      && r.round <= MaxRounds
      && |r.playerSequence| <= |r.gameSequence|
      && (r.isPlayerTurn ==> IsStrictPrefix(r.playerSequence, r.gameSequence))
  {
    InitialInv();
    RunPreservesInv(Initial(), evs);
  }

  // ---------------------------------------------------------------------
  // Whole runs
  // ---------------------------------------------------------------------

  /** Between two new rounds, nothing touches the sequence. */
  lemma {:induction false} SequenceFrozenBetweenRounds(s: State, evs: seq<Event>)
    requires Trace(s, evs)
    requires forall i :: 0 <= i < |evs| ==>
      !evs[i].StartClicked? && !evs[i].RoundTimerFired? && !evs[i].ResetTimerFired?
    ensures Run(s, evs).gameSequence == s.gameSequence
    ensures Run(s, evs).round == s.round
    decreases |evs|
  {
    if evs != [] {
      SequenceFrozenBetweenRounds(Step(s, evs[0]), evs[1..]);
    }
  }

  /**
   * Within one game the sequence only grows at its end, one colour per
   * round.
   */
  lemma {:induction false} SequenceOnlyGrows(s: State, evs: seq<Event>)
    requires Trace(s, evs)
    requires forall i :: 0 <= i < |evs| ==> !evs[i].StartClicked? && !evs[i].ResetTimerFired?
    ensures var r := Run(s, evs);
      && s.gameSequence <= r.gameSequence
      && |r.gameSequence| - |s.gameSequence| == r.round - s.round
    decreases |evs|
  {
    if evs != [] {
      var t := Step(s, evs[0]);
      SequenceOnlyGrows(t, evs[1..]);
      assert s.gameSequence <= t.gameSequence;
    }
  }

  /**
   * Once the game is over nothing but the auto-reset changes the state:
   * every click is ignored and no other callback can run.
   */
  lemma {:induction false} GameOverIsFrozen(s: State, evs: seq<Event>)
    requires Inv(s) && s.pending == ResetDue && Trace(s, evs)
    requires forall i :: 0 <= i < |evs| ==> !evs[i].ResetTimerFired?
    ensures Run(s, evs) == s
    decreases |evs|
  {
    if evs != [] {
      assert evs[0].PadClicked?;
      GameOverIsFrozen(Step(s, evs[0]), evs[1..]);
    }
  }

  /**
   * Clicking the rest of the sequence from where the player stands
   * completes the round: a win on the last round, otherwise the round
   * transition.
   */
  lemma {:induction false} RestOfRoundCompletes(s: State, k: nat)
    requires Inv(s) && s.isPlayerTurn
    requires k == |s.playerSequence|
    ensures var r := AfterClicks(s, s.gameSequence[k..]);
      && r.playerSequence == s.gameSequence
      && r.gameSequence == s.gameSequence
      && !r.isPlayerTurn
      && (s.round == MaxRounds ==> !r.gameStarted && r.pending == ResetDue)
      && (s.round < MaxRounds ==> r.gameStarted && r.pending == NextRoundDue)
    decreases |s.gameSequence| - k
  {
    var c := s.gameSequence[k];
    var t := HandlePadClick(s, c).0;
    assert s.gameSequence[k..][1..] == s.gameSequence[k + 1..];
    if k + 1 == |s.gameSequence| {
      CompletingClick(s, c);
      assert s.gameSequence[k + 1..] == [];
    } else {
      PartialClick(s, c);
      ClickPreservesInv(s, c);
      RestOfRoundCompletes(t, k + 1);
    }
  }

  /** The correct input for a whole round completes it. */
  lemma CorrectRoundCompletes(s: State)
    requires Inv(s) && s.isPlayerTurn && s.playerSequence == []
    ensures var r := AfterClicks(s, s.gameSequence);
      && r.playerSequence == s.gameSequence
      && !r.isPlayerTurn
      && (s.round == MaxRounds ==> !r.gameStarted && r.pending == ResetDue)
      && (s.round < MaxRounds ==> r.gameStarted && r.pending == NextRoundDue)
  {
    RestOfRoundCompletes(s, 0);
    assert s.gameSequence[0..] == s.gameSequence;
  }

  /**
   * Right clicks from where the player stands up to index m, then a wrong
   * one, lose at once.
   */
  lemma {:induction false} MistakeAfterRightClicksLoses(s: State, k: nat, m: nat, c: Color)
    requires Inv(s) && s.isPlayerTurn
    requires k == |s.playerSequence| <= m < |s.gameSequence|
    requires c != s.gameSequence[m]
    ensures var r := AfterClicks(s, s.gameSequence[k..m] + [c]);
      && r.playerSequence == s.gameSequence[..m] + [c]
      && !r.gameStarted && !r.isPlayerTurn && r.pending == ResetDue
    decreases m - k
  {
    var cs := s.gameSequence[k..m] + [c];
    if k == m {
      assert cs == [c];
      assert s.playerSequence == s.gameSequence[..m];
      WrongClickLoses(s, c);
    } else {
      var d := s.gameSequence[k];
      var t := HandlePadClick(s, d).0;
      assert cs[0] == d && cs[1..] == s.gameSequence[k + 1..m] + [c];
      PartialClick(s, d);
      ClickPreservesInv(s, d);
      MistakeAfterRightClicksLoses(t, k + 1, m, c);
    }
  }

  /**
   * A wrong colour at any position of a round loses, however many right
   * ones came before it, and the wrong colour is kept.
   */
  lemma WrongClickAnywhereLoses(s: State, m: nat, c: Color)
    requires Inv(s) && s.isPlayerTurn && s.playerSequence == []
    requires m < |s.gameSequence| && c != s.gameSequence[m]
    ensures var r := AfterClicks(s, s.gameSequence[..m] + [c]);
      && r.playerSequence == s.gameSequence[..m] + [c]
      && !r.gameStarted && !r.isPlayerTurn && r.pending == ResetDue
  {
    MistakeAfterRightClicksLoses(s, 0, m, c);
    assert s.gameSequence[0..m] == s.gameSequence[..m];
  }

  /** Running two traces one after the other is running their concatenation. */
  lemma {:induction false} RunConcat(s: State, a: seq<Event>, b: seq<Event>)
    requires Trace(s, a) && Trace(Run(s, a), b)
    ensures Trace(s, a + b) && Run(s, a + b) == Run(Run(s, a), b)
    decreases |a|
  {
    if a != [] {
      assert (a + b)[0] == a[0] && (a + b)[1..] == a[1..] + b;
      RunConcat(Step(s, a[0]), a[1..], b);
    } else {
      assert a + b == b;
    }
  }

  /** A single enabled event is a trace. */
  lemma RunSingle(s: State, e: Event)
    requires Enabled(s, e)
    ensures Trace(s, [e]) && Run(s, [e]) == Step(s, e)
  {
    assert [e][1..] == [];
  }

  /** The pad clicks `cs` as events. */
  function ClickEvents(cs: seq<Color>): seq<Event>
    decreases |cs|
  {
    if cs == [] then [] else [PadClicked(cs[0])] + ClickEvents(cs[1..])
  }

  /** Pad clicks are always enabled, and running them is AfterClicks. */
  lemma {:induction false} ClickEventsRun(s: State, cs: seq<Color>)
    ensures Trace(s, ClickEvents(cs)) && Run(s, ClickEvents(cs)) == AfterClicks(s, cs)
    decreases |cs|
  {
    if cs != [] {
      var evs := ClickEvents(cs);
      ClickEventsRun(HandlePadClick(s, cs[0]).0, cs[1..]);
      assert evs[0] == PadClicked(cs[0]) && evs[1..] == ClickEvents(cs[1..]);
    }
  }

  // ---------------------------------------------------------------------
  // Complete games
  // ---------------------------------------------------------------------

  /** The colours that the draws `picks` put into the sequence. */
  function Drawn(picks: seq<nat>): seq<Color>
    requires forall i :: 0 <= i < |picks| ==> picks[i] < |Colors|
  {
    seq(|picks|, i requires 0 <= i < |picks| => Colors[picks[i]])
  }

  /** Each further draw appends its colour, as nextRound does (script.js:47-48). */
  lemma DrawnExtends(picks: seq<nat>, n: nat)
    requires 1 <= n <= |picks|
    requires forall i :: 0 <= i < |picks| ==> picks[i] < |Colors|
    ensures Drawn(picks[..n]) == Drawn(picks[..n - 1]) + [Colors[picks[n - 1]]]
    ensures n == 1 ==> Drawn(picks[..n]) == [Colors[picks[0]]]
  {
    var a, b := Drawn(picks[..n]), Drawn(picks[..n - 1]) + [Colors[picks[n - 1]]];
    assert |a| == |b|;
    forall i | 0 <= i < |a| ensures a[i] == b[i] {
      if i < n - 1 {
        assert b[i] == Drawn(picks[..n - 1])[i];
      }
    }
  }

  /** Playback, hand-off and a perfect repetition of `gs`. */
  function PlayRound(gs: seq<Color>): seq<Event> {
    [PlaybackRan, HandOffFired] + ClickEvents(gs)
  }

  /** One round, from the draw to the last click, played without a mistake. */
  lemma PerfectRound(s: State)
    requires Inv(s) && s.pending == PlaybackDue
    ensures Trace(s, PlayRound(s.gameSequence))
    ensures var r := Run(s, PlayRound(s.gameSequence));
      && r.gameSequence == s.gameSequence && r.round == s.round
      && r.playerSequence == s.gameSequence
      && !r.isPlayerTurn
      && (s.round == MaxRounds ==> !r.gameStarted && r.pending == ResetDue)
      && (s.round < MaxRounds ==> r.gameStarted && r.pending == NextRoundDue)
  {
    var h := [PlaybackRan, HandOffFired];
    var t := PlaybackFinished(PlaySequence(s));
    assert Trace(s, h) && Run(s, h) == t;
    StepPreservesInv(s, PlaybackRan);
    StepPreservesInv(PlaySequence(s), HandOffFired);
    ClickEventsRun(t, s.gameSequence);
    CorrectRoundCompletes(t);
    RunConcat(s, h, ClickEvents(s.gameSequence));
    ClickKeepsSequenceAll(t, s.gameSequence);
  }

  /** Clicks never change the sequence or the round. */
  lemma {:induction false} ClickKeepsSequenceAll(s: State, cs: seq<Color>)
    ensures AfterClicks(s, cs).gameSequence == s.gameSequence
    ensures AfterClicks(s, cs).round == s.round
    decreases |cs|
  {
    if cs != [] {
      ClickKeepsSequenceAll(HandlePadClick(s, cs[0]).0, cs[1..]);
    }
  }

  /** The first `n` rounds of a game in which the player never errs. */
  function PerfectGame(picks: seq<nat>, n: nat): seq<Event>
    requires 1 <= n <= |picks|
    requires forall i :: 0 <= i < |picks| ==> picks[i] < |Colors|
  {
    if n == 1 then [StartClicked(picks[0])] + PlayRound(Drawn(picks[..1]))
    else PerfectGame(picks, n - 1) + [RoundTimerFired(picks[n - 1])] + PlayRound(Drawn(picks[..n]))
  }

  /**
   * A player who repeats every sequence correctly sees the draws appended
   * one per round, and wins exactly when round maxRounds is complete.
   */
  lemma {:induction false} PerfectGameRun(picks: seq<nat>, n: nat)
    requires 1 <= n <= MaxRounds && n <= |picks|
    requires forall i :: 0 <= i < |picks| ==> picks[i] < |Colors|
    ensures Trace(Initial(), PerfectGame(picks, n))
    ensures Run(Initial(), PerfectGame(picks, n)) ==
      State(Drawn(picks[..n]), Drawn(picks[..n]), n, false, n < MaxRounds,
            if n < MaxRounds then NextRoundDue else ResetDue)
    decreases n
  {
    var gs := Drawn(picks[..n]);
    if n == 1 {
      var a := [StartClicked(picks[0])];
      var s := StartGame(Initial(), picks[0]);
      DrawnExtends(picks, 1);
      assert s.gameSequence == gs;
      assert Trace(Initial(), a) && Run(Initial(), a) == s;
      PerfectRound(s);
      RunConcat(Initial(), a, PlayRound(gs));
    } else {
      var prev := PerfectGame(picks, n - 1);
      var a := prev + [RoundTimerFired(picks[n - 1])];
      PerfectGameRun(picks, n - 1);
      var p := Run(Initial(), prev);
      InitialInv();
      RunPreservesInv(Initial(), prev);
      var s := NextRound(p, picks[n - 1]);
      DrawnExtends(picks, n);
      assert s.gameSequence == gs;
      RunSingle(p, RoundTimerFired(picks[n - 1]));
      RunConcat(Initial(), prev, [RoundTimerFired(picks[n - 1])]);
      StepPreservesInv(p, RoundTimerFired(picks[n - 1]));
      PerfectRound(s);
      RunConcat(Initial(), a, PlayRound(gs));
    }
  }

  /** Repeating every sequence correctly wins the game after maxRounds rounds. */
  lemma PerfectPlayWins(picks: seq<nat>)
    requires |picks| == MaxRounds
    requires forall i :: 0 <= i < |picks| ==> picks[i] < |Colors|
    ensures Trace(Initial(), PerfectGame(picks, MaxRounds))
    ensures var r := Run(Initial(), PerfectGame(picks, MaxRounds));
      && r.round == MaxRounds
      && r.playerSequence == r.gameSequence == Drawn(picks)
      && !r.gameStarted && r.pending == ResetDue
  {
    PerfectGameRun(picks, MaxRounds);
    assert picks[..MaxRounds] == picks;
  }

  /** Red and green drawn and repeated: round 2 is cleared. */
  lemma RedGreenCleared()
    ensures Trace(Initial(), PerfectGame([0, 1, 2], 2))
    ensures Run(Initial(), PerfectGame([0, 1, 2], 2)) ==
      State([Red, Green], [Red, Green], 2, false, true, NextRoundDue)
  {
    var picks := [0, 1, 2];
    PerfectGameRun(picks, 2);
    var d := Drawn(picks[..2]);
    assert d == [Red, Green] by {
      DrawnExtends(picks, 1);
      DrawnExtends(picks, 2);
    }
  }

  /** Blue is drawn and played back: the player's turn of round 3 begins. */
  lemma BlueDrawn(s: State)
    requires s == State([Red, Green], [Red, Green], 2, false, true, NextRoundDue)
    ensures Trace(s, [RoundTimerFired(2), PlaybackRan, HandOffFired])
    ensures Run(s, [RoundTimerFired(2), PlaybackRan, HandOffFired]) ==
      State([Red, Green, Blue], [], 3, true, true, NoTimer)
  {
    RunSingle(s, RoundTimerFired(2));
    RunSingle(NextRound(s, 2), PlaybackRan);
    RunSingle(PlaySequence(NextRound(s, 2)), HandOffFired);
    RunConcat(s, [RoundTimerFired(2)], [PlaybackRan]);
    RunConcat(s, [RoundTimerFired(2), PlaybackRan], [HandOffFired]);
    assert [RoundTimerFired(2), PlaybackRan] + [HandOffFired] == [RoundTimerFired(2), PlaybackRan, HandOffFired];
  }

  /** Red, green, then yellow where blue was due: the game is lost. */
  lemma YellowLoses(s: State)
    requires s == State([Red, Green, Blue], [], 3, true, true, NoTimer)
    ensures Trace(s, ClickEvents([Red, Green, Yellow]))
    ensures Run(s, ClickEvents([Red, Green, Yellow])) ==
      State([Red, Green, Blue], [Red, Green, Yellow], 3, false, false, ResetDue)
  {
    ClickEventsRun(s, [Red, Green, Yellow]);
    WrongClickAnywhereLoses(s, 2, Yellow);
    ClickKeepsSequenceAll(s, [Red, Green, Yellow]);
    assert s.gameSequence[..2] + [Yellow] == [Red, Green, Yellow];
  }

  /**
   * Red, green, blue are drawn; the player repeats the first two rounds
   * and then clicks yellow instead of blue: the game is lost with the
   * input frozen as red, green, yellow.
   */
  lemma LostGame()
    ensures var evs := PerfectGame([0, 1, 2], 2) + [RoundTimerFired(2), PlaybackRan, HandOffFired]
                       + ClickEvents([Red, Green, Yellow]);
      && Trace(Initial(), evs)
      && Run(Initial(), evs) == State([Red, Green, Blue], [Red, Green, Yellow], 3, false, false, ResetDue)
  {
    var a := PerfectGame([0, 1, 2], 2);
    var b := [RoundTimerFired(2), PlaybackRan, HandOffFired];
    var c := ClickEvents([Red, Green, Yellow]);
    RedGreenCleared();
    BlueDrawn(Run(Initial(), a));
    RunConcat(Initial(), a, b);
    YellowLoses(Run(Initial(), a + b));
    RunConcat(Initial(), a + b, c);
  }
}
