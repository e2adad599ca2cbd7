/**
 * The Simon-says game state machine of script.js, on values.
 *
 * The module-level variables of script.js (lines 2-7) form one `State`;
 * every handler is a function from the old state to the new one. The
 * deferred callbacks that script.js schedules with setTimeout/setInterval
 * are made explicit: `pending` records which callback is outstanding, and
 * each callback is an `Event` that is enabled only while it is pending.
 */
module SimonState {

  /** The four pads; `Colors` is the alphabet array of script.js:17. */
  datatype Color = Red | Green | Blue | Yellow

  const Colors: seq<Color> := [Red, Green, Blue, Yellow]

  /** `maxRounds` (script.js:5); the source never reassigns it. */
  const MaxRounds: nat := 5

  /** The callback the browser still has to run, if any. */
  datatype Timer =
    | NoTimer       // nothing scheduled
    | PlaybackDue   // playSequence is scheduled or its interval is running (script.js:58-60, 66)
    | HandOffDue    // the end-of-playback hand-off (script.js:73-77)
    | NextRoundDue  // the round transition (script.js:111-113)
    | ResetDue      // the auto-reset after game over (script.js:163-165)

  datatype State = State(
    gameSequence: seq<Color>,
    playerSequence: seq<Color>,
    round: nat,
    isPlayerTurn: bool,
    gameStarted: bool,
    pending: Timer)

  /** What a pad click reports (the status line, or nothing). */
  datatype Response =
    | Ignored
    | GameLost
    | GameWon
    | RoundCleared
    | MoreClicks(remaining: nat)

  /** The values script.js:2-7 start with. */
  function Initial(): State {
    State([], [], 0, false, false, NoTimer)
  }

  /** startGame (script.js:26-38): clear everything, then run nextRound. */
  function StartGame(s: State, pick: nat): State
    requires pick < |Colors|
  {
    NextRound(s.(gameSequence := [], playerSequence := [], round := 0,
                 gameStarted := true, isPlayerTurn := false), pick)
  }

  /**
   * nextRound (script.js:41-61). `pick` is the index that
   * `Math.floor(Math.random() * colors.length)` produced.
   */
  function NextRound(s: State, pick: nat): State
    requires pick < |Colors|
  {
    s.(round := s.round + 1,
       playerSequence := [],
       isPlayerTurn := false,
       gameSequence := s.gameSequence + [Colors[pick]],
       pending := PlaybackDue)
  }

  /** playSequence has activated every pad and scheduled the hand-off (script.js:64-73). */
  function PlaySequence(s: State): State {
    s.(pending := HandOffDue)
  }

  /** The hand-off callback (script.js:73-77): the player's turn begins. */
  function PlaybackFinished(s: State): State {
    s.(isPlayerTurn := true, pending := NoTimer)
  }

  /** The state-changing part of gameOver (script.js:147-149, 163-165). */
  function GameOver(s: State): State {
    s.(gameStarted := false, isPlayerTurn := false, pending := ResetDue)
  }

  /**
   * handlePadClick (script.js:83-120). An index past the end of
   * gameSequence reads `undefined` in the source, which differs from
   * every colour, so it is treated as a wrong click.
   */
  function HandlePadClick(s: State, c: Color): (State, Response) {
    if !s.isPlayerTurn || !s.gameStarted then (s, Ignored)
    else
      var ps := s.playerSequence + [c];
      var i := |ps| - 1;
      if i >= |s.gameSequence| || ps[i] != s.gameSequence[i] then
        (GameOver(s.(playerSequence := ps)), GameLost)
      else if |ps| == |s.gameSequence| then
        var t := s.(playerSequence := ps, isPlayerTurn := false);
        if s.round == MaxRounds then (GameOver(t), GameWon)
        else (t.(pending := NextRoundDue), RoundCleared)
      else
        (s.(playerSequence := ps), MoreClicks(|s.gameSequence| - |ps|))
  }

  /**
   * resetGame (script.js:169-174). Its only caller is the auto-reset
   * callback, so the pending reset is consumed here.
   */
  function ResetGame(s: State): State {
    s.(gameSequence := [], playerSequence := [], round := 0,
       gameStarted := false, isPlayerTurn := false, pending := NoTimer)
  }

  /** Everything that can drive the game: a user action or a callback. */
  datatype Event =
    | StartClicked(pick: nat)
    | PlaybackRan
    | HandOffFired
    | PadClicked(color: Color)
    | RoundTimerFired(pick: nat)
    | ResetTimerFired

  /**
   * When an event can happen. The start button is visible only between
   * resetGame and startGame (script.js:33, 179); a callback runs only
   * while it is pending; a pad can be clicked at any time.
   */
  predicate Enabled(s: State, e: Event) {
    match e
    case StartClicked(pick) => pick < |Colors| && !s.gameStarted && s.pending == NoTimer
    case PlaybackRan => s.pending == PlaybackDue
    case HandOffFired => s.pending == HandOffDue
    case PadClicked(_) => true
    case RoundTimerFired(pick) => pick < |Colors| && s.pending == NextRoundDue
    case ResetTimerFired => s.pending == ResetDue
  }

  function Step(s: State, e: Event): State
    requires Enabled(s, e)
  {
    match e
    case StartClicked(pick) => StartGame(s, pick)
    case PlaybackRan => PlaySequence(s)
    case HandOffFired => PlaybackFinished(s)
    case PadClicked(c) => HandlePadClick(s, c).0
    case RoundTimerFired(pick) => NextRound(s, pick)
    case ResetTimerFired => ResetGame(s)
  }

  /** `evs` can happen one after the other, starting in `s`. */
  predicate Trace(s: State, evs: seq<Event>)
    decreases |evs|
  {
    evs == [] || (Enabled(s, evs[0]) && Trace(Step(s, evs[0]), evs[1..]))
  }

  function Run(s: State, evs: seq<Event>): State
    requires Trace(s, evs)
    decreases |evs|
  {
    if evs == [] then s else Run(Step(s, evs[0]), evs[1..])
  }

  /** `p` is a proper prefix of `q`. */
  predicate IsStrictPrefix(p: seq<Color>, q: seq<Color>) {
    |p| < |q| && p == q[..|p|]
  }

  /** `p` agrees with `q` except at its last element, which is wrong. */
  predicate EndsInMistake(p: seq<Color>, q: seq<Color>) {
    0 < |p| <= |q| && p[..|p| - 1] == q[..|p| - 1] && p[|p| - 1] != q[|p| - 1]
  }

  /** The invariant every reachable state satisfies. */
  predicate Inv(s: State) {
    && |s.gameSequence| == s.round <= MaxRounds
    && |s.playerSequence| <= |s.gameSequence|
    // the player's turn: no callback pending, the input so far is right
    && (s.isPlayerTurn ==>
          s.gameStarted && s.pending == NoTimer && IsStrictPrefix(s.playerSequence, s.gameSequence))
    && (s.gameStarted ==> 1 <= s.round && s.pending != ResetDue)
    // the computer's turn: some callback will hand control on
    && (s.gameStarted && !s.isPlayerTurn ==> s.pending != NoTimer)
    && (s.pending == PlaybackDue || s.pending == HandOffDue ==>
          s.gameStarted && s.playerSequence == [])
    && (s.pending == NextRoundDue ==>
          s.gameStarted && s.playerSequence == s.gameSequence && s.round < MaxRounds)
    // game over: the last input is frozen until the reset
    && (s.pending == ResetDue ==>
          && !s.gameStarted
          && ((s.playerSequence == s.gameSequence && s.round == MaxRounds) ||
              EndsInMistake(s.playerSequence, s.gameSequence)))
    // idle: nothing is left from the previous game
    && (!s.gameStarted && s.pending == NoTimer ==> s == Initial())
  }
}
