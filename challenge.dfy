/** The single-player "Simon" session (MusicalGame in src/challenge.py): a
    generated sequence is shown one instrument per tick, then the player
    repeats it by dwell (hand control) or click (mouse control); a complete
    repetition advances the level after 1.5 s, a wrong pick ends the game. */
module Challenge {
  import opened Catalog
  import opened Dwell
  import opened Round

  datatype GameState = Showing | Waiting | GameOver | Success

  /** Pause between completing a sequence and the next level: 1.5 s. */
  const ADVANCE_MS: int := 1500

  /** The mutable fields of a MusicalGame, in one value, so that each method
      can say what it leaves and what it changes. */
  datatype Fields = Fields(
    sequence: seq<int>,
    currentSequenceIndex: nat,
    playerSequence: seq<int>,
    gameState: GameState,
    highlightInstrument: int,
    highlightStartTime: int,
    sequenceDisplayIndex: nat,
    level: int,
    lastTouchTime: int,
    sequenceCompletedTime: int,
    waitingForNextLevel: bool,
    hover: HoverState)

  /** A sequence generate_new_sequence may produce for `level`. */
  predicate Fits(s: seq<int>, level: int) {
    |s| == SequenceLength(level) && IsSequence(s)
  }

  /** The session invariant apart from the hover fields: the sequence fits the
      level, and the player's picks are in step with the game state. */
  ghost predicate TurnInv(f: Fields) {
    && f.level >= 1
    && Fits(f.sequence, f.level)
    && f.sequenceDisplayIndex <= |f.sequence|
    && f.highlightInstrument == -1
    && (f.waitingForNextLevel <==> f.gameState == Success)
    && match f.gameState
       case Showing => f.currentSequenceIndex == 0 && f.playerSequence == []
       case Waiting =>
         f.sequenceDisplayIndex == |f.sequence|
         && OnTrack(f.sequence, f.currentSequenceIndex, f.playerSequence)
       case Success =>
         f.currentSequenceIndex == |f.sequence| && f.playerSequence == f.sequence
       case GameOver => Strayed(f.sequence, f.currentSequenceIndex, f.playerSequence)
  }

  /** Hover state is only ever live in hand control while waiting for input,
      and a live dwell is never left at full progress. */
  ghost predicate HoverInv(f: Fields, mode: Control) {
    f.hover == IDLE
    || (mode == Hand && f.gameState == Waiting && IsInstrument(f.hover.instrument)
        && 0.0 <= f.hover.progress < 1.0)
  }

  ghost predicate Inv(f: Fields, mode: Control) {
    TurnInv(f) && HoverInv(f, mode)
  }

  /** reset_for_new_sequence. */
  function Reset(f: Fields, now: int): Fields {
    Fields(f.sequence, 0, [], Showing, -1, now, 0, f.level, f.lastTouchTime,
           f.sequenceCompletedTime, f.waitingForNextLevel, IDLE)
  }

  /** activate_instrument: the pick is always recorded; it is judged against the
      next expected instrument. */
  function Activated(f: Fields, i: int, now: int): Fields
    requires f.currentSequenceIndex < |f.sequence|
  {
    var g := f.(playerSequence := f.playerSequence + [i]);
    match Judge(f.sequence, f.currentSequenceIndex, i)
    case Correct => g.(currentSequenceIndex := f.currentSequenceIndex + 1)
    case Complete =>
      g.(currentSequenceIndex := f.currentSequenceIndex + 1, gameState := Success,
         sequenceCompletedTime := now, waitingForNextLevel := true)
    case Wrong => g.(gameState := GameOver)
  }

  /** The Success gate of update has opened: the next level starts on this tick. */
  predicate Advances(f: Fields, now: int) {
    f.gameState == Success && f.waitingForNextLevel && now - f.sequenceCompletedTime > ADVANCE_MS
  }

  /** The state-machine part of update. Showing advances one display step per
      tick (the sound and the pause after it are left out) and moves to
      Waiting after the last one; an open Success gate raises the level and
      starts over on the freshly generated sequence `next`. */
  function Phase(f: Fields, next: seq<int>, now: int): (r: Fields)
    requires TurnInv(f)
    ensures r.gameState == Waiting ==> r.currentSequenceIndex < |r.sequence|
  {
    match f.gameState
    case Showing =>
      if f.sequenceDisplayIndex < |f.sequence| then
        f.(sequenceDisplayIndex := f.sequenceDisplayIndex + 1)
      else
        f.(gameState := Waiting, highlightInstrument := -1)
    case Success =>
      if Advances(f, now) then
        Reset(f.(level := f.level + 1, waitingForNextLevel := false, sequence := next), now)
      else f
    case _ => f
  }

  /** The hover part of update (hand control, Waiting only): progress is
      recomputed and a completed dwell activates the tracked instrument once
      and resets the hover state. */
  function DwellStep(f: Fields, mode: Control, now: int): Fields
    requires f.gameState == Waiting ==> f.currentSequenceIndex < |f.sequence|
  {
    if mode == Hand && f.gameState == Waiting then
      if f.hover.instrument >= 0 then
        var c := CheckDwell(f.hover, now);
        if c.fired >= 0 then Activated(f, c.fired, now).(hover := IDLE)
        else f.(hover := c.hover)
      else f.(hover := f.hover.(progress := 0.0))
    else f
  }

  /** update. */
  function Ticked(f: Fields, mode: Control, next: seq<int>, now: int): Fields
    requires TurnInv(f)
  {
    DwellStep(Phase(f, next, now), mode, now)
  }

  /** update_hover. */
  function Hovered(f: Fields, mode: Control, x: int, y: int, now: int): Fields {
    if mode == Hand && f.gameState == Waiting then
      f.(hover := Retarget(f.hover, FirstHit(x, y), now))
    else f
  }

  /** check_touch. */
  function Touched(f: Fields, mode: Control, x: int, y: int, now: int): Fields
    requires TurnInv(f)
  {
    var hit := FirstHit(x, y);
    if mode == Mouse && f.gameState == Waiting && CooldownOver(f.lastTouchTime, now) && hit >= 0
    then Activated(f, hit, now).(lastTouchTime := now)
    else f
  }

  // ---------------------------------------------------------------------------
  // Properties of the specification

  /** An activation while waiting appends exactly the pick to the history,
      keeps the level and the sequence, and keeps the picks in step with the
      state: a right pick advances the index by one (to Success at the end of
      the sequence, recording the time), a wrong one ends the game with the
      index where it was. */
  lemma ActivatedInStep(f: Fields, i: int, now: int)
    requires TurnInv(f) && f.gameState == Waiting && IsInstrument(i)
    ensures var g := Activated(f, i, now);
      && TurnInv(g)
      && g.playerSequence == f.playerSequence + [i]
      && g.level == f.level && g.sequence == f.sequence
      && (i == f.sequence[f.currentSequenceIndex] ==> g.currentSequenceIndex == f.currentSequenceIndex + 1)
      && (g.gameState == Success <==> i == f.sequence[f.currentSequenceIndex]
                                      && f.currentSequenceIndex + 1 == |f.sequence|)
      && (g.gameState == Success ==> g.waitingForNextLevel && g.sequenceCompletedTime == now)
      && (g.gameState == GameOver <==> i != f.sequence[f.currentSequenceIndex])
      && (g.gameState == GameOver ==> g.currentSequenceIndex == f.currentSequenceIndex)
  {
    JudgeStep(f.sequence, f.currentSequenceIndex, f.playerSequence, i);
  }

  /** Outside Showing, the game state is exactly what the reference replay of
      the player's picks against the sequence reports. */
  lemma StateMatchesReplay(f: Fields)
    requires TurnInv(f) && f.gameState != Showing
    ensures Replay(f.sequence, f.playerSequence) ==
      match f.gameState
      case Waiting => Playing(f.currentSequenceIndex)
      case Success => Guessed
      case _ => Missed(f.currentSequenceIndex)
  {
    ReplayAgrees(f.sequence, f.currentSequenceIndex, f.playerSequence);
  }

  /** Each update keeps the invariant, provided the clock has not gone back
      before the hover start and a level advance gets a sequence that fits
      the new level. */
  lemma TickedKeepsInv(f: Fields, mode: Control, next: seq<int>, now: int)
    requires Inv(f, mode) && f.hover.startTime <= now
    requires Advances(f, now) ==> Fits(next, f.level + 1)
    ensures Inv(Ticked(f, mode, next, now), mode)
  {
    var p := Phase(f, next, now);
    PhaseKeepsInv(f, mode, next, now);
    if mode == Hand && p.gameState == Waiting && p.hover.instrument >= 0
       && CheckDwell(p.hover, now).fired >= 0 {
      ActivatedInStep(p, p.hover.instrument, now);
    }
  }

  /** The state-machine step alone keeps the invariant, given a fitting
      sequence for a level advance. */
  lemma PhaseKeepsInv(f: Fields, mode: Control, next: seq<int>, now: int)
    requires Inv(f, mode)
    requires Advances(f, now) ==> Fits(next, f.level + 1)
    ensures Inv(Phase(f, next, now), mode)
  {
  }

  /** In Showing, a tick with instruments left to show advances the display
      index by exactly one and changes nothing else; after the last one the
      state becomes Waiting with no highlight. */
  lemma ShowingStep(f: Fields, mode: Control, next: seq<int>, now: int)
    requires Inv(f, mode) && f.gameState == Showing
    ensures var g := Ticked(f, mode, next, now);
      if f.sequenceDisplayIndex < |f.sequence|
      then g == f.(sequenceDisplayIndex := f.sequenceDisplayIndex + 1)
      else g.gameState == Waiting && g.highlightInstrument == -1
           && g.currentSequenceIndex == 0 && g.playerSequence == []
  {
  }

  /** Once more than 1.5 s have passed since the sequence was completed, the
      level rises by one and everything about the turn starts afresh on the
      new sequence; before that, Success and GameOver ticks change nothing. */
  lemma SuccessGate(f: Fields, mode: Control, next: seq<int>, now: int)
    requires Inv(f, mode) && (f.gameState == Success || f.gameState == GameOver)
    ensures var g := Ticked(f, mode, next, now);
      if f.gameState == Success && now - f.sequenceCompletedTime > ADVANCE_MS
      then g.level == f.level + 1 && !g.waitingForNextLevel && g.sequence == next
           && g.gameState == Showing && g.currentSequenceIndex == 0 && g.playerSequence == []
           && g.sequenceDisplayIndex == 0 && g.hover == IDLE
      else g == f
  {
  }

  /** Hand control while waiting: with a tracked instrument a tick either
      stores a progress in [0, 1) or, once a full dwell has elapsed, activates
      exactly that instrument once and returns hover to IDLE; with none,
      progress stays 0. */
  lemma DwellTick(f: Fields, next: seq<int>, now: int)
    requires Inv(f, Hand) && f.gameState == Waiting && f.hover.startTime <= now
    ensures var g := Ticked(f, Hand, next, now);
      if f.hover.instrument == -1 then g == f && g.hover.progress == 0.0
      else if now - f.hover.startTime >= DWELL_MS
      then g.playerSequence == f.playerSequence + [f.hover.instrument] && g.hover == IDLE
      else g == f.(hover := f.hover.(progress := Progress(f.hover.startTime, now)))
           && 0.0 <= g.hover.progress < 1.0
  {
  }

  /** Mouse control: a click is acted on only while waiting, outside the
      cooldown and on an instrument; then the first instrument hit is
      activated and the click time recorded. Otherwise nothing changes. */
  lemma TouchDebounced(f: Fields, x: int, y: int, now: int)
    requires Inv(f, Mouse)
    ensures var g := Touched(f, Mouse, x, y, now);
      if f.gameState == Waiting && now - f.lastTouchTime >= COOLDOWN_MS && FirstHit(x, y) >= 0
      then g.lastTouchTime == now && g.playerSequence == f.playerSequence + [FirstHit(x, y)]
           && Inv(g, Mouse)
      else g == f
  {
    if f.gameState == Waiting && now - f.lastTouchTime >= COOLDOWN_MS && FirstHit(x, y) >= 0 {
      ActivatedInStep(f, FirstHit(x, y), now);
    }
  }

  /** Two clicks: once a click on an instrument is accepted at t1, a second
      click before t1 + 0.5 s changes nothing, wherever it lands; from
      t1 + 0.5 s on, a click on an instrument while still waiting is
      accepted again. */
  lemma SecondClickDropped(f: Fields, x: int, y: int, x2: int, y2: int, t1: int, t2: int)
    requires Inv(f, Mouse) && f.gameState == Waiting
    requires CooldownOver(f.lastTouchTime, t1) && FirstHit(x, y) >= 0
    ensures Inv(Touched(f, Mouse, x, y, t1), Mouse)
    ensures var g := Touched(f, Mouse, x, y, t1);
      && g.lastTouchTime == t1
      && (t2 < t1 + COOLDOWN_MS ==> Touched(g, Mouse, x2, y2, t2) == g)
      && (t2 >= t1 + COOLDOWN_MS && g.gameState == Waiting && FirstHit(x2, y2) >= 0 ==>
            Touched(g, Mouse, x2, y2, t2).lastTouchTime == t2)
  {
    TouchDebounced(f, x, y, t1);
  }

  // ---------------------------------------------------------------------------
  // The session object

  class MusicalGame {
    var sequence: seq<int>
    var currentSequenceIndex: nat
    var playerSequence: seq<int>
    var gameState: GameState
    var highlightInstrument: int
    var highlightStartTime: int
    var sequenceDisplayIndex: nat
    var level: int
    var lastTouchTime: int
    const controlMode: Control
    var sequenceCompletedTime: int
    var waitingForNextLevel: bool
    var hoverInstrument: int
    var hoverStartTime: int
    var hoverProgress: real

    function View(): Fields
      reads this
    {
      Fields(sequence, currentSequenceIndex, playerSequence, gameState, highlightInstrument,
             highlightStartTime, sequenceDisplayIndex, level, lastTouchTime,
             sequenceCompletedTime, waitingForNextLevel,
             HoverState(hoverInstrument, hoverStartTime, hoverProgress))
    }

    ghost predicate Valid()
      reads this
    {
      Inv(View(), controlMode)
    }

    /** A new session at level 1, showing a fresh sequence of two instruments. */
    constructor (controlMode: Control, now: int)
      ensures Valid() && this.controlMode == controlMode
      ensures Fits(sequence, 1)
      ensures View() == Fields(sequence, 0, [], Showing, -1, now, 0, 1, 0, 0, false, IDLE)
    {
      sequence := [];
      currentSequenceIndex := 0;
      playerSequence := [];
      gameState := Showing;
      highlightInstrument := -1;
      highlightStartTime := 0;
      sequenceDisplayIndex := 0;
      level := 1;
      lastTouchTime := 0;
      this.controlMode := controlMode;
      sequenceCompletedTime := 0;
      waitingForNextLevel := false;
      hoverInstrument := -1;
      hoverStartTime := 0;
      hoverProgress := 0.0;
      new;
      GenerateNewSequence(now);
    }

    /** generate_new_sequence: min(level + 1, 6) instruments, each drawn from
        the catalogue (the random draw is a nondeterministic choice), then a
        fresh Showing state. */
    method GenerateNewSequence(now: int)
      requires level >= 1
      modifies this`sequence, this`currentSequenceIndex, this`playerSequence, this`gameState,
               this`sequenceDisplayIndex, this`highlightInstrument, this`highlightStartTime,
               this`hoverInstrument, this`hoverStartTime, this`hoverProgress
      ensures Fits(sequence, level)
      ensures View() == Reset(old(View()).(sequence := sequence), now)
    {
      sequence := [];
      var length := SequenceLength(level);
      var k := 0;
      while k < length
        invariant 0 <= k <= length && |sequence| == k && IsSequence(sequence)
      {
        assert IsInstrument(0);
        var pick :| IsInstrument(pick);
        sequence := sequence + [pick];
        k := k + 1;
      }
      ResetForNewSequence(now);
    }

    /** reset_for_new_sequence. */
    method ResetForNewSequence(now: int)
      modifies this`currentSequenceIndex, this`playerSequence, this`gameState,
               this`sequenceDisplayIndex, this`highlightInstrument, this`highlightStartTime,
               this`hoverInstrument, this`hoverStartTime, this`hoverProgress
      ensures View() == Reset(old(View()), now)
    {
      currentSequenceIndex := 0;
      playerSequence := [];
      gameState := Showing;
      sequenceDisplayIndex := 0;
      highlightInstrument := -1;
      highlightStartTime := now;
      ResetHoverState();
    }

    /** update: one frame of the state machine, then the dwell check. */
    method Update(now: int)
      requires Valid() && hoverStartTime <= now
      modifies this
      ensures Valid()
      ensures Advances(old(View()), now) ==> Fits(sequence, old(level) + 1)
      ensures View() == Ticked(old(View()), controlMode, sequence, now)
    {
      ghost var f := View();
      UpdatePhase(now);
      PhaseKeepsInv(f, controlMode, sequence, now);
      UpdateDwell(now);
      TickedKeepsInv(f, controlMode, sequence, now);
    }

    /** The state-machine block of update: one display step while showing, the
        level advance once the Success gate opens. */
    method UpdatePhase(now: int)
      requires TurnInv(View())
      modifies this
      ensures Advances(old(View()), now) ==> Fits(sequence, old(level) + 1)
      ensures View() == Phase(old(View()), sequence, now)
    {
      ghost var f := View();
      if gameState == Showing {
        if sequenceDisplayIndex < |sequence| {
          sequenceDisplayIndex := sequenceDisplayIndex + 1;
        } else {
          gameState := Waiting;
          highlightInstrument := -1;
        }
      } else if gameState == Success {
        if waitingForNextLevel && now - sequenceCompletedTime > ADVANCE_MS {
          level := level + 1;
          waitingForNextLevel := false;
          ghost var g := View();
          GenerateNewSequence(now);
          assert View() == Reset(g.(sequence := sequence), now);
        }
      }
    }

    /** The hover block of update: in hand control while waiting, recompute the
        progress of the tracked instrument and activate it once the dwell is
        complete. */
    method UpdateDwell(now: int)
      requires Inv(View(), controlMode)
      modifies this`hoverProgress, this`hoverInstrument, this`hoverStartTime,
               this`playerSequence, this`currentSequenceIndex, this`gameState,
               this`sequenceCompletedTime, this`waitingForNextLevel
      ensures View() == DwellStep(old(View()), controlMode, now)
    {
      if controlMode == Hand && gameState == Waiting {
        if hoverInstrument >= 0 {
          hoverProgress := Progress(hoverStartTime, now);
          if hoverProgress >= 1.0 {
            var _ := ActivateInstrument(hoverInstrument, now);
            ResetHoverState();
          }
        } else {
          hoverProgress := 0.0;
        }
      }
    }

    /** reset_hover_state: whatever the hover state was, it becomes IDLE, so a
        second call changes nothing. */
    method ResetHoverState()
      modifies this`hoverInstrument, this`hoverStartTime, this`hoverProgress
      ensures View() == old(View()).(hover := IDLE)
    {
      hoverInstrument := -1;
      hoverStartTime := 0;
      hoverProgress := 0.0;
    }

    /** update_hover: only in hand control while waiting; tracks the first
        instrument under the cursor. */
    method UpdateHover(x: int, y: int, now: int)
      requires Valid()
      modifies this`hoverInstrument, this`hoverStartTime, this`hoverProgress
      ensures Valid()
      ensures View() == Hovered(old(View()), controlMode, x, y, now)
    {
      if controlMode != Hand || gameState != Waiting {
        return;
      }
      var hovered := Scan(x, y);
      if hovered != hoverInstrument {
        if hovered >= 0 {
          hoverInstrument := hovered;
          hoverStartTime := now;
          hoverProgress := 0.0;
        } else {
          ResetHoverState();
        }
      }
    }

    /** check_touch: only in mouse control while waiting and outside the
        click cooldown; activates the first instrument hit. */
    method CheckTouch(x: int, y: int, now: int)
      requires Valid()
      modifies this
      ensures Valid()
      ensures View() == Touched(old(View()), controlMode, x, y, now)
    {
      if controlMode != Mouse || gameState != Waiting {
        return;
      }
      if now - lastTouchTime < COOLDOWN_MS {
        return;
      }
      var hit := Scan(x, y);
      if hit >= 0 {
        ghost var f := View();
        ActivatedInStep(f, hit, now);
        var _ := ActivateInstrument(hit, now);
        lastTouchTime := now;
      }
    }

    /** activate_instrument; reports a wrong pick (the source returns
        "game_over"). Its callers only call it while waiting. */
    method ActivateInstrument(i: int, now: int) returns (gameOver: bool)
      requires IsInstrument(i)
      requires gameState == Waiting && currentSequenceIndex < |sequence|
      modifies this`playerSequence, this`currentSequenceIndex, this`gameState,
               this`sequenceCompletedTime, this`waitingForNextLevel
      ensures View() == Activated(old(View()), i, now)
      ensures gameOver <==> i != old(sequence[currentSequenceIndex])
    {
      playerSequence := playerSequence + [i];
      var expected := sequence[currentSequenceIndex];
      gameOver := false;
      if i == expected {
        currentSequenceIndex := currentSequenceIndex + 1;
        if currentSequenceIndex >= |sequence| {
          gameState := Success;
          sequenceCompletedTime := now;
          waitingForNextLevel := true;
        }
      } else {
        gameState := GameOver;
        gameOver := true;
      }
    }
  }
}
