/** The multiplayer session (MultiplayerGame in src/multiplayer.py): players
    take turns creating a sequence of `currentLevel` instruments, every other
    player in turn watches it and repeats it, a full repetition earns the
    guesser a point and a mistake earns the creator a point at the end of the
    round; once every player has created a sequence the level rises. */
module Multiplayer {
  import opened Catalog
  import opened Dwell
  import opened Round
  import opened Scoreboard

  datatype Option<T> = None | Some(value: T)

  /** The states the session passes through. The source also declares a
      scores-display state and a next-creator state that are never entered. */
  datatype GameState = WaitingForCreator | Showing | Waiting | Success | GameOver

  /** Each instrument of the sequence is highlighted for the first 0.8 s of
      its display cycle, then nothing until 1.1 s, then the next one. */
  const HIGHLIGHT_MS: int := 800
  const CYCLE_MS: int := 1100

  /** Pause after a completed sequence and after a mistake before the next
      guesser: 1.0 s and 1.5 s. */
  const SUCCESS_PAUSE_MS: int := 1000
  const GAME_OVER_PAUSE_MS: int := 1500

  /** The display cursor of the showing phase. */
  datatype Display = Display(highlightInstrument: int, highlightStartTime: int, sequenceDisplayIndex: nat)

  /** The mutable fields of a MultiplayerGame, in one value. The two pause
      timers, which the source creates and deletes as attributes, are
      optional values. */
  datatype Fields = Fields(
    scores: map<string, int>,
    currentCreatorIdx: nat,
    currentLevel: int,
    createdSequence: seq<int>,
    currentGuesserIdx: nat,
    roundScores: map<string, int>,
    gameState: GameState,
    sequence: seq<int>,
    currentSequenceIndex: nat,
    playerSequence: seq<int>,
    highlightInstrument: int,
    highlightStartTime: int,
    sequenceDisplayIndex: nat,
    lastTouchTime: int,
    hover: HoverState,
    completedRoundsInLevel: nat,
    successStartTime: Option<int>,
    gameOverStartTime: Option<int>)

  /** Every player's name has an entry in the score table. */
  predicate Listed(ps: seq<string>, scores: map<string, int>) {
    forall p :: p in ps ==> p in scores
  }

  /** A fresh session: everybody at 0 points, player 0 creating first. */
  function Initial(ps: seq<string>, startingLevel: int): Fields {
    Fields(map p | p in ps :: 0, 0, startingLevel, [], 0, map[], WaitingForCreator,
           [], 0, [], -1, 0, 0, 0, IDLE, 0, None, None)
  }

  /** Hover and click act only while someone is expected to pick. */
  predicate TakesInput(s: GameState) {
    s == Waiting || s == WaitingForCreator
  }

  // ---------------------------------------------------------------------------
  // Turn order

  /** The first guesser of a round: player 0, or player 1 when 0 creates. */
  function FirstGuesser(creator: nat): nat {
    if creator == 0 then 1 else 0
  }

  /** The guesser after g: the next player, skipping the creator once. */
  function NextGuesserIdx(g: nat, creator: nat): nat {
    if g + 1 == creator then g + 2 else g + 1
  }

  /** The guessers of a round from g on, in the order they play. */
  function GuessersFrom(g: nat, creator: nat, n: nat): seq<nat>
    decreases n - g
  {
    if g >= n then [] else [g] + GuessersFrom(NextGuesserIdx(g, creator), creator, n)
  }

  /** Reference: the players from index `from` on, except the creator, in
      join order. */
  function OthersFrom(from: nat, creator: nat, n: nat): seq<nat>
    decreases n - from
  {
    if from >= n then []
    else if from == creator then OthersFrom(from + 1, creator, n)
    else [from] + OthersFrom(from + 1, creator, n)
  }

  lemma {:induction false} GuessersFromOthers(g: nat, creator: nat, n: nat)
    requires g != creator && creator < n
    ensures GuessersFrom(g, creator, n) == OthersFrom(g, creator, n)
    decreases n - g
  {
    if g < n {
      var next := NextGuesserIdx(g, creator);
      GuessersFromOthers(next, creator, n);
      if g + 1 == creator {
        assert OthersFrom(g + 1, creator, n) == OthersFrom(g + 2, creator, n);
      }
    }
  }

  /** In every round each player other than the creator guesses exactly once,
      in join order. */
  lemma TurnOrder(creator: nat, n: nat)
    requires creator < n
    ensures GuessersFrom(FirstGuesser(creator), creator, n) == OthersFrom(0, creator, n)
  {
    GuessersFromOthers(FirstGuesser(creator), creator, n);
    if creator == 0 {
      assert OthersFrom(0, creator, n) == OthersFrom(1, creator, n);
    }
  }

  /** Where the creator index starts in a level: 0 in the first level; in
      later levels next_level sets it to 0 and next_creator then advances it
      to 1. */
  function LevelStart(level: int, startingLevel: int): nat {
    if level == startingLevel then 0 else 1
  }

  /** a mod n, for a < 2n. */
  function Wrap(a: nat, n: nat): nat {
    if a >= n then a - n else a
  }

  lemma ModStep(c: nat, n: nat)
    requires c < n
    ensures (c + 1) % n == if c + 1 == n then 0 else c + 1
  {
  }

  /** The creator of round k of a level whose first round is created by s. */
  function Creator(s: nat, k: nat, n: nat): nat {
    Wrap(s + k, n)
  }

  /** The round of a level in which player i creates. */
  function Slot(s: nat, i: nat, n: nat): nat
    requires s <= n
  {
    Wrap(i + n - s, n)
  }

  /** Within a level the creators of the n rounds are n different players, and
      every player creates in one of them: each player creates exactly one
      sequence per level. */
  lemma CreatorsRotate(s: nat, n: nat)
    requires s <= 1 < n
    ensures forall a, b :: 0 <= a < b < n ==> Creator(s, a, n) != Creator(s, b, n)
    ensures forall i :: 0 <= i < n ==> Slot(s, i, n) < n && Creator(s, Slot(s, i, n), n) == i
  {
  }

  // ---------------------------------------------------------------------------
  // Transitions

  /** start_guessing_phase as the evidently intended behaviour: the first
      guesser is chosen and the sequence is shown from the start to a guesser
      with no picks yet. */
  function StartGuessing(f: Fields, now: int): Fields {
    f.(currentGuesserIdx := FirstGuesser(f.currentCreatorIdx), gameState := Showing,
       sequenceDisplayIndex := 0, highlightStartTime := now,
       currentSequenceIndex := 0, playerSequence := [])
  }

  /** start_guessing_phase as written: the index and the picks of the previous
      round's last guesser are kept. */
  function StartGuessingAsWritten(f: Fields, now: int): Fields {
    f.(currentGuesserIdx := FirstGuesser(f.currentCreatorIdx), gameState := Showing,
       sequenceDisplayIndex := 0, highlightStartTime := now)
  }

  /** The creator's pick: appended to the sequence being created, which starts
      the guessing phase once it holds currentLevel instruments. */
  function CreatorPicked(f: Fields, i: int, now: int): Fields {
    var created := f.createdSequence + [i];
    if |created| >= f.currentLevel then
      StartGuessing(f.(sequence := created, createdSequence := []), now)
    else f.(createdSequence := created)
  }

  /** round_scores[creator] += 1, with a missing entry read as 0. */
  function Credit(m: map<string, int>, k: string): map<string, int> {
    m[k := (if k in m then m[k] else 0) + 1]
  }

  /** What the Waiting branch of activate_instrument needs. */
  predicate GuessReady(f: Fields, ps: seq<string>) {
    && f.currentSequenceIndex < |f.sequence|
    && f.currentGuesserIdx < |ps| && f.currentCreatorIdx < |ps|
    && ps[f.currentGuesserIdx] in f.scores
  }

  /** A guesser's pick: recorded and judged; the whole sequence earns the
      guesser a point, a mistake earns the creator a pending point. */
  function GuesserPicked(f: Fields, ps: seq<string>, i: int): Fields
    requires GuessReady(f, ps)
  {
    var g := f.(playerSequence := f.playerSequence + [i]);
    var guesser := ps[f.currentGuesserIdx];
    match Judge(f.sequence, f.currentSequenceIndex, i)
    case Correct => g.(currentSequenceIndex := f.currentSequenceIndex + 1)
    case Complete =>
      g.(currentSequenceIndex := f.currentSequenceIndex + 1,
         scores := f.scores[guesser := f.scores[guesser] + 1], gameState := Success)
    case Wrong =>
      g.(roundScores := Credit(f.roundScores, ps[f.currentCreatorIdx]), gameState := GameOver)
  }

  /** activate_instrument. */
  function Activated(f: Fields, ps: seq<string>, i: int, now: int): Fields
    requires f.gameState == Waiting ==> GuessReady(f, ps)
  {
    match f.gameState
    case WaitingForCreator => CreatorPicked(f, i, now)
    case Waiting => GuesserPicked(f, ps, i)
    case _ => f
  }

  /** reset_for_next_guesser. */
  function NextGuesserReset(f: Fields, now: int): Fields {
    f.(playerSequence := [], currentSequenceIndex := 0, gameState := Showing,
       sequenceDisplayIndex := 0, highlightStartTime := now, hover := IDLE)
  }

  /** next_creator. */
  function CreatorRotated(f: Fields, n: nat): Fields
    requires n > 0
  {
    f.(currentCreatorIdx := (f.currentCreatorIdx + 1) % n, gameState := WaitingForCreator,
       createdSequence := [], hover := IDLE)
  }

  /** next_level (the one-second pause is left out). */
  function LevelRaised(f: Fields, n: nat): Fields
    requires n > 0
  {
    CreatorRotated(f.(currentLevel := f.currentLevel + 1, completedRoundsInLevel := 0,
                      currentCreatorIdx := 0), n)
  }

  /** What end_round needs: the creator is a player with a score entry. */
  predicate CreatorSeated(f: Fields, ps: seq<string>) {
    f.currentCreatorIdx < |ps| && ps[f.currentCreatorIdx] in f.scores
  }

  /** The scoring half of end_round: the creator's pending points are
      credited, the pending table is emptied and the round is counted. */
  function Settled(f: Fields, ps: seq<string>): Fields
    requires CreatorSeated(f, ps)
  {
    var c := ps[f.currentCreatorIdx];
    var s := if c in f.roundScores then f.scores[c := f.scores[c] + f.roundScores[c]] else f.scores;
    f.(scores := s, roundScores := map[], completedRoundsInLevel := f.completedRoundsInLevel + 1)
  }

  /** end_round: settle the round, then the next creator, or after a round
      per player the next level. */
  function RoundEnded(f: Fields, ps: seq<string>): Fields
    requires CreatorSeated(f, ps)
  {
    var g := Settled(f, ps);
    if g.completedRoundsInLevel >= |ps| then LevelRaised(g, |ps|) else CreatorRotated(g, |ps|)
  }

  /** next_guesser. */
  function GuesserDone(f: Fields, ps: seq<string>, now: int): Fields
    requires CreatorSeated(f, ps)
  {
    var g := f.(currentGuesserIdx := NextGuesserIdx(f.currentGuesserIdx, f.currentCreatorIdx));
    if g.currentGuesserIdx >= |ps| then RoundEnded(g, ps) else NextGuesserReset(g, now)
  }

  /** The state-machine part of update: the display cycle while showing, and
      the pauses after a success or a mistake. */
  function Phase(f: Fields, ps: seq<string>, now: int): Fields
    requires CreatorSeated(f, ps)
  {
    match f.gameState
    case Showing =>
      if f.sequenceDisplayIndex < |f.sequence| then
        var cycle := now - f.highlightStartTime;
        if cycle < HIGHLIGHT_MS then f.(highlightInstrument := f.sequence[f.sequenceDisplayIndex])
        else if cycle < CYCLE_MS then f.(highlightInstrument := -1)
        else f.(sequenceDisplayIndex := f.sequenceDisplayIndex + 1, highlightStartTime := now)
      else f.(gameState := Waiting, highlightInstrument := -1)
    case Success =>
      (match f.successStartTime
       case None => f.(successStartTime := Some(now))
       case Some(t) =>
         if now - t > SUCCESS_PAUSE_MS then GuesserDone(f.(successStartTime := None), ps, now)
         else f)
    case GameOver =>
      (match f.gameOverStartTime
       case None => f.(gameOverStartTime := Some(now))
       case Some(t) =>
         if now - t > GAME_OVER_PAUSE_MS then GuesserDone(f.(gameOverStartTime := None), ps, now)
         else f)
    case _ => f
  }

  /** The hover part of update: in hand control while a pick is expected,
      recompute the progress and activate the tracked instrument once the
      dwell is complete. */
  function DwellStep(f: Fields, ps: seq<string>, mode: Control, now: int): Fields
    requires f.gameState == Waiting ==> GuessReady(f, ps)
  {
    if mode == Hand && TakesInput(f.gameState) then
      if f.hover.instrument >= 0 then
        var g := f.(hover := f.hover.(progress := Progress(f.hover.startTime, now)));
        if g.hover.progress >= 1.0 then Activated(g, ps, g.hover.instrument, now).(hover := IDLE)
        else g
      else f.(hover := f.hover.(progress := 0.0))
    else f
  }

  /** update_hover. */
  function Hovered(f: Fields, mode: Control, x: int, y: int, now: int): Fields {
    if mode == Hand && TakesInput(f.gameState) then
      f.(hover := Retarget(f.hover, FirstHit(x, y), now))
    else f
  }

  /** check_touch. */
  function Touched(f: Fields, ps: seq<string>, mode: Control, x: int, y: int, now: int): Fields
    requires f.gameState == Waiting ==> GuessReady(f, ps)
  {
    var hit := FirstHit(x, y);
    if mode == Mouse && TakesInput(f.gameState) && CooldownOver(f.lastTouchTime, now) && hit >= 0
    then Activated(f, ps, hit, now).(lastTouchTime := now)
    else f
  }

  // ---------------------------------------------------------------------------
  // The session invariant

  /** Everything but the hover fields: the players and scores are in place,
      the creator index follows the rotation of the level, and the picks are in
      step with the state. */
  ghost predicate TurnInv(f: Fields, ps: seq<string>, startingLevel: int) {
    var n := |ps|;
    && n >= 2
    && Listed(ps, f.scores)
    && f.currentCreatorIdx < n
    && (forall k :: k in f.roundScores ==> k == ps[f.currentCreatorIdx])
    && f.completedRoundsInLevel < n
    && 1 <= startingLevel <= f.currentLevel
    && f.currentCreatorIdx == Creator(LevelStart(f.currentLevel, startingLevel), f.completedRoundsInLevel, n)
    && IsSequence(f.sequence) && IsSequence(f.createdSequence)
    && (f.highlightInstrument == -1 || IsInstrument(f.highlightInstrument))
    && f.sequenceDisplayIndex <= |f.sequence|
    && (f.successStartTime.Some? ==> f.gameState == Success)
    && (f.gameOverStartTime.Some? ==> f.gameState == GameOver)
    && (if f.gameState == WaitingForCreator then |f.createdSequence| < f.currentLevel
        else f.createdSequence == [] && |f.sequence| == f.currentLevel
             && f.currentGuesserIdx < n && f.currentGuesserIdx != f.currentCreatorIdx)
    && match f.gameState
       case WaitingForCreator => true
       case Showing => f.currentSequenceIndex == 0 && f.playerSequence == []
       case Waiting =>
         f.sequenceDisplayIndex == |f.sequence|
         && OnTrack(f.sequence, f.currentSequenceIndex, f.playerSequence)
       case Success => f.currentSequenceIndex == |f.sequence| && f.playerSequence == f.sequence
       case GameOver => Strayed(f.sequence, f.currentSequenceIndex, f.playerSequence)
  }

  /** Hover state is only live in hand control while a pick is expected, and a
      live dwell is never left at full progress. */
  ghost predicate HoverInv(f: Fields, mode: Control) {
    f.hover == IDLE
    || (mode == Hand && TakesInput(f.gameState) && IsInstrument(f.hover.instrument)
        && 0.0 <= f.hover.progress < 1.0)
  }

  ghost predicate Inv(f: Fields, ps: seq<string>, mode: Control, startingLevel: int) {
    TurnInv(f, ps, startingLevel) && HoverInv(f, mode)
  }

  lemma TurnInvReady(f: Fields, ps: seq<string>, startingLevel: int)
    requires TurnInv(f, ps, startingLevel)
    ensures CreatorSeated(f, ps)
    ensures f.gameState == Waiting ==> GuessReady(f, ps)
  {
  }

  lemma InitialInv(ps: seq<string>, mode: Control, startingLevel: int)
    requires |ps| >= 2 && startingLevel >= 1
    ensures Inv(Initial(ps, startingLevel), ps, mode, startingLevel)
  {
  }

  /** update, the whole tick. */
  function Ticked(f: Fields, ps: seq<string>, mode: Control, startingLevel: int, now: int): Fields
    requires Inv(f, ps, mode, startingLevel)
  {
    TurnInvReady(f, ps, startingLevel);
    var p := Phase(f, ps, now);
    PhaseKeepsInv(f, ps, mode, startingLevel, now);
    TurnInvReady(p, ps, startingLevel);
    DwellStep(p, ps, mode, now)
  }

  // ---------------------------------------------------------------------------
  // Properties of the transitions

  /** A creator's pick while waiting for the creator appends exactly that
      instrument; when the created sequence reaches currentLevel it becomes the
      sequence to guess, the created one is emptied and the sequence is shown
      from the start to the first guesser, so the sequence guessed always has
      exactly currentLevel instruments. */
  lemma CreatorPickStep(f: Fields, ps: seq<string>, startingLevel: int, i: int, now: int)
    requires TurnInv(f, ps, startingLevel) && f.gameState == WaitingForCreator && IsInstrument(i)
    ensures var g := Activated(f, ps, i, now);
      && TurnInv(g, ps, startingLevel)
      && g.scores == f.scores && g.roundScores == f.roundScores
      && (if |f.createdSequence| + 1 < f.currentLevel
          then g == f.(createdSequence := f.createdSequence + [i])
          else g.sequence == f.createdSequence + [i] && |g.sequence| == f.currentLevel
               && g.createdSequence == [] && g.gameState == Showing
               && g.sequenceDisplayIndex == 0 && g.highlightStartTime == now
               && g.currentGuesserIdx == FirstGuesser(f.currentCreatorIdx))
  {
  }

  /** A guesser's pick while waiting for input: a right pick advances the
      index; completing the sequence gives the current guesser exactly one
      point, changes no other score and moves to Success; a wrong pick moves to
      GameOver, leaves the scores alone and adds one pending point for the
      creator. Either way the points handed out (scores plus pending) rise by
      exactly one when the guesser's turn ends. */
  lemma GuesserPickStep(f: Fields, ps: seq<string>, startingLevel: int, i: int, now: int)
    requires TurnInv(f, ps, startingLevel) && f.gameState == Waiting && IsInstrument(i)
    ensures GuessReady(f, ps)
    ensures var g := Activated(f, ps, i, now);
      var guesser := ps[f.currentGuesserIdx];
      var creator := ps[f.currentCreatorIdx];
      && TurnInv(g, ps, startingLevel)
      && g.playerSequence == f.playerSequence + [i]
      && (i == f.sequence[f.currentSequenceIndex] ==>
            g.currentSequenceIndex == f.currentSequenceIndex + 1 && g.roundScores == f.roundScores)
      && (g.gameState == Success <==>
            i == f.sequence[f.currentSequenceIndex] && f.currentSequenceIndex + 1 == |f.sequence|)
      && (g.gameState == Success ==>
            g.scores == f.scores[guesser := f.scores[guesser] + 1]
            && Total(g.scores) == Total(f.scores) + 1)
      && (g.gameState == Waiting ==> g.scores == f.scores)
      && (g.gameState == GameOver <==> i != f.sequence[f.currentSequenceIndex])
      && (g.gameState == GameOver ==>
            g.scores == f.scores && g.currentSequenceIndex == f.currentSequenceIndex
            && creator in g.roundScores
            && g.roundScores[creator] == (if creator in f.roundScores then f.roundScores[creator] else 0) + 1
            && Total(g.roundScores) == Total(f.roundScores) + 1)
  {
    var guesser := ps[f.currentGuesserIdx];
    var creator := ps[f.currentCreatorIdx];
    JudgeStep(f.sequence, f.currentSequenceIndex, f.playerSequence, i);
    TotalBump(f.scores, guesser, 1);
    if creator in f.roundScores {
      TotalBump(f.roundScores, creator, 1);
    } else {
      TotalAdd(f.roundScores, creator, 1);
    }
  }

  /** Activation outside the two input states changes nothing. */
  lemma ActivatedKeepsInv(f: Fields, ps: seq<string>, startingLevel: int, i: int, now: int)
    requires TurnInv(f, ps, startingLevel) && IsInstrument(i)
    ensures f.gameState == Waiting ==> GuessReady(f, ps)
    ensures TurnInv(Activated(f, ps, i, now), ps, startingLevel)
    ensures !TakesInput(f.gameState) ==> Activated(f, ps, i, now) == f
  {
    if f.gameState == WaitingForCreator {
      CreatorPickStep(f, ps, startingLevel, i, now);
    } else if f.gameState == Waiting {
      GuesserPickStep(f, ps, startingLevel, i, now);
    }
  }

  /** end_round keeps every point: the creator's pending points move into the
      scores, the pending table is emptied, a round is counted, and either the
      next player (mod n) creates or, after n rounds, the level rises and
      player 1 creates first. */
  lemma RoundEndStep(f: Fields, ps: seq<string>, startingLevel: int)
    requires TurnInv(f, ps, startingLevel)
    ensures CreatorSeated(f, ps)
    ensures var g := RoundEnded(f, ps);
      var n := |ps|;
      && Total(g.scores) + Total(g.roundScores) == Total(f.scores) + Total(f.roundScores)
      && g.roundScores == map[]
      && g.gameState == WaitingForCreator && g.createdSequence == [] && g.hover == IDLE
      && (f.completedRoundsInLevel + 1 < n ==>
            g.completedRoundsInLevel == f.completedRoundsInLevel + 1
            && g.currentLevel == f.currentLevel
            && g.currentCreatorIdx == (f.currentCreatorIdx + 1) % n)
      && (f.completedRoundsInLevel + 1 == n ==>
            g.completedRoundsInLevel == 0 && g.currentLevel == f.currentLevel + 1
            && g.currentCreatorIdx == 1)
  {
    var c := ps[f.currentCreatorIdx];
    ModStep(f.currentCreatorIdx, |ps|);
    ModStep(0, |ps|);
    assert Total(map[]) == 0;
    if c in f.roundScores {
      assert f.roundScores.Keys == {c};
      TotalSingle(f.roundScores, c);
      TotalBump(f.scores, c, f.roundScores[c]);
    } else {
      assert f.roundScores.Keys == {};
    }
  }

  /** next_guesser: the guesser index moves to the next player other than the
      creator; past the last player the round ends, otherwise that player gets
      the sequence shown from the start with no picks and no hover. */
  lemma GuesserDoneStep(f: Fields, ps: seq<string>, startingLevel: int, now: int)
    requires TurnInv(f, ps, startingLevel) && (f.gameState == Success || f.gameState == GameOver)
    ensures CreatorSeated(f, ps)
    ensures var g := GuesserDone(f, ps, now);
      var next := NextGuesserIdx(f.currentGuesserIdx, f.currentCreatorIdx);
      if next >= |ps| then g == RoundEnded(f.(currentGuesserIdx := next), ps)
      else g.currentGuesserIdx == next && next != f.currentCreatorIdx
           && g.gameState == Showing && g.playerSequence == [] && g.currentSequenceIndex == 0
           && g.sequenceDisplayIndex == 0 && g.highlightStartTime == now && g.hover == IDLE
           && g.sequence == f.sequence && g.scores == f.scores && g.roundScores == f.roundScores
  {
  }

  lemma GuesserDoneKeepsInv(f: Fields, ps: seq<string>, mode: Control, startingLevel: int, now: int)
    requires Inv(f, ps, mode, startingLevel) && (f.gameState == Success || f.gameState == GameOver)
    requires f.successStartTime == None && f.gameOverStartTime == None
    ensures CreatorSeated(f, ps)
    ensures Inv(GuesserDone(f, ps, now), ps, mode, startingLevel)
  {
    var n := |ps|;
    var next := NextGuesserIdx(f.currentGuesserIdx, f.currentCreatorIdx);
    if next >= n {
      var g := f.(currentGuesserIdx := next);
      RoundEndKeepsInv(g, ps, mode, startingLevel);
    }
  }

  lemma RoundEndKeepsInv(f: Fields, ps: seq<string>, mode: Control, startingLevel: int)
    requires |ps| >= 2 && Listed(ps, f.scores) && f.currentCreatorIdx < |ps|
    requires forall k :: k in f.roundScores ==> k == ps[f.currentCreatorIdx]
    requires f.completedRoundsInLevel < |ps|
    requires 1 <= startingLevel <= f.currentLevel
    requires f.currentCreatorIdx
             == Creator(LevelStart(f.currentLevel, startingLevel), f.completedRoundsInLevel, |ps|)
    requires IsSequence(f.sequence) && IsSequence(f.createdSequence)
    requires f.highlightInstrument == -1 || IsInstrument(f.highlightInstrument)
    requires f.sequenceDisplayIndex <= |f.sequence|
    requires f.successStartTime == None && f.gameOverStartTime == None
    ensures CreatorSeated(f, ps)
    ensures Inv(RoundEnded(f, ps), ps, mode, startingLevel)
  {
    ModStep(f.currentCreatorIdx, |ps|);
    ModStep(0, |ps|);
  }

  /** The state-machine step keeps the invariant. */
  lemma PhaseKeepsInv(f: Fields, ps: seq<string>, mode: Control, startingLevel: int, now: int)
    requires Inv(f, ps, mode, startingLevel)
    ensures CreatorSeated(f, ps)
    ensures Inv(Phase(f, ps, now), ps, mode, startingLevel)
  {
    match f.gameState
    case Success =>
      if f.successStartTime.Some? && now - f.successStartTime.value > SUCCESS_PAUSE_MS {
        GuesserDoneKeepsInv(f.(successStartTime := None), ps, mode, startingLevel, now);
      }
    case GameOver =>
      if f.gameOverStartTime.Some? && now - f.gameOverStartTime.value > GAME_OVER_PAUSE_MS {
        GuesserDoneKeepsInv(f.(gameOverStartTime := None), ps, mode, startingLevel, now);
      }
    case _ =>
  }

  /** The hover step keeps the invariant, given a clock that has not gone back
      before the hover start. */
  lemma DwellStepKeepsInv(f: Fields, ps: seq<string>, mode: Control, startingLevel: int, now: int)
    requires Inv(f, ps, mode, startingLevel) && f.hover.startTime <= now
    ensures f.gameState == Waiting ==> GuessReady(f, ps)
    ensures Inv(DwellStep(f, ps, mode, now), ps, mode, startingLevel)
  {
    if mode == Hand && TakesInput(f.gameState) && f.hover.instrument >= 0 {
      var g := f.(hover := f.hover.(progress := Progress(f.hover.startTime, now)));
      TurnInvIgnoresHover(f, ps, startingLevel, g.hover);
      if g.hover.progress >= 1.0 {
        ActivatedKeepsInv(g, ps, startingLevel, g.hover.instrument, now);
        TurnInvIgnoresHover(Activated(g, ps, g.hover.instrument, now), ps, startingLevel, IDLE);
      }
    }
  }

  /** The turn invariant does not depend on the hover state. */
  lemma TurnInvIgnoresHover(f: Fields, ps: seq<string>, startingLevel: int, h: HoverState)
    requires TurnInv(f, ps, startingLevel)
    ensures TurnInv(f.(hover := h), ps, startingLevel)
  {
  }

  /** Each update keeps the invariant. */
  lemma TickedKeepsInv(f: Fields, ps: seq<string>, mode: Control, startingLevel: int, now: int)
    requires Inv(f, ps, mode, startingLevel) && f.hover.startTime <= now
    ensures Inv(Ticked(f, ps, mode, startingLevel, now), ps, mode, startingLevel)
  {
    PhaseKeepsInv(f, ps, mode, startingLevel, now);
    DwellStepKeepsInv(Phase(f, ps, now), ps, mode, startingLevel, now);
  }

  /** While showing: for the first 0.8 s of a cycle the current instrument is
      highlighted, until 1.1 s nothing is, and then the display moves to the
      next instrument and restarts the cycle; after the last one the state
      becomes Waiting with no highlight. Nothing else changes. */
  lemma ShowingStep(f: Fields, ps: seq<string>, mode: Control, startingLevel: int, now: int)
    requires Inv(f, ps, mode, startingLevel) && f.gameState == Showing
    ensures var g := Ticked(f, ps, mode, startingLevel, now);
      var cycle := now - f.highlightStartTime;
      if f.sequenceDisplayIndex == |f.sequence| then
        g == f.(gameState := Waiting, highlightInstrument := -1)
      else if cycle < HIGHLIGHT_MS then
        g == f.(highlightInstrument := f.sequence[f.sequenceDisplayIndex])
      else if cycle < CYCLE_MS then g == f.(highlightInstrument := -1)
      else g == f.(sequenceDisplayIndex := f.sequenceDisplayIndex + 1, highlightStartTime := now)
  {
  }

  /** After a completed sequence the first tick starts a pause; once more than
      1.0 s has passed, the next guesser follows. After a mistake the same
      with 1.5 s. Until then nothing changes. */
  lemma PauseStep(f: Fields, ps: seq<string>, mode: Control, startingLevel: int, now: int)
    requires Inv(f, ps, mode, startingLevel) && (f.gameState == Success || f.gameState == GameOver)
    ensures CreatorSeated(f, ps)
    ensures var g := Ticked(f, ps, mode, startingLevel, now);
      var timer := if f.gameState == Success then f.successStartTime else f.gameOverStartTime;
      var pause := if f.gameState == Success then SUCCESS_PAUSE_MS else GAME_OVER_PAUSE_MS;
      match timer
      case None => g == (if f.gameState == Success then f.(successStartTime := Some(now))
                         else f.(gameOverStartTime := Some(now)))
      case Some(t) =>
        if now - t > pause
        then g == GuesserDone(f.(successStartTime := None, gameOverStartTime := None), ps, now)
        else g == f
  {
    var h := f.(successStartTime := None, gameOverStartTime := None);
    if f.gameState == Success && f.successStartTime.Some?
       && now - f.successStartTime.value > SUCCESS_PAUSE_MS {
      assert h == f.(successStartTime := None);
      GuesserDoneKeepsInv(h, ps, mode, startingLevel, now);
      GuesserDoneStep(h, ps, startingLevel, now);
    } else if f.gameState == GameOver && f.gameOverStartTime.Some?
       && now - f.gameOverStartTime.value > GAME_OVER_PAUSE_MS {
      assert h == f.(gameOverStartTime := None);
      GuesserDoneKeepsInv(h, ps, mode, startingLevel, now);
      GuesserDoneStep(h, ps, startingLevel, now);
    }
  }

  /** Hand control while a pick is expected: with a tracked instrument a tick
      either stores a progress in [0, 1) or, once a full dwell has elapsed,
      activates exactly that instrument once and returns hover to IDLE. */
  lemma DwellTick(f: Fields, ps: seq<string>, startingLevel: int, now: int)
    requires Inv(f, ps, Hand, startingLevel) && TakesInput(f.gameState)
    requires f.hover.instrument >= 0 && f.hover.startTime <= now
    ensures f.gameState == Waiting ==> GuessReady(f, ps)
    ensures var g := Ticked(f, ps, Hand, startingLevel, now);
      if now - f.hover.startTime >= DWELL_MS
      then g == Activated(f, ps, f.hover.instrument, now).(hover := IDLE)
      else g == f.(hover := f.hover.(progress := Progress(f.hover.startTime, now)))
           && 0.0 <= g.hover.progress < 1.0
  {
  }

  /** Hover and click change nothing unless a pick is expected (Waiting or
      WaitingForCreator); a click within the cooldown of the last accepted one
      changes nothing either. Both keep the invariant. */
  lemma InputGated(f: Fields, ps: seq<string>, mode: Control, startingLevel: int, x: int, y: int, now: int)
    requires Inv(f, ps, mode, startingLevel)
    ensures f.gameState == Waiting ==> GuessReady(f, ps)
    ensures !TakesInput(f.gameState) ==> Hovered(f, mode, x, y, now) == f
    ensures !TakesInput(f.gameState) || !CooldownOver(f.lastTouchTime, now) ==>
      Touched(f, ps, mode, x, y, now) == f
    ensures Inv(Hovered(f, mode, x, y, now), ps, mode, startingLevel)
    ensures Inv(Touched(f, ps, mode, x, y, now), ps, mode, startingLevel)
  {
    var hit := FirstHit(x, y);
    if mode == Mouse && TakesInput(f.gameState) && hit >= 0 {
      ActivatedKeepsInv(f, ps, startingLevel, hit, now);
    }
  }

  /** Two clicks: once a click on an instrument is accepted at t1, a second
      click before t1 + 0.5 s changes nothing, wherever it lands; from
      t1 + 0.5 s on, a click on an instrument is accepted again while a pick
      is still expected. */
  lemma SecondClickDropped(f: Fields, ps: seq<string>, startingLevel: int,
                           x: int, y: int, x2: int, y2: int, t1: int, t2: int)
    requires Inv(f, ps, Mouse, startingLevel) && TakesInput(f.gameState)
    requires CooldownOver(f.lastTouchTime, t1) && FirstHit(x, y) >= 0
    ensures f.gameState == Waiting ==> GuessReady(f, ps)
    ensures Inv(Touched(f, ps, Mouse, x, y, t1), ps, Mouse, startingLevel)
    ensures var g := Touched(f, ps, Mouse, x, y, t1);
      g.gameState == Waiting ==> GuessReady(g, ps)
    ensures var g := Touched(f, ps, Mouse, x, y, t1);
      && g.lastTouchTime == t1
      && (t2 < t1 + COOLDOWN_MS ==> Touched(g, ps, Mouse, x2, y2, t2) == g)
      && (t2 >= t1 + COOLDOWN_MS && TakesInput(g.gameState) && FirstHit(x2, y2) >= 0 ==>
            Touched(g, ps, Mouse, x2, y2, t2).lastTouchTime == t2)
  {
    InputGated(f, ps, Mouse, startingLevel, x, y, t1);
    InputGated(Touched(f, ps, Mouse, x, y, t1), ps, Mouse, startingLevel, x2, y2, t2);
  }

  /** The defect in start_guessing_phase. Two players, level 2: player 1
      guesses player 0's sequence [0, 1] correctly, so after the pause the
      round ends with the index at 2 and the picks [0, 1]. Player 1 then
      creates [2, 3]; as written, guessing starts with the index still at 2
      = |sequence|, so player 0's first pick reads sequence[2], past the end.
      The corrected start clears the index and the picks. */
  lemma StaleTurnAfterRound()
    ensures var ps := ["A", "B"];
      var f := Fields(map["A" := 0, "B" := 1], 0, 2, [], 1, map[], Success,
                      [0, 1], 2, [0, 1], -1, 0, 2, 0, IDLE, 0, Some(0), None);
      var w := Ticked(f, ps, Mouse, 2, 2000);
      var c := Activated(w, ps, 2, 3000);
      var asWritten := StartGuessingAsWritten(c.(sequence := [2, 3], createdSequence := []), 4000);
      var fixed := Activated(c, ps, 3, 4000);
      && Inv(f, ps, Mouse, 2)
      && w.gameState == WaitingForCreator && w.currentCreatorIdx == 1
      && c.createdSequence == [2]
      && asWritten.gameState == Showing && asWritten.currentGuesserIdx == 0
      && asWritten.currentSequenceIndex == |asWritten.sequence| && asWritten.playerSequence == [0, 1]
      && fixed.sequence == [2, 3] && fixed.currentSequenceIndex == 0 && fixed.playerSequence == []
  {
    var ps := ["A", "B"];
    var f := Fields(map["A" := 0, "B" := 1], 0, 2, [], 1, map[], Success,
                    [0, 1], 2, [0, 1], -1, 0, 2, 0, IDLE, 0, Some(0), None);
    assert OnTrack([0, 1], 1, [0]);
    assert Inv(f, ps, Mouse, 2);
    TurnInvReady(f, ps, 2);
    var w := Ticked(f, ps, Mouse, 2, 2000);
    assert w == CreatorRotated(f.(successStartTime := None, currentGuesserIdx := 2,
                                  roundScores := map[], completedRoundsInLevel := 1), 2);
  }

  /** The scores in join order. */
  function ScoreList(ps: seq<string>, scores: map<string, int>): (key: seq<int>)
    requires Listed(ps, scores)
    ensures |key| == |ps| && forall i :: 0 <= i < |ps| ==> key[i] == scores[ps[i]]
  {
    if ps == [] then [] else ScoreList(ps[..|ps| - 1], scores) + [scores[ps[|ps| - 1]]]
  }

  /** The ranking of print_scores and of the score bar, as player indices. */
  function Standings(ps: seq<string>, scores: map<string, int>): seq<nat>
    requires Listed(ps, scores)
  {
    Ranking(ScoreList(ps, scores))
  }

  /** The standings name every player once, by descending score, and players
      with equal scores in join order. */
  lemma StandingsCorrect(ps: seq<string>, scores: map<string, int>)
    requires Listed(ps, scores)
    ensures var r := Standings(ps, scores);
      && |r| == |ps| && multiset(r) == multiset(Upto(|ps|))
      && (forall a, b :: 0 <= a < b < |r| ==> scores[ps[r[a]]] >= scores[ps[r[b]]])
      && (forall a, b :: 0 <= a < b < |r| && scores[ps[r[a]]] == scores[ps[r[b]]] ==> r[a] < r[b])
  {
    var key := ScoreList(ps, scores);
    RankingCorrect(key);
    var r := Standings(ps, scores);
    forall a | 0 <= a < |r|
      ensures r[a] < |ps|
    {
      assert r[a] in multiset(Upto(|ps|));
    }
  }

  // ---------------------------------------------------------------------------
  // The session object

  class MultiplayerGame {
    const players: seq<string>
    var scores: map<string, int>
    var currentCreatorIdx: nat
    var currentLevel: int
    var createdSequence: seq<int>
    var currentGuesserIdx: nat
    var roundScores: map<string, int>
    const controlMode: Control
    var gameState: GameState
    var sequence: seq<int>
    var currentSequenceIndex: nat
    var playerSequence: seq<int>
    var display: Display
    var lastTouchTime: int
    var hover: HoverState
    var completedRoundsInLevel: nat
    const totalRoundsPerLevel: nat
    var successStartTime: Option<int>
    var gameOverStartTime: Option<int>
    /** The level the session began at, which fixes where the creator rotation
        of each level starts. */
    ghost const startingLevel: int

    function View(): Fields
      reads this
    {
      Fields(scores, currentCreatorIdx, currentLevel, createdSequence, currentGuesserIdx,
             roundScores, gameState, sequence, currentSequenceIndex, playerSequence,
             display.highlightInstrument, display.highlightStartTime,
             display.sequenceDisplayIndex, lastTouchTime,
             hover,
             completedRoundsInLevel, successStartTime, gameOverStartTime)
    }

    ghost predicate Valid()
      reads this
    {
      totalRoundsPerLevel == |players| && Inv(View(), players, controlMode, startingLevel)
    }

    /** The parts of the invariant the round-ending methods rely on. */
    predicate Seated()
      reads this
    {
      |players| >= 2 && totalRoundsPerLevel == |players| && CreatorSeated(View(), players)
    }

    /** A new session. The setup dialog admits 2 to 6 players and a starting
        level of 2 to 6. */
    constructor (players: seq<string>, controlMode: Control, startingLevel: int)
      requires |players| >= 2 && startingLevel >= 1
      ensures Valid() && this.players == players && this.controlMode == controlMode
      ensures this.startingLevel == startingLevel
      ensures View() == Initial(players, startingLevel)
    {
      this.players := players;
      scores := map p | p in players :: 0;
      currentCreatorIdx := 0;
      currentLevel := startingLevel;
      createdSequence := [];
      currentGuesserIdx := 0;
      roundScores := map[];
      this.controlMode := controlMode;
      gameState := WaitingForCreator;
      sequence := [];
      currentSequenceIndex := 0;
      playerSequence := [];
      display := Display(-1, 0, 0);
      lastTouchTime := 0;
      hover := IDLE;
      completedRoundsInLevel := 0;
      totalRoundsPerLevel := |players|;
      successStartTime := None;
      gameOverStartTime := None;
      this.startingLevel := startingLevel;
      new;
      InitialInv(players, controlMode, startingLevel);
    }

    /** get_current_creator: the creator always has a score entry. */
    function GetCurrentCreator(): (name: string)
      reads this
      requires Seated()
      ensures name in players && name in scores
    {
      players[currentCreatorIdx]
    }

    /** get_current_guesser: a name while the index is within the players,
        None past the last one. */
    function GetCurrentGuesser(): (name: Option<string>)
      reads this
      ensures name.Some? <==> currentGuesserIdx < |players|
      ensures name.Some? ==> name.value in players
    {
      if currentGuesserIdx < |players| then Some(players[currentGuesserIdx]) else None
    }

    method ResetHoverState()
      modifies this`hover
      ensures hover == IDLE
    {
      hover := IDLE;
    }

    /** update_hover. */
    method UpdateHover(x: int, y: int, now: int)
      requires Valid()
      modifies this`hover
      ensures Valid()
      ensures View() == Hovered(old(View()), controlMode, x, y, now)
    {
      InputGated(View(), players, controlMode, startingLevel, x, y, now);
      if controlMode != Hand {
        return;
      }
      if !TakesInput(gameState) {
        return;
      }
      var hovered := Scan(x, y);
      if hovered != hover.instrument {
        if hovered >= 0 {
          hover := HoverState(hovered, now, 0.0);
        } else {
          ResetHoverState();
        }
      }
    }

    /** check_touch. */
    method CheckTouch(x: int, y: int, now: int)
      requires Valid()
      modifies this
      ensures Valid()
      ensures View() == Touched(old(View()), players, controlMode, x, y, now)
    {
      InputGated(View(), players, controlMode, startingLevel, x, y, now);
      if controlMode != Mouse {
        return;
      }
      if !TakesInput(gameState) {
        return;
      }
      if now - lastTouchTime < COOLDOWN_MS {
        return;
      }
      var hit := Scan(x, y);
      if hit >= 0 {
        ActivateInstrument(hit, now);
        lastTouchTime := now;
      }
    }

    /** activate_instrument (the sound is left out). */
    method ActivateInstrument(i: int, now: int)
      requires IsInstrument(i)
      requires gameState == Waiting ==> GuessReady(View(), players)
      modifies this`createdSequence, this`sequence, this`currentGuesserIdx, this`gameState,
               this`display, this`currentSequenceIndex,
               this`playerSequence, this`scores, this`roundScores
      ensures View() == Activated(old(View()), players, i, now)
    {
      if gameState == WaitingForCreator {
        CreatorPick(i, now);
      } else if gameState == Waiting {
        GuesserPick(i);
      }
    }

    /** The creator's branch of activate_instrument. */
    method CreatorPick(i: int, now: int)
      modifies this`createdSequence, this`sequence, this`currentGuesserIdx, this`gameState,
               this`display, this`currentSequenceIndex,
               this`playerSequence
      ensures View() == CreatorPicked(old(View()), i, now)
    {
      createdSequence := createdSequence + [i];
      if |createdSequence| >= currentLevel {
        sequence := createdSequence;
        createdSequence := [];
        StartGuessingPhase(now);
      }
    }

    /** The guesser's branch of activate_instrument. */
    method GuesserPick(i: int)
      requires GuessReady(View(), players)
      modifies this`gameState, this`currentSequenceIndex, this`playerSequence, this`scores,
               this`roundScores
      ensures View() == GuesserPicked(old(View()), players, i)
    {
      playerSequence := playerSequence + [i];
      var expected := sequence[currentSequenceIndex];
      var guesser := players[currentGuesserIdx];
      if i == expected {
        currentSequenceIndex := currentSequenceIndex + 1;
        if currentSequenceIndex >= |sequence| {
          scores := scores[guesser := scores[guesser] + 1];
          gameState := Success;
        }
      } else {
        roundScores := Credit(roundScores, players[currentCreatorIdx]);
        gameState := GameOver;
      }
    }

    /** start_guessing_phase, corrected to clear the previous guesser's index
        and picks (see Findings in the README). */
    method StartGuessingPhase(now: int)
      modifies this`currentGuesserIdx, this`gameState, this`display, this`currentSequenceIndex, this`playerSequence
      ensures View() == StartGuessing(old(View()), now)
    {
      currentGuesserIdx := FirstGuesser(currentCreatorIdx);
      gameState := Showing;
      display := display.(sequenceDisplayIndex := 0, highlightStartTime := now);
      currentSequenceIndex := 0;
      playerSequence := [];
    }

    /** next_guesser. */
    method NextGuesser(now: int)
      requires Seated()
      modifies this
      ensures View() == GuesserDone(old(View()), players, now)
    {
      currentGuesserIdx := NextGuesserIdx(currentGuesserIdx, currentCreatorIdx);
      if currentGuesserIdx >= |players| {
        EndRound();
      } else {
        ResetForNextGuesser(now);
      }
    }

    /** reset_for_next_guesser. */
    method ResetForNextGuesser(now: int)
      modifies this`playerSequence, this`currentSequenceIndex, this`gameState,
               this`display,
               this`hover
      ensures View() == NextGuesserReset(old(View()), now)
    {
      playerSequence := [];
      currentSequenceIndex := 0;
      gameState := Showing;
      display := display.(sequenceDisplayIndex := 0, highlightStartTime := now);
      ResetHoverState();
    }

    /** end_round. */
    method EndRound()
      requires Seated()
      modifies this`scores, this`roundScores, this`completedRoundsInLevel, this`currentLevel,
               this`currentCreatorIdx, this`gameState, this`createdSequence, this`hover
      ensures View() == RoundEnded(old(View()), players)
    {
      SettleRound();
      if completedRoundsInLevel >= totalRoundsPerLevel {
        NextLevel();
      } else {
        NextCreator();
      }
    }

    /** The scoring half of end_round: the creator's pending points are added
        to their score, the pending table is emptied and the round counted. */
    method SettleRound()
      requires Seated()
      modifies this`scores, this`roundScores, this`completedRoundsInLevel
      ensures View() == Settled(old(View()), players)
    {
      var creator := players[currentCreatorIdx];
      if creator in roundScores {
        scores := scores[creator := scores[creator] + roundScores[creator]];
      }
      roundScores := map[];
      completedRoundsInLevel := completedRoundsInLevel + 1;
    }

    /** next_creator. */
    method NextCreator()
      requires |players| > 0
      modifies this`currentCreatorIdx, this`gameState, this`createdSequence, this`hover
      ensures View() == CreatorRotated(old(View()), |players|)
    {
      currentCreatorIdx := (currentCreatorIdx + 1) % |players|;
      gameState := WaitingForCreator;
      createdSequence := [];
      ResetHoverState();
    }

    /** next_level (the one-second pause is left out). */
    method NextLevel()
      requires |players| > 0
      modifies this`currentLevel, this`completedRoundsInLevel, this`currentCreatorIdx,
               this`gameState, this`createdSequence, this`hover
      ensures View() == LevelRaised(old(View()), |players|)
    {
      currentLevel := currentLevel + 1;
      completedRoundsInLevel := 0;
      currentCreatorIdx := 0;
      NextCreator();
    }

    /** update: the state-machine block, then the hover block. */
    method Update(now: int)
      requires Valid() && hover.startTime <= now
      modifies this
      ensures Valid()
      ensures View() == Ticked(old(View()), players, controlMode, startingLevel, now)
    {
      ghost var f := View();
      TurnInvReady(f, players, startingLevel);
      PhaseKeepsInv(f, players, controlMode, startingLevel, now);
      UpdatePhase(now);
      ghost var p := View();
      TurnInvReady(p, players, startingLevel);
      DwellStepKeepsInv(p, players, controlMode, startingLevel, now);
      UpdateDwell(now);
    }

    /** The state-machine block of update. */
    method UpdatePhase(now: int)
      requires Seated()
      modifies this
      ensures View() == Phase(old(View()), players, now)
    {
      if gameState == Showing {
        if display.sequenceDisplayIndex < |sequence| {
          var cycle := now - display.highlightStartTime;
          if cycle < HIGHLIGHT_MS {
            display := display.(highlightInstrument := sequence[display.sequenceDisplayIndex]);
          } else if cycle < CYCLE_MS {
            display := display.(highlightInstrument := -1);
          } else {
            display := display.(sequenceDisplayIndex := display.sequenceDisplayIndex + 1,
                                highlightStartTime := now);
          }
        } else {
          gameState := Waiting;
          display := display.(highlightInstrument := -1);
        }
      } else if gameState == Success {
        if successStartTime.None? {
          successStartTime := Some(now);
        } else if now - successStartTime.value > SUCCESS_PAUSE_MS {
          successStartTime := None;
          NextGuesser(now);
        }
      } else if gameState == GameOver {
        if gameOverStartTime.None? {
          gameOverStartTime := Some(now);
        } else if now - gameOverStartTime.value > GAME_OVER_PAUSE_MS {
          gameOverStartTime := None;
          NextGuesser(now);
        }
      }
    }

    /** The hover block of update. */
    method UpdateDwell(now: int)
      requires gameState == Waiting ==> GuessReady(View(), players)
      requires hover.instrument >= 0 ==> IsInstrument(hover.instrument)
      modifies this
      ensures View() == DwellStep(old(View()), players, controlMode, now)
    {
      if controlMode == Hand && TakesInput(gameState) {
        if hover.instrument >= 0 {
          hover := hover.(progress := Progress(hover.startTime, now));
          if hover.progress >= 1.0 {
            ActivateInstrument(hover.instrument, now);
            ResetHoverState();
          }
        } else {
          hover := hover.(progress := 0.0);
        }
      }
    }
  }
}
