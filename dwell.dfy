/** Selection confirmation shared by the three modes: the dwell ("hover") timer
    of hand control and the click cooldown of mouse control. Time is an
    integer number of milliseconds read from the caller's clock. */
module Dwell {

  /** How the player selects: a tracked fingertip with a dwell, or mouse
      clicks with a cooldown. */
  datatype Control = Hand | Mouse

  /** hover_duration_needed: 1.0 s. */
  const DWELL_MS: int := 1000

  /** touch_cooldown: 0.5 s. */
  const COOLDOWN_MS: int := 500

  /** The three hover fields of every mode: the tracked instrument (-1 for
      none), when tracking began, and the fraction of the dwell completed. */
  datatype HoverState = HoverState(instrument: int, startTime: int, progress: real)

  /** What reset_hover_state leaves behind: (-1, 0, 0.0). */
  const IDLE: HoverState := HoverState(-1, 0, 0.0)

  function Min(a: real, b: real): real {
    if a < b then a else b
  }

  /** hover_progress = min(elapsed / hover_duration_needed, 1.0), computed
      exactly. Between the start and DWELL_MS later it climbs from 0 to 1, and
      it reaches 1 exactly when a full dwell has elapsed. */
  function Progress(startTime: int, now: int): (p: real)
    ensures startTime <= now ==> 0.0 <= p
    ensures p <= 1.0
    ensures p >= 1.0 <==> now - startTime >= DWELL_MS
    ensures now == startTime ==> p == 0.0
  {
    Min((now - startTime) as real / DWELL_MS as real, 1.0)
  }

  /** Progress never goes down while the clock moves forward. */
  lemma ProgressMonotone(startTime: int, t1: int, t2: int)
    requires t1 <= t2
    ensures Progress(startTime, t1) <= Progress(startTime, t2)
  {
  }

  /** The candidate-tracking step of update_hover: when the instrument under
      the cursor differs from the tracked one, a new candidate restarts the
      timer at `now` with progress 0 and no candidate resets to IDLE; the same
      candidate leaves the state as it is. */
  function Retarget(h: HoverState, hovered: int, now: int): (r: HoverState)
    requires hovered >= -1
    ensures r.instrument == hovered
    ensures hovered != h.instrument && hovered >= 0 ==> r.startTime == now && r.progress == 0.0
    ensures hovered != h.instrument && hovered == -1 ==> r == IDLE
    ensures hovered == h.instrument ==> r == h
  {
    if hovered != h.instrument then
      if hovered >= 0 then HoverState(hovered, now, 0.0) else IDLE
    else h
  }

  /** The result of one dwell-completion check: the new hover state and the
      instrument to activate, -1 for none. */
  datatype DwellResult = DwellResult(hover: HoverState, fired: int)

  /** The completion check on a tracked candidate: progress is recomputed;
      at 1.0 the candidate is activated once and the hover state returns to
      IDLE, so holding on must start a fresh dwell before it fires again. */
  function CheckDwell(h: HoverState, now: int): (c: DwellResult)
    requires h.instrument >= 0
    ensures c.fired == h.instrument || c.fired == -1
    ensures c.fired >= 0 <==> now - h.startTime >= DWELL_MS
    ensures c.fired >= 0 ==> c.hover == IDLE
    ensures c.fired == -1 ==> c.hover == h.(progress := Progress(h.startTime, now))
                              && c.hover.progress < 1.0
  {
    var p := Progress(h.startTime, now);
    if p >= 1.0 then DwellResult(IDLE, h.instrument) else DwellResult(h.(progress := p), -1)
  }

  /** A click at `now` is considered only when the cooldown since the last
      accepted click has passed: the source drops it when
      now - lastTouchTime < touch_cooldown. */
  predicate CooldownOver(lastTouchTime: int, now: int) {
    !(now - lastTouchTime < COOLDOWN_MS)
  }
}
