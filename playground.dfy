/** Free play (PlaygroundMode in src/playground.py): no sequence and no game
    state, every confirmed selection plays the instrument and is logged. The
    dwell completes inside update_hover itself, and the in-memory history
    keeps only the last ten notes. */
module Playground {
  import opened Catalog
  import opened Dwell

  /** Instrument names of the playground catalogue, in catalogue order. */
  const NAMES: seq<string> := ["Pianino", "Trabka", "Harfa", "Gitara", "Perkusja", "Flet"]

  /** Most notes kept in memory. */
  const HISTORY_LIMIT: nat := 10

  /** One played note: when it was played (the caller's clock in milliseconds;
      the source formats wall-clock time as text) and the instrument's name. */
  datatype Note = Note(timestamp: int, instrument: string)

  /** The last n entries of a log, all of it when it is shorter. */
  function LastN(log: seq<Note>, n: nat): (r: seq<Note>)
    ensures |r| == if |log| <= n then |log| else n
  {
    if |log| <= n then log else log[|log| - n..]
  }

  /** The history update of activate_instrument: append, then drop the oldest
      entry when there are more than HISTORY_LIMIT. */
  function Recorded(played: seq<Note>, note: Note): seq<Note> {
    var h := played + [note];
    if |h| > HISTORY_LIMIT then h[1..] else h
  }

  /** If the in-memory history was the last ten entries of the full log, it
      still is after the next note is appended to both: the history never
      exceeds ten entries and always holds the most recent notes in order. */
  lemma RecordedKeepsRecent(log: seq<Note>, played: seq<Note>, note: Note)
    requires played == LastN(log, HISTORY_LIMIT)
    ensures Recorded(played, note) == LastN(log + [note], HISTORY_LIMIT)
    ensures |Recorded(played, note)| <= HISTORY_LIMIT
    ensures Recorded(played, note)[|Recorded(played, note)| - 1] == note
  {
    var log' := log + [note];
    if |log| < HISTORY_LIMIT {
      assert Recorded(played, note) == log';
    } else {
      assert log'[|log'| - HISTORY_LIMIT..] == log[|log| - HISTORY_LIMIT + 1..] + [note];
      assert (played + [note])[1..] == played[1..] + [note];
    }
  }

  /** One call of update_hover in hand control: track the instrument under the
      cursor, then run the dwell check on it. */
  function HoverStep(h: HoverState, hovered: int, now: int): (r: DwellResult)
    requires hovered >= -1
    ensures r.fired == -1 || r.fired == hovered
  {
    var h1 := Retarget(h, hovered, now);
    if h1.instrument >= 0 then CheckDwell(h1, now) else DwellResult(h1, -1)
  }

  /** The call that first selects an instrument never fires it: its timer
      starts at that very call. */
  lemma FirstSelectionDoesNotFire(h: HoverState, hovered: int, now: int)
    requires hovered >= 0 && hovered != h.instrument
    ensures HoverStep(h, hovered, now).fired == -1
    ensures HoverStep(h, hovered, now).hover == HoverState(hovered, now, 0.0)
  {
  }

  /** The times at which a dwell fires while the cursor stays on instrument c
      through update_hover calls at the frame times `ts`. */
  function Hold(h: HoverState, c: int, ts: seq<int>): seq<int>
    requires c >= 0
    decreases |ts|
  {
    if ts == [] then []
    else
      var r := HoverStep(h, c, ts[0]);
      (if r.fired >= 0 then [ts[0]] else []) + Hold(r.hover, c, ts[1..])
  }

  /** When the dwell on c started, as seen from a call at time t. */
  function Anchor(h: HoverState, c: int, t: int): int {
    if h.instrument == c then h.startTime else t
  }

  predicate Sorted(ts: seq<int>) {
    forall i, j :: 0 <= i < j < |ts| ==> ts[i] <= ts[j]
  }

  /** Every activation during a hold happens at one of its frame times. */
  lemma {:induction false} HoldWithin(h: HoverState, c: int, ts: seq<int>)
    requires c >= 0
    ensures forall k :: 0 <= k < |Hold(h, c, ts)| ==> Hold(h, c, ts)[k] in ts
    decreases |ts|
  {
    if ts != [] {
      var r := HoverStep(h, c, ts[0]);
      HoldWithin(r.hover, c, ts[1..]);
      var rest := Hold(r.hover, c, ts[1..]);
      assert forall t :: t in ts[1..] ==> t in ts;
      assert Hold(h, c, ts) == (if r.fired >= 0 then [ts[0]] else []) + rest;
    }
  }

  /** Holding still on one instrument: the first activation comes no earlier
      than a full dwell after the hold began, and each further one a full
      dwell after the previous one. So each activation needs a full dwell of
      its own. */
  lemma {:induction false} HoldSpacing(h: HoverState, c: int, ts: seq<int>)
    requires c >= 0 && Sorted(ts) && ts != []
    requires h.instrument == c ==> h.startTime <= ts[0]
    ensures Hold(h, c, ts) != [] ==> Anchor(h, c, ts[0]) + DWELL_MS <= Hold(h, c, ts)[0]
    ensures forall k :: 0 < k < |Hold(h, c, ts)| ==> Hold(h, c, ts)[k - 1] + DWELL_MS <= Hold(h, c, ts)[k]
    decreases |ts|
  {
    var r := HoverStep(h, c, ts[0]);
    var rest := Hold(r.hover, c, ts[1..]);
    if |ts| > 1 {
      HoldSpacing(r.hover, c, ts[1..]);
      assert Anchor(r.hover, c, ts[1]) == if r.fired >= 0 then ts[1] else Anchor(h, c, ts[0]);
    } else {
      assert rest == [];
    }
    if r.fired >= 0 {
      assert Hold(h, c, ts) == [ts[0]] + rest;
    } else {
      assert Hold(h, c, ts) == rest;
    }
  }

  /** Holding still on one instrument until a full dwell has passed fires it
      at least once. */
  lemma {:induction false} HoldFires(h: HoverState, c: int, ts: seq<int>)
    requires c >= 0 && ts != [] && Sorted(ts)
    requires h.instrument == c ==> h.startTime <= ts[0]
    requires ts[|ts| - 1] - Anchor(h, c, ts[0]) >= DWELL_MS
    ensures |Hold(h, c, ts)| >= 1
    decreases |ts|
  {
    var r := HoverStep(h, c, ts[0]);
    if r.fired < 0 {
      assert |ts| > 1;
      assert Anchor(r.hover, c, ts[1]) == Anchor(h, c, ts[0]);
      HoldFires(r.hover, c, ts[1..]);
    }
  }

  /** A hold that lasts at least one dwell activates the instrument, and a
      second activation within the same hold needs at least two full dwells:
      a hold shorter than that activates it exactly once. */
  lemma HoldFiresOnce(h: HoverState, c: int, ts: seq<int>)
    requires c >= 0 && ts != [] && Sorted(ts)
    requires h.instrument == c ==> h.startTime <= ts[0]
    requires ts[|ts| - 1] - Anchor(h, c, ts[0]) >= DWELL_MS
    ensures |Hold(h, c, ts)| == 1 || ts[|ts| - 1] - Anchor(h, c, ts[0]) >= 2 * DWELL_MS
  {
    HoldFires(h, c, ts);
    HoldSpacing(h, c, ts);
    HoldWithin(h, c, ts);
    var fires := Hold(h, c, ts);
    if |fires| > 1 {
      assert fires[1] in ts;
      assert Anchor(h, c, ts[0]) + 2 * DWELL_MS <= fires[1];
    }
  }

  /** The mutable fields of a PlaygroundMode. */
  datatype Fields = Fields(playedInstruments: seq<Note>, hover: HoverState, lastTouchTime: int)

  /** check_touch: in mouse control, a click outside the cooldown on an
      instrument records the first instrument hit and the click time. */
  function Touched(f: Fields, mode: Control, x: int, y: int, now: int): Fields {
    var hit := FirstHit(x, y);
    if mode == Mouse && CooldownOver(f.lastTouchTime, now) && hit >= 0
    then f.(playedInstruments := Recorded(f.playedInstruments, Note(now, NAMES[hit])),
            lastTouchTime := now)
    else f
  }

  /** Two clicks: once a click on an instrument is accepted at t1, a second
      click before t1 + 0.5 s changes nothing, wherever it lands; from
      t1 + 0.5 s on, a click on an instrument is accepted again and recorded. */
  lemma SecondClickDropped(f: Fields, x: int, y: int, x2: int, y2: int, t1: int, t2: int)
    requires CooldownOver(f.lastTouchTime, t1) && FirstHit(x, y) >= 0
    ensures var g := Touched(f, Mouse, x, y, t1);
      && g.lastTouchTime == t1
      && g.playedInstruments[|g.playedInstruments| - 1] == Note(t1, NAMES[FirstHit(x, y)])
      && (t2 < t1 + COOLDOWN_MS ==> Touched(g, Mouse, x2, y2, t2) == g)
      && (t2 >= t1 + COOLDOWN_MS && FirstHit(x2, y2) >= 0 ==>
            Touched(g, Mouse, x2, y2, t2).lastTouchTime == t2
            && Touched(g, Mouse, x2, y2, t2).playedInstruments
               == Recorded(g.playedInstruments, Note(t2, NAMES[FirstHit(x2, y2)])))
  {
  }

  class PlaygroundMode {
    const controlMode: Control
    var playedInstruments: seq<Note>
    var hoverInstrument: int
    var hoverStartTime: int
    var hoverProgress: real
    var lastTouchTime: int
    /** Every note written to the CSV file by this session, oldest first. */
    ghost var csvLog: seq<Note>

    function Hover(): HoverState
      reads this
    {
      HoverState(hoverInstrument, hoverStartTime, hoverProgress)
    }

    function View(): Fields
      reads this
    {
      Fields(playedInstruments, Hover(), lastTouchTime)
    }

    ghost predicate Valid()
      reads this
    {
      && playedInstruments == LastN(csvLog, HISTORY_LIMIT)
      && (Hover() == IDLE
          || (controlMode == Hand && IsInstrument(hoverInstrument)
              && 0.0 <= hoverProgress < 1.0))
    }

    constructor (controlMode: Control)
      ensures Valid() && this.controlMode == controlMode
      ensures View() == Fields([], IDLE, 0) && csvLog == []
    {
      this.controlMode := controlMode;
      playedInstruments := [];
      hoverInstrument := -1;
      hoverStartTime := 0;
      hoverProgress := 0.0;
      lastTouchTime := 0;
      csvLog := [];
      assert LastN([], HISTORY_LIMIT) == [];
    }

    /** activate_instrument, history part: one note goes to the CSV log and to
        the in-memory history, which then drops its oldest note if it holds
        more than ten. */
    method ActivateInstrument(i: int, now: int)
      requires IsInstrument(i)
      requires playedInstruments == LastN(csvLog, HISTORY_LIMIT)
      modifies this`playedInstruments, this`csvLog
      ensures csvLog == old(csvLog) + [Note(now, NAMES[i])]
      ensures playedInstruments == Recorded(old(playedInstruments), Note(now, NAMES[i]))
      ensures playedInstruments == LastN(csvLog, HISTORY_LIMIT)
    {
      var note := Note(now, NAMES[i]);
      RecordedKeepsRecent(csvLog, playedInstruments, note);
      playedInstruments := playedInstruments + [note];
      csvLog := csvLog + [note];
      if |playedInstruments| > HISTORY_LIMIT {
        playedInstruments := playedInstruments[1..];
      }
    }

    /** update_hover: in hand control, track the instrument under the cursor
        and fire it once a full dwell has elapsed, resetting the hover state. */
    method UpdateHover(x: int, y: int, now: int)
      requires Valid() && hoverStartTime <= now
      modifies this
      ensures Valid() && lastTouchTime == old(lastTouchTime)
      ensures controlMode == Mouse ==> View() == old(View()) && csvLog == old(csvLog)
      ensures controlMode == Hand ==>
        var r := HoverStep(old(Hover()), FirstHit(x, y), now);
        && Hover() == r.hover
        && (r.fired == -1 ==> playedInstruments == old(playedInstruments) && csvLog == old(csvLog))
        && (r.fired >= 0 ==> csvLog == old(csvLog) + [Note(now, NAMES[r.fired])])
    {
      if controlMode != Hand {
        return;
      }
      var hovered := Scan(x, y);
      ghost var h0 := Hover();
      ghost var log0 := csvLog;
      if hovered != hoverInstrument {
        if hovered >= 0 {
          hoverInstrument := hovered;
          hoverStartTime := now;
          hoverProgress := 0.0;
        } else {
          ResetHoverState();
        }
      }
      assert Hover() == Retarget(h0, hovered, now);
      if hoverInstrument >= 0 {
        ghost var c := CheckDwell(Hover(), now);
        hoverProgress := Progress(hoverStartTime, now);
        if hoverProgress >= 1.0 {
          ActivateInstrument(hoverInstrument, now);
          ResetHoverState();
          assert c.fired == hovered && Hover() == c.hover;
        } else {
          assert Hover() == c.hover && c.fired == -1;
        }
      }
    }

    /** reset_hover_state: whatever the hover state was, it becomes IDLE, so a
        second call changes nothing. */
    method ResetHoverState()
      modifies this`hoverInstrument, this`hoverStartTime, this`hoverProgress
      ensures Hover() == IDLE
    {
      hoverInstrument := -1;
      hoverStartTime := 0;
      hoverProgress := 0.0;
    }

    /** check_touch: in mouse control, a click outside the cooldown on an
        instrument plays the first instrument hit and records the click time;
        any other click changes nothing. */
    method CheckTouch(x: int, y: int, now: int)
      requires Valid()
      modifies this`playedInstruments, this`csvLog, this`lastTouchTime
      ensures Valid()
      ensures View() == Touched(old(View()), controlMode, x, y, now)
      ensures var hit := FirstHit(x, y);
        if controlMode == Mouse && CooldownOver(old(lastTouchTime), now) && hit >= 0
        then lastTouchTime == now && csvLog == old(csvLog) + [Note(now, NAMES[hit])]
        else View() == old(View()) && csvLog == old(csvLog)
    {
      if controlMode != Mouse {
        return;
      }
      if now - lastTouchTime < COOLDOWN_MS {
        return;
      }
      var hit := Scan(x, y);
      if hit >= 0 {
        ActivateInstrument(hit, now);
        lastTouchTime := now;
      }
    }
  }
}
