/** The instrument catalogue shared by the three game modes: six hit targets at
    fixed screen positions, each hit within a radius of 40 pixels, plus the
    rectangle of the camera frame in which the cursor is accepted. */
module Catalog {

  /** Screen positions of the instruments, in catalogue order (the same in all three modes). */
  const POSITIONS: seq<(int, int)> :=
    [(150, 100), (400, 150), (550, 120), (200, 300), (500, 350), (350, 250)]

  /** Hit radius of every instrument, in pixels. */
  const RADIUS: int := 40

  /** Margin around the frame in which the cursor is ignored, in pixels. */
  const MARGIN: int := 50

  predicate IsInstrument(i: int) {
    0 <= i < |POSITIONS|
  }

  /** The cursor (x, y) lies within RADIUS of instrument i. The source compares
      sqrt(dx*dx + dy*dy) with RADIUS; for integer coordinates and a
      non-negative radius that is the same as comparing the squared distance
      with RADIUS * RADIUS. */
  predicate Hits(i: nat, x: int, y: int)
    requires i < |POSITIONS|
  {
    var dx := x - POSITIONS[i].0;
    var dy := y - POSITIONS[i].1;
    dx * dx + dy * dy <= RADIUS * RADIUS
  }

  /** The first instrument at index `from` or later, in catalogue order, that
      (x, y) hits; -1 when there is none. Catalogue order breaks ties between
      overlapping hit zones. */
  function FirstHitFrom(from: nat, x: int, y: int): (r: int)
    requires from <= |POSITIONS|
    ensures r == -1 || (from <= r < |POSITIONS| && Hits(r, x, y))
    ensures forall j :: from <= j < |POSITIONS| && (r == -1 || j < r) ==> !Hits(j, x, y)
    decreases |POSITIONS| - from
  {
    if from == |POSITIONS| then -1
    else if Hits(from, x, y) then from
    else FirstHitFrom(from + 1, x, y)
  }

  /** The instrument under the cursor: the first hit in catalogue order, or -1. */
  function FirstHit(x: int, y: int): (r: int)
    ensures r == -1 <==> forall j :: 0 <= j < |POSITIONS| ==> !Hits(j, x, y)
    ensures r != -1 ==> IsInstrument(r) && Hits(r, x, y)
    ensures forall j :: 0 <= j < r ==> !Hits(j, x, y)
  {
    FirstHitFrom(0, x, y)
  }

  /** The catalogue scan of update_hover and check_touch: walk the instruments in
      order and stop at the first one within RADIUS of (x, y). */
  method Scan(x: int, y: int) returns (hovered: int)
    ensures hovered == FirstHit(x, y)
  {
    hovered := -1;
    var i := 0;
    while i < |POSITIONS|
      invariant 0 <= i <= |POSITIONS|
      invariant FirstHitFrom(i, x, y) == FirstHit(x, y)
    {
      if Hits(i, x, y) {
        hovered := i;
        return;
      }
      i := i + 1;
    }
  }

  /** is_point_in_game_area: (x, y) lies in the frame with a MARGIN-wide border
      removed, bounds included. */
  predicate InGameArea(x: int, y: int, width: int, height: int) {
    MARGIN <= x <= width - MARGIN && MARGIN <= y <= height - MARGIN
  }

  /** Every instrument's centre lies in the game area of a frame exactly when
      the frame is at least 600 by 400 pixels (the rightmost centre is at
      x = 550, the lowest at y = 350): in a smaller frame some instrument
      cannot be clicked on its centre, since clicks outside the game area
      are discarded. */
  lemma CentresInGameArea(width: int, height: int)
    ensures (forall i :: 0 <= i < |POSITIONS| ==> InGameArea(POSITIONS[i].0, POSITIONS[i].1, width, height))
        <==> width >= 600 && height >= 400
  {
    if forall i :: 0 <= i < |POSITIONS| ==> InGameArea(POSITIONS[i].0, POSITIONS[i].1, width, height) {
      assert InGameArea(POSITIONS[2].0, POSITIONS[2].1, width, height);
      assert InGameArea(POSITIONS[4].0, POSITIONS[4].1, width, height);
    }
  }

  /** Each instrument's centre is hit by a cursor placed exactly on it, and by
      no instrument earlier in the catalogue: the hit zones of the fixed
      layout do not shadow one another's centres. */
  lemma CentresSelectThemselves(i: nat)
    requires i < |POSITIONS|
    ensures FirstHit(POSITIONS[i].0, POSITIONS[i].1) == i
  {
    var x, y := POSITIONS[i].0, POSITIONS[i].1;
    assert Hits(i, x, y);
    forall j | 0 <= j < i
      ensures !Hits(j, x, y)
    {
      var dx := x - POSITIONS[j].0;
      var dy := y - POSITIONS[j].1;
      assert dx * dx + dy * dy > RADIUS * RADIUS;
    }
  }
}
