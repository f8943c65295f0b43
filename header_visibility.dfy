/**
 * The header's visibility (actions/useHeaderVisibility.ts): shown on load,
 * shown when the page scrolls up, hidden when it scrolls down, and hidden by
 * the inactivity timeout unless the page is at the very top. The timer is
 * modelled as the event `InactivityTimeout`, which may come at any time.
 */
module HeaderVisibility {
  import opened Wrappers

  /** Visibility after a scroll event to `y`, from the previous position `lastY`. */
  function NextVisible(visible: bool, lastY: int, y: int): (r: bool)
    ensures y < lastY ==> r
    ensures y > lastY ==> !r
    ensures y == lastY ==> r == visible
  {
    if y < lastY then true else if y > lastY then false else visible
  }

  /** Visibility and last position after a sequence of scroll events. */
  function Replay(visible: bool, lastY: int, ys: seq<int>): (bool, int)
    decreases |ys|
  {
    if |ys| == 0 then (visible, lastY)
    else
      var prev := Replay(visible, lastY, ys[..|ys| - 1]);
      (NextVisible(prev.0, prev.1, ys[|ys| - 1]), ys[|ys| - 1])
  }

  /** The direction of the last scroll event that changed the position: Some(true) for up. */
  function LastMove(lastY: int, ys: seq<int>): Option<bool>
    decreases |ys|
  {
    if |ys| == 0 then None
    else
      var prev := if |ys| == 1 then lastY else ys[|ys| - 2];
      var y := ys[|ys| - 1];
      if y < prev then Some(true)
      else if y > prev then Some(false)
      else LastMove(lastY, ys[..|ys| - 1])
  }

  /**
   * After any sequence of scroll events the header is shown exactly when the
   * last move was upward, or there was no move and it was shown before; the
   * stored position is the last event's.
   */
  lemma {:induction false} ReplayFollowsLastMove(visible: bool, lastY: int, ys: seq<int>)
    ensures Replay(visible, lastY, ys).0 == match LastMove(lastY, ys) case None => visible case Some(up) => up
    ensures Replay(visible, lastY, ys).1 == if |ys| == 0 then lastY else ys[|ys| - 1]
  {
    if |ys| > 0 {
      var ys' := ys[..|ys| - 1];
      ReplayFollowsLastMove(visible, lastY, ys');
      if |ys| > 1 {
        assert ys'[|ys'| - 1] == ys[|ys| - 2];
        assert ys'[..|ys'| - 1] == ys[..|ys| - 2];
      }
    }
  }

  class Header {
    var visible: bool
    var lastY: int

    /** On mount: shown, last position 0. */
    constructor ()
      ensures visible && lastY == 0
    {
      visible := true;
      lastY := 0;
    }

    /** `handleScroll`: compare with the last position, then remember the new one. */
    method HandleScroll(y: int)
      modifies this
      ensures visible == NextVisible(old(visible), old(lastY), y)
      ensures lastY == y
    {
      if y < lastY {
        visible := true;
      } else if y > lastY {
        visible := false;
      }
      lastY := y;
    }

    /** `hideHeaderIfNotTop`: hide unless at the top; it never shows the header. */
    method InactivityTimeout(y: int)
      modifies this
      ensures visible == (old(visible) && y <= 0)
      ensures lastY == old(lastY)
    {
      if y > 0 {
        visible := false;
      }
    }
  }
}
