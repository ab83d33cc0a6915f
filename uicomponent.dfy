/** The redraw protocol every screen component follows: a component is drawn
    only while it is marked as needing a redraw, a successful draw clears the
    mark, and a failed draw leaves it set so that the next render retries.
    Drawing itself is terminal output; it is represented by its outcome. */
module UiComponents {

  /** The redraw mark after one `render`, given whether `draw` would succeed. */
  function RenderedFlag(needsRedraw: bool, drawOk: bool): (r: bool)
    ensures !needsRedraw ==> !r
    ensures needsRedraw && drawOk ==> !r
    ensures needsRedraw && !drawOk ==> r
  {
    needsRedraw && !drawOk
  }

  /** Successive renders with the given draw outcomes (one per render, used
      only when that render calls `draw`): the final mark and how many times
      `draw` was called. */
  function Renders(needsRedraw: bool, outcomes: seq<bool>): (bool, nat)
    decreases |outcomes|
  {
    if outcomes == [] then (needsRedraw, 0)
    else
      var rest := Renders(RenderedFlag(needsRedraw, outcomes[0]), outcomes[1..]);
      (rest.0, rest.1 + if needsRedraw then 1 else 0)
  }

  /** A component that does not need a redraw is never drawn, however often
      it is rendered. */
  lemma {:induction false} CleanComponentStaysUndrawn(outcomes: seq<bool>)
    ensures Renders(false, outcomes) == (false, 0)
    decreases |outcomes|
  {
    if outcomes != [] {
      CleanComponentStaysUndrawn(outcomes[1..]);
    }
  }

  /** A component marked for redraw is drawn on every render until a draw
      succeeds and then never again; it stays marked exactly when every draw
      failed. */
  lemma {:induction false} RenderRetriesUntilSuccess(outcomes: seq<bool>)
    ensures Renders(true, outcomes).0 <==> forall i :: 0 <= i < |outcomes| ==> !outcomes[i]
    ensures (forall i :: 0 <= i < |outcomes| ==> !outcomes[i]) ==> Renders(true, outcomes).1 == |outcomes|
    ensures forall k :: 0 <= k < |outcomes| && outcomes[k] && (forall i :: 0 <= i < k ==> !outcomes[i]) ==>
              Renders(true, outcomes).1 == k + 1
    decreases |outcomes|
  {
    if outcomes != [] {
      var rest := outcomes[1..];
      if outcomes[0] {
        CleanComponentStaysUndrawn(rest);
      } else {
        RenderRetriesUntilSuccess(rest);
        assert forall i :: 0 <= i < |rest| ==> rest[i] == outcomes[i + 1];
        forall k | 0 <= k < |outcomes| && outcomes[k] && (forall i :: 0 <= i < k ==> !outcomes[i])
          ensures Renders(true, outcomes).1 == k + 1
        {
          assert k > 0;
          assert rest[k - 1] && forall i :: 0 <= i < k - 1 ==> !rest[i];
        }
      }
    }
  }
}
