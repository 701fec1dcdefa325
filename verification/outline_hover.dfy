/** The character outline highlight: the outline shows while the pointer is
    over the character, a player input hides it at once, and only after a
    delay does the pointer position decide again. The delay coroutine is an
    explicit countdown: `pending == Some(t)` means it waits `t` more seconds. */
module OutlineHover {
  import opened Common

  datatype Hover = Hover(
    outlinePresent: bool,
    outlineShown: bool,
    isMouseOver: bool,
    handling: bool,
    pending: Option<real>,
    delay: real)

  /** The outline shows exactly when it exists, the pointer is over the
      character and no input is being handled; the countdown runs exactly
      while an input is handled and never exceeds the delay. */
  predicate Inv(h: Hover) {
    && (h.outlineShown <==> h.outlinePresent && h.isMouseOver && !h.handling)
    && (h.handling <==> h.pending.Some?)
    && (h.pending.Some? ==> h.pending.value <= h.delay)
    && (!h.outlinePresent ==> !h.handling)
  }

  /** The component after `Start`: the outline hidden, nothing pending. */
  function Initial(outlinePresent: bool, delay: real): (h: Hover)
    ensures Inv(h)
  {
    Hover(outlinePresent, false, false, false, None, delay)
  }

  /** `OnInputInvoke`: hide the outline and (re)start the countdown; without
      an outline image nothing happens. */
  function OnInputInvoke(h: Hover): (r: Hover)
    ensures !h.outlinePresent ==> r == h
    ensures h.outlinePresent ==> !r.outlineShown && r.handling && r.pending == Some(h.delay)
    ensures r.isMouseOver == h.isMouseOver && r.outlinePresent == h.outlinePresent && r.delay == h.delay
  {
    if !h.outlinePresent then h
    else h.(outlineShown := false, handling := true, pending := Some(h.delay))
  }

  /** The end of the countdown: show the outline if the pointer is over it. */
  function Complete(h: Hover): (r: Hover)
    ensures r.outlineShown == ((h.outlinePresent && h.isMouseOver) || h.outlineShown)
    ensures !r.handling && r.pending.None?
  {
    h.(outlineShown := if h.isMouseOver && h.outlinePresent then true else h.outlineShown,
       handling := false, pending := None)
  }

  /** One frame of `dt` seconds: the countdown finishes once no time remains. */
  function Tick(h: Hover, dt: real): (r: Hover)
    requires dt >= 0.0
    ensures h.pending.None? ==> r == h
    ensures h.pending.Some? && h.pending.value - dt <= 0.0 ==> r == Complete(h)
    ensures h.pending.Some? && h.pending.value - dt > 0.0 ==> r == h.(pending := Some(h.pending.value - dt))
  {
    match h.pending
    case None => h
    case Some(t) => if t - dt <= 0.0 then Complete(h) else h.(pending := Some(t - dt))
  }

  /** `OnPointerEnter`: note the pointer; show the outline unless an input is handled. */
  function OnPointerEnter(h: Hover): (r: Hover)
    ensures r.isMouseOver
    ensures r.outlineShown == (h.outlineShown || (!h.handling && h.outlinePresent))
    ensures r.handling == h.handling && r.pending == h.pending
  {
    var h1 := h.(isMouseOver := true);
    if h1.handling then h1
    else if h1.outlinePresent then h1.(outlineShown := true)
    else h1
  }

  /** `OnPointerExit`: note the pointer has left and hide the outline. */
  function OnPointerExit(h: Hover): (r: Hover)
    ensures !r.isMouseOver
    ensures r.outlineShown == (h.outlineShown && !h.outlinePresent)
    ensures r.handling == h.handling && r.pending == h.pending
  {
    var h1 := h.(isMouseOver := false);
    if h1.outlinePresent then h1.(outlineShown := false) else h1
  }

  datatype Event = Input | PointerEnter | PointerExit | Frame(dt: real)

  predicate ValidEvent(e: Event) {
    e.Frame? ==> e.dt >= 0.0
  }

  function Step(h: Hover, e: Event): (r: Hover)
    requires ValidEvent(e)
  {
    match e
    case Input => OnInputInvoke(h)
    case PointerEnter => OnPointerEnter(h)
    case PointerExit => OnPointerExit(h)
    case Frame(dt) => Tick(h, dt)
  }

  /** Every event keeps the invariant. */
  lemma StepPreservesInv(h: Hover, e: Event)
    requires Inv(h) && ValidEvent(e)
    ensures Inv(Step(h, e))
  {
  }

  /** When the countdown ends, the outline shows exactly if the pointer is over it. */
  lemma CompletionFollowsPointer(h: Hover, dt: real)
    requires Inv(h) && dt >= 0.0
    requires h.pending.Some? && h.pending.value - dt <= 0.0
    ensures Tick(h, dt).outlineShown <==> h.outlinePresent && h.isMouseOver
    ensures !Tick(h, dt).handling
  {
  }

  function Steps(h: Hover, es: seq<Event>): Hover
    requires forall i :: 0 <= i < |es| ==> ValidEvent(es[i])
    decreases |es|
  {
    if |es| == 0 then h else Steps(Step(h, es[0]), es[1..])
  }

  /** The frame time the events add up to. */
  function Elapsed(es: seq<Event>): (t: real)
    requires forall i :: 0 <= i < |es| ==> ValidEvent(es[i])
    ensures t >= 0.0
    decreases |es|
  {
    if |es| == 0 then 0.0
    else
      assert ValidEvent(es[0]);
      (if es[0].Frame? then es[0].dt else 0.0) + Elapsed(es[1..])
  }

  /** Input has the last word: while an input is handled, no pointer event and
      no further input shows the outline before the countdown has run out. */
  lemma {:induction false} HiddenUntilDelayElapses(h: Hover, es: seq<Event>)
    requires Inv(h) && h.handling
    requires forall i :: 0 <= i < |es| ==> ValidEvent(es[i])
    requires Elapsed(es) < h.pending.value
    ensures Steps(h, es).handling && !Steps(h, es).outlineShown
    decreases |es|
  {
    if |es| > 0 {
      var h1 := Step(h, es[0]);
      StepPreservesInv(h, es[0]);
      assert h1.handling && h1.pending.value >= h.pending.value - (if es[0].Frame? then es[0].dt else 0.0);
      HiddenUntilDelayElapses(h1, es[1..]);
    }
  }
}
