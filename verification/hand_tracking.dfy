/** The main-thread half of the hand-tracking receiver: each frame it takes
    the latest sample the network thread left (possibly none) and raises a
    pinch-start or pinch-end event when the pinch state changes. */
module HandTracking {
  import opened Common

  /** One received sample. */
  datatype HandData = HandData(isPinched: bool, distance: real, handDetected: bool)

  datatype Receiver = Receiver(isPinched: bool, currentDistance: real, handDetected: bool, wasPinched: bool)

  const Initial: Receiver := Receiver(false, 0.0, false, false)

  datatype PinchEvent = PinchStart | PinchEnd

  datatype UpdateResult = UpdateResult(receiver: Receiver, event: Option<PinchEvent>)

  /** One frame of `Update`. */
  function Update(r: Receiver, sample: Option<HandData>): (u: UpdateResult)
    ensures sample.None? ==> u == UpdateResult(r, None)
    ensures sample.Some? ==> (u.event == Some(PinchStart) <==> sample.value.isPinched && !r.wasPinched)
    ensures sample.Some? ==> (u.event == Some(PinchEnd) <==> !sample.value.isPinched && r.wasPinched)
    ensures sample.Some? ==> u.receiver.wasPinched == sample.value.isPinched
  {
    match sample
    case None => UpdateResult(r, None)
    case Some(d) =>
      var r' := r.(isPinched := d.isPinched, currentDistance := d.distance, handDetected := d.handDetected);
      var ev := if r'.isPinched && !r.wasPinched then Some(PinchStart)
                else if !r'.isPinched && r.wasPinched then Some(PinchEnd)
                else None;
      UpdateResult(r'.(wasPinched := r'.isPinched), ev)
  }

  /** Reading the same sample on the next frame fires nothing. */
  lemma SameSampleTwiceIsQuiet(r: Receiver, d: HandData)
    ensures Update(Update(r, Some(d)).receiver, Some(d)).event == None
  {
  }

  /** The events raised over consecutive frames, in order. */
  function Events(r: Receiver, samples: seq<Option<HandData>>): (r': (Receiver, seq<PinchEvent>))
    decreases |samples|
  {
    if |samples| == 0 then (r, [])
    else
      var u := Update(r, samples[0]);
      var rest := Events(u.receiver, samples[1..]);
      (rest.0, (if u.event.Some? then [u.event.value] else []) + rest.1)
  }

  /** Events alternate start/end, beginning with the event that fits `pinched`. */
  predicate Alternates(events: seq<PinchEvent>, pinched: bool) {
    forall i :: 0 <= i < |events| ==>
      (events[i] == PinchStart <==> (if pinched then i % 2 == 1 else i % 2 == 0))
  }

  /** Whatever the samples, the event stream alternates, starting with a start
      when the receiver was not pinched and with an end when it was; the final
      pinch state reflects the parity of the events raised. */
  lemma {:induction false} EventsAlternate(r: Receiver, samples: seq<Option<HandData>>)
    ensures Alternates(Events(r, samples).1, r.wasPinched)
    ensures Events(r, samples).0.wasPinched == (r.wasPinched != (|Events(r, samples).1| % 2 == 1))
    decreases |samples|
  {
    if |samples| > 0 {
      var u := Update(r, samples[0]);
      EventsAlternate(u.receiver, samples[1..]);
      var rest := Events(u.receiver, samples[1..]);
      if u.event.Some? {
        assert u.receiver.wasPinched == !r.wasPinched;
        var evs := [u.event.value] + rest.1;
        forall i | 0 <= i < |evs|
          ensures evs[i] == PinchStart <==> (if r.wasPinched then i % 2 == 1 else i % 2 == 0)
        {
          if i > 0 {
            assert evs[i] == rest.1[i - 1];
          }
        }
      } else {
        assert u.receiver.wasPinched == r.wasPinched;
        assert Events(r, samples).1 == rest.1;
      }
    }
  }

  /** From the initial receiver the first event, if any, is a pinch start. */
  lemma FirstEventIsStart(samples: seq<Option<HandData>>)
    requires |Events(Initial, samples).1| > 0
    ensures Events(Initial, samples).1[0] == PinchStart
  {
    EventsAlternate(Initial, samples);
  }
}
