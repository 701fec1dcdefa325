/** The frame-sequence animation controller: a player input plays a fixed
    sequence of sprite indices, one entry per wait, then returns to frame 0;
    input is ignored during playback. The playback coroutine is an explicit
    cursor: `cursor == Some(i)` means entry `i` is on screen and the coroutine
    waits. Each `Resume` is the end of one `frameTime` wait; the wait length
    itself is engine time and not modelled. */
module CharacterAnimationSP {
  import opened Common

  /** The playback sequence, as indices into the five frame slots. */
  const AnimationSequence: seq<int> := [0, 0, 1, 1, 1, 2, 2, 2, 3, 3, 3, 3, 4, 4, 4, 0]

  /** The number of frame slots the component is created with. */
  const FrameSlots: int := 5

  /** A sprite asset, by identity. */
  type Sprite = int

  datatype Player = Player(
    imagePresent: bool,
    frames: Option<seq<Option<Sprite>>>,
    sprite: Option<Sprite>,
    isPlaying: bool,
    currentFrame: int,
    cursor: Option<nat>)

  /** Every entry of the sequence names one of the five frame slots. */
  lemma SequenceIndexesFrameSlots()
    ensures forall i :: 0 <= i < |AnimationSequence| ==> 0 <= AnimationSequence[i] < FrameSlots
  {
  }

  /** The sequence starts and ends on the idle frame 0 and never goes back
      before its final entry. */
  lemma SequenceShape()
    ensures AnimationSequence[0] == 0 && AnimationSequence[|AnimationSequence| - 1] == 0
    ensures forall i, j :: 0 <= i <= j < |AnimationSequence| - 1 ==> AnimationSequence[i] <= AnimationSequence[j]
  {
  }

  /** `SetFrame`: show slot `idx` if the image exists, the index is inside the
      frame array and the slot holds a sprite; otherwise keep the current sprite. */
  function SetFrame(p: Player, idx: int): (r: Player)
    ensures r == p.(sprite := r.sprite)
    ensures (!p.imagePresent || p.frames.None? || idx < 0 || idx >= |p.frames.value|) ==> r == p
    ensures p.imagePresent && p.frames.Some? && 0 <= idx < |p.frames.value| ==>
              r.sprite == (if p.frames.value[idx].Some? then p.frames.value[idx] else p.sprite)
  {
    if !p.imagePresent || p.frames.None? || idx < 0 || idx >= |p.frames.value| then p
    else if p.frames.value[idx].Some? then p.(sprite := p.frames.value[idx])
    else p
  }

  /** Put entry `i` of the sequence on screen and wait. */
  function Show(p: Player, i: nat): (r: Player)
    requires i < |AnimationSequence|
  {
    SetFrame(p.(currentFrame := AnimationSequence[i], cursor := Some(i)), AnimationSequence[i])
  }

  /** `StopAnimation`, which is also how the coroutine ends: no coroutine, not
      playing, frame 0 shown. */
  function StopAnimation(p: Player): (r: Player)
    ensures !r.isPlaying && r.currentFrame == 0 && r.cursor.None?
    ensures r.imagePresent == p.imagePresent && r.frames == p.frames
  {
    SetFrame(p.(cursor := None, isPlaying := false, currentFrame := 0), 0)
  }

  /** `StartAnimation`: the coroutine runs at once to its first wait. */
  function StartAnimation(p: Player): (r: Player)
    ensures r.isPlaying && r.cursor == Some(0) && r.currentFrame == AnimationSequence[0]
    ensures r.imagePresent == p.imagePresent && r.frames == p.frames
  {
    Show(p.(isPlaying := true), 0)
  }

  /** `OnPlayerInputReceived`: ignored during playback. */
  function OnPlayerInput(p: Player): (r: Player)
    ensures p.isPlaying ==> r == p
    ensures !p.isPlaying ==> r == StartAnimation(p)
  {
    if p.isPlaying then p else StartAnimation(p)
  }

  /** The end of one wait: show the next entry, or finish after the last one. */
  function Resume(p: Player): (r: Player)
    ensures r.imagePresent == p.imagePresent && r.frames == p.frames
    ensures p.cursor.None? ==> r == p
    ensures p.cursor.Some? && p.cursor.value + 1 < |AnimationSequence| ==> r == Show(p, p.cursor.value + 1)
    ensures p.cursor.Some? && p.cursor.value + 1 >= |AnimationSequence| ==> r == StopAnimation(p)
  {
    match p.cursor
    case None => p
    case Some(i) =>
      if i + 1 < |AnimationSequence| then Show(p, i + 1) else StopAnimation(p)
  }

  function ResumeN(p: Player, k: nat): Player {
    if k == 0 then p else Resume(ResumeN(p, k - 1))
  }

  /** All five slots are present and hold a sprite. */
  predicate CompleteFrames(frames: Option<seq<Option<Sprite>>>) {
    frames.Some? && |frames.value| == FrameSlots
    && forall i :: 0 <= i < |frames.value| ==> frames.value[i].Some?
  }

  /** Playback, step by step: after the start and `k` waits, entry `k` of the
      sequence is the current frame and, with a complete frame set and an
      image, its sprite is on screen. */
  lemma {:induction false} PlaybackShowsEntry(p: Player, k: nat)
    requires !p.isPlaying
    requires k < |AnimationSequence|
    ensures var q := ResumeN(OnPlayerInput(p), k);
            && q.isPlaying && q.cursor == Some(k) && q.currentFrame == AnimationSequence[k]
            && q.imagePresent == p.imagePresent && q.frames == p.frames
            && (p.imagePresent && CompleteFrames(p.frames) ==>
                  q.sprite == p.frames.value[AnimationSequence[k]])
  {
    SequenceIndexesFrameSlots();
    if k > 0 {
      PlaybackShowsEntry(p, k - 1);
    }
  }

  /** After the last entry's wait, playback is over: frame 0, not playing, no coroutine. */
  lemma PlaybackEnds(p: Player)
    requires !p.isPlaying
    ensures var q := ResumeN(OnPlayerInput(p), |AnimationSequence|);
            && !q.isPlaying && q.currentFrame == 0 && q.cursor.None?
            && (p.imagePresent && CompleteFrames(p.frames) ==> q.sprite == p.frames.value[0])
  {
    PlaybackShowsEntry(p, |AnimationSequence| - 1);
  }

  /** `ValidateFrames`: true exactly for a complete set of five sprites. */
  method ValidateFrames(frames: Option<seq<Option<Sprite>>>) returns (ok: bool)
    ensures ok <==> CompleteFrames(frames)
  {
    if frames.None? || |frames.value| != FrameSlots {
      return false;
    }
    var fs := frames.value;
    var i := 0;
    while i < |fs|
      invariant 0 <= i <= |fs|
      invariant forall j :: 0 <= j < i ==> fs[j].Some?
    {
      if fs[i].None? {
        return false;
      }
      i := i + 1;
    }
    return true;
  }

  // ---------------------------------------------------------------- finding

  /** A player event: an input, or the end of the current wait. */
  datatype Event = Input | WaitElapsed

  function Step(p: Player, e: Event): Player {
    match e
    case Input => OnPlayerInput(p)
    case WaitElapsed => Resume(p)
  }

  function Steps(p: Player, es: seq<Event>): Player
    decreases |es|
  {
    if |es| == 0 then p else Steps(Step(p, es[0]), es[1..])
  }

  /** `OnDisable` as written: it stops the coroutine but leaves `isPlaying` set. */
  function OnDisable(p: Player): (r: Player)
    ensures r.cursor.None? && r.isPlaying == p.isPlaying
  {
    p.(cursor := None)
  }

  /** Disabled during playback, the player never plays again: every later
      input is ignored and no wait remains to finish the sequence. */
  lemma {:induction false} DisableMidPlaybackLocksOut(p: Player, es: seq<Event>)
    requires p.isPlaying
    ensures Steps(OnDisable(p), es) == OnDisable(p)
    decreases |es|
  {
    if |es| > 0 {
      assert Step(OnDisable(p), es[0]) == OnDisable(p);
      DisableMidPlaybackLocksOut(p, es[1..]);
    }
  }

  /** The corrected `OnDisable`: stopping the coroutine also stops playback. */
  function OnDisableStopping(p: Player): (r: Player)
    ensures !r.isPlaying && r.cursor.None? && r.currentFrame == 0
  {
    StopAnimation(p)
  }

  /** After the corrected `OnDisable`, the next input plays the sequence again. */
  lemma DisableThenInputPlays(p: Player)
    ensures OnPlayerInput(OnDisableStopping(p)).isPlaying
    ensures OnPlayerInput(OnDisableStopping(p)).cursor == Some(0)
  {
  }
}
