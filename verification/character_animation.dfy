/** The character animation controller: a player input shows the target
    object, which is hidden again after a fixed number of unpaused frames;
    input is ignored while it is shown. The activation coroutine is an explicit
    state: `coroutine == Some(w)` means it is suspended after counting `w`
    frames. An unassigned target is encoded as `targetPresent == false` and
    counts as inactive. The `PlayableDirector` is external: whether one is
    bound and whether it is playing are per-frame inputs. */
module CharacterAnimation {
  import opened Common

  datatype Anim = Anim(
    targetPresent: bool,
    targetActive: bool,
    g1: bool, g2: bool, g3: bool, g4: bool,
    isActive: bool,
    coroutine: Option<int>,
    wasTimelineControlled: bool,
    activeFrames: int)

  /** The states the controller can reach: a suspended coroutine belongs to an
      activation in progress, which shows the target. */
  predicate Inv(a: Anim) {
    && (!a.targetPresent ==> !a.targetActive)
    && (a.isActive ==> a.targetActive)
    && (a.coroutine.Some? ==> a.isActive && 0 <= a.coroutine.value <= a.activeFrames)
  }

  /** `Start`: the target begins hidden. */
  function Start(a: Anim): (r: Anim)
    requires !a.isActive && a.coroutine.None?
    ensures Inv(r) && !r.targetActive
  {
    a.(targetActive := false)
  }

  /** The end of the activation coroutine: target hidden, `g1` shown, `g2`..`g4`
      hidden, busy flag released. */
  function Complete(a: Anim): (r: Anim)
    ensures !r.targetActive && !r.isActive && r.coroutine.None?
    ensures r.g1 && !r.g2 && !r.g3 && !r.g4
    ensures r.targetPresent == a.targetPresent && r.activeFrames == a.activeFrames
  {
    a.(targetActive := false, g1 := true, g2 := false, g3 := false, g4 := false,
       isActive := false, coroutine := None)
  }

  /** Runs the suspended coroutine up to its next `yield`: while fewer than
      `activeFrames` frames are counted it counts this one if the game is not
      paused (`Time.timeScale > 0`) and yields again; otherwise it completes. */
  function Resume(a: Anim, unpaused: bool): (r: Anim)
    ensures a.coroutine.None? ==> r == a
    ensures a.coroutine.Some? && a.coroutine.value < a.activeFrames ==>
              r == a.(coroutine := Some(a.coroutine.value + (if unpaused then 1 else 0)))
    ensures a.coroutine.Some? && a.coroutine.value >= a.activeFrames ==> r == Complete(a)
  {
    match a.coroutine
    case None => a
    case Some(w) =>
      if w < a.activeFrames then a.(coroutine := Some(if unpaused then w + 1 else w))
      else Complete(a)
  }

  /** The state just before the coroutine's first step: busy, target shown, nothing counted. */
  function Armed(a: Anim): Anim {
    a.(isActive := true, targetActive := true, coroutine := Some(0))
  }

  /** `ActivateTarget`; the coroutine it starts runs at once to its first `yield`. */
  function ActivateTarget(a: Anim, unpaused: bool): (r: Anim)
    ensures !a.targetPresent || a.isActive ==> r == a
    ensures a.targetPresent && !a.isActive ==> r == Resume(Armed(a), unpaused)
    ensures a.targetPresent && !a.isActive && a.activeFrames >= 1 ==>
              r.isActive && r.targetActive && r.coroutine == Some(if unpaused then 1 else 0)
    ensures a.targetPresent && !a.isActive && a.activeFrames <= 0 ==> r == Complete(Armed(a))
  {
    if !a.targetPresent || a.isActive then a
    else Resume(Armed(a), unpaused)
  }

  /** `OnPlayerInputReceived`: ignored while busy. */
  function OnPlayerInput(a: Anim, unpaused: bool): (r: Anim)
    ensures a.isActive ==> r == a
    ensures !a.isActive ==> r == ActivateTarget(a, unpaused)
  {
    if a.isActive then a else ActivateTarget(a, unpaused)
  }

  /** `ForceStop`: drop the coroutine, hide the target, release the busy flag. */
  function ForceStop(a: Anim): (r: Anim)
    ensures Inv(r)
    ensures !r.isActive && !r.targetActive && r.coroutine.None?
    ensures r.g1 == a.g1 && r.g2 == a.g2 && r.g3 == a.g3 && r.g4 == a.g4
  {
    a.(coroutine := None, targetActive := false, isActive := false)
  }

  /** `LateUpdate`: track whether the Timeline controls the target; when it
      stops doing so and no activation is in progress, hide the target. */
  function LateUpdate(a: Anim, hasDirector: bool, playing: bool): (r: Anim)
    ensures r.isActive == a.isActive && r.coroutine == a.coroutine
    ensures !(hasDirector && a.targetPresent) ==> r == a
    ensures hasDirector && a.targetPresent && !playing && a.wasTimelineControlled && !a.isActive ==>
              !r.targetActive && !r.wasTimelineControlled
    ensures a.isActive ==> r.targetActive == a.targetActive
  {
    if !(hasDirector && a.targetPresent) then a
    else if playing && !a.wasTimelineControlled then a.(wasTimelineControlled := true)
    else if !playing && a.wasTimelineControlled then
      a.(wasTimelineControlled := false, targetActive := if a.isActive then a.targetActive else false)
    else a
  }

  /** What one frame brings. */
  datatype FrameInput = FrameInput(input: bool, unpaused: bool, hasDirector: bool, timelinePlaying: bool)

  /** One frame: a suspended coroutine is resumed (input is then ignored, the
      controller being busy), otherwise a player input may start one; the
      Timeline check runs last. */
  function Frame(a: Anim, f: FrameInput): Anim {
    var a1 := if a.coroutine.Some? then Resume(a, f.unpaused)
              else if f.input then OnPlayerInput(a, f.unpaused)
              else a;
    LateUpdate(a1, f.hasDirector, f.timelinePlaying)
  }

  function Frames(a: Anim, fs: seq<FrameInput>): Anim
    decreases |fs|
  {
    if |fs| == 0 then a else Frames(Frame(a, fs[0]), fs[1..])
  }

  /** Every frame keeps the controller in its reachable states. */
  lemma FramePreservesInv(a: Anim, f: FrameInput)
    requires Inv(a)
    ensures Inv(Frame(a, f))
  {
  }

  /** While an activation is in progress, a frame does exactly what resuming
      the coroutine does, apart from the Timeline bookkeeping. */
  lemma FrameWhileSuspended(a: Anim, f: FrameInput)
    requires Inv(a) && a.coroutine.Some?
    ensures Frame(a, f) == Resume(a, f.unpaused).(wasTimelineControlled := Frame(a, f).wasTimelineControlled)
  {
  }

  /** Resuming once per frame, flags giving `Time.timeScale > 0` per frame. */
  function ResumeAll(a: Anim, flags: seq<bool>): Anim
    decreases |flags|
  {
    if |flags| == 0 then a else Resume(ResumeAll(a, flags[..|flags| - 1]), flags[|flags| - 1])
  }

  /** While fewer than `activeFrames` frames are counted, each resume counts
      exactly the unpaused frames and changes nothing else. */
  lemma {:induction false} CountsUnpausedFrames(a: Anim, flags: seq<bool>)
    requires a.coroutine.Some? && a.coroutine.value >= 0
    requires |flags| == 0 || a.coroutine.value + CountTrue(flags[..|flags| - 1]) < a.activeFrames
    ensures var r := ResumeAll(a, flags);
            && r.coroutine == Some(a.coroutine.value + CountTrue(flags))
            && r.isActive == a.isActive && r.targetActive == a.targetActive
            && r.activeFrames == a.activeFrames
    decreases |flags|
  {
    if |flags| > 0 {
      var w := a.coroutine.value;
      var p := flags[..|flags| - 1];
      var last := flags[|flags| - 1];
      assert CountTrue(flags) == (if last then 1 else 0) + CountTrue(p);
      if |p| > 0 {
        assert CountTrue(p) == (if p[|p| - 1] then 1 else 0) + CountTrue(p[..|p| - 1]);
      }
      CountsUnpausedFrames(a, p);
    }
  }

  /** The activation frame is the first resume of the armed coroutine. */
  lemma ActivationIsFirstResume(a: Anim, flags: seq<bool>)
    requires a.targetPresent && !a.isActive && |flags| >= 1
    ensures ActivateTarget(a, flags[0]) == ResumeAll(Armed(a), flags[..1])
  {
    assert flags[..1][..0] == [];
  }

  /** The activation lifetime, visible part. `flags[0]` is the activation
      frame and `flags[i]` the `i`-th frame after it. Up to and including the
      `activeFrames`-th unpaused frame, the target is shown and the controller busy. */
  lemma ShownUntilLastCountedFrame(a: Anim, flags: seq<bool>)
    requires a.targetPresent && !a.isActive && a.activeFrames >= 1
    requires |flags| >= 1 && flags[|flags| - 1]
    requires CountTrue(flags) == a.activeFrames
    ensures forall j :: 1 <= j <= |flags| ==>
              && ResumeAll(Armed(a), flags[..j]).isActive
              && ResumeAll(Armed(a), flags[..j]).targetActive
  {
    var n := |flags|;
    assert flags[..n] == flags;
    assert CountTrue(flags) == CountTrue(flags[..n - 1]) + 1;
    forall j | 1 <= j <= n
      ensures ResumeAll(Armed(a), flags[..j]).isActive && ResumeAll(Armed(a), flags[..j]).targetActive
    {
      var p := flags[..j];
      assert p[..j - 1] == flags[..j - 1];
      CountTruePrefixMonotone(flags, j - 1, n - 1);
      CountsUnpausedFrames(Armed(a), p);
    }
  }

  /** The activation lifetime, end. Once the last frame of `flags` was the
      `activeFrames`-th unpaused one, the next frame, paused or not, hides the
      target, restores `g1`..`g4` and releases the busy flag. */
  lemma HiddenRightAfter(a: Anim, flags: seq<bool>, next: bool)
    requires a.targetPresent && !a.isActive && a.activeFrames >= 1
    requires |flags| >= 1 && flags[|flags| - 1]
    requires CountTrue(flags) == a.activeFrames
    ensures var done := Resume(ResumeAll(Armed(a), flags), next);
            && !done.isActive && !done.targetActive && done.coroutine.None?
            && done.g1 && !done.g2 && !done.g3 && !done.g4
  {
    var n := |flags|;
    assert flags[..n] == flags;
    assert CountTrue(flags) == 1 + CountTrue(flags[..n - 1]);
    CountsUnpausedFrames(Armed(a), flags);
  }

  // ---------------------------------------------------------------- finding

  /** `OnDisable` as written: it stops the coroutine but leaves `isActive` set. */
  function OnDisable(a: Anim): (r: Anim)
    ensures r.coroutine.None? && r.isActive == a.isActive && r.targetActive == a.targetActive
  {
    a.(coroutine := None)
  }

  /** Disabled while an activation is in progress, the controller stays busy
      forever: every later frame ignores input and the target stays shown. */
  lemma {:induction false} DisableMidActivationLocksOut(a: Anim, fs: seq<FrameInput>)
    requires a.isActive && a.targetActive
    ensures Frames(OnDisable(a), fs).isActive
    ensures Frames(OnDisable(a), fs).targetActive
    ensures Frames(OnDisable(a), fs).coroutine.None?
    decreases |fs|
  {
    if |fs| > 0 {
      var b := Frame(OnDisable(a), fs[0]);
      assert b.isActive && b.targetActive && b.coroutine.None?;
      assert OnDisable(b) == b;
      DisableMidActivationLocksOut(b, fs[1..]);
    }
  }

  /** The corrected `OnDisable`: stopping the coroutine also releases the
      busy flag and hides the target, as `ForceStop` does. */
  function OnDisableReleasing(a: Anim): (r: Anim)
    ensures Inv(r) && !r.isActive && !r.targetActive && r.coroutine.None?
  {
    ForceStop(a)
  }

  /** After the corrected `OnDisable`, the next input activates the target again. */
  lemma DisableThenInputActivates(a: Anim, unpaused: bool)
    requires a.targetPresent && a.activeFrames >= 1
    ensures OnPlayerInput(OnDisableReleasing(a), unpaused).isActive
    ensures OnPlayerInput(OnDisableReleasing(a), unpaused).targetActive
  {
  }
}
