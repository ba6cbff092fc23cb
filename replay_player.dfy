/** CYLGame/www/static/player.js: the navigation state of the replay player.
    Drawing, the DOM and animation-frame scheduling are no-ops here; a
    replay is known by the lengths of its frame and variable lists. */
module ReplayPlayer {

  const DefaultSpeed: real := 0.5

  class Player {
    var isPlaying: bool
    var isReallyPlaying: bool
    var curFrame: int
    var realCurFrame: real
    var curSpeed: real
    var fps: int
    var playbackTimeout: real
    var lastFrameTime: real
    /** `replay_frames.length` and `replay_vars.length`. */
    var frameCount: nat
    var varsCount: nat

    /** The speed is never zero, so it always has a direction, and the
        current frame is never negative. */
    ghost predicate Valid()
      reads this
    {
      curSpeed != 0.0 && curFrame >= 0
    }

    constructor ()
      ensures Valid()
      ensures !isPlaying && !isReallyPlaying && curFrame == 0 && realCurFrame == 0.0
      ensures fps == 10 && playbackTimeout == 100.0 && curSpeed == DefaultSpeed
      ensures frameCount == 0 && varsCount == 0
    {
      isPlaying, isReallyPlaying := false, false;
      curFrame, realCurFrame := 0, 0.0;
      fps := 10;
      playbackTimeout := 1000.0 / 10.0;
      lastFrameTime := 0.0;
      frameCount, varsCount := 0, 0;
      curSpeed := DefaultSpeed;
    }

    /** `reset_speed()`. */
    method ResetSpeed()
      modifies this
      ensures curSpeed == DefaultSpeed
      ensures isPlaying == old(isPlaying) && isReallyPlaying == old(isReallyPlaying)
      ensures curFrame == old(curFrame) && realCurFrame == old(realCurFrame)
      ensures frameCount == old(frameCount) && varsCount == old(varsCount)
      ensures lastFrameTime == old(lastFrameTime) && playbackTimeout == old(playbackTimeout)
    {
      curSpeed := DefaultSpeed;
    }

    /** `pause()`. */
    method Pause()
      modifies this
      ensures !isPlaying
      ensures isReallyPlaying == old(isReallyPlaying) && curSpeed == old(curSpeed)
      ensures curFrame == old(curFrame) && realCurFrame == old(realCurFrame)
      ensures frameCount == old(frameCount) && varsCount == old(varsCount)
      ensures lastFrameTime == old(lastFrameTime) && playbackTimeout == old(playbackTimeout)
    {
      isPlaying := false;
    }

    /** `play()`: when no draw loop is running, a player at or past the last
        frame rewinds to the start before the loop starts. */
    method Play()
      requires Valid()
      modifies this
      ensures Valid()
      ensures isPlaying
      ensures !old(isReallyPlaying) && old(curFrame) >= frameCount - 1 ==>
        curFrame == 0 && realCurFrame == 0.0
      ensures old(isReallyPlaying) || old(curFrame) < frameCount - 1 ==>
        curFrame == old(curFrame) && realCurFrame == old(realCurFrame)
      ensures lastFrameTime == if old(isReallyPlaying) then old(lastFrameTime) else 0.0
      ensures isReallyPlaying == old(isReallyPlaying) && curSpeed == old(curSpeed)
      ensures frameCount == old(frameCount) && varsCount == old(varsCount) && playbackTimeout == old(playbackTimeout)
    {
      isPlaying := true;
      if !isReallyPlaying {
        if curFrame >= frameCount - 1 {
          curFrame := 0;
          realCurFrame := 0.0;
        }
        StartDrawLoop();
      }
    }

    /** `startDrawLoop()`: resets the frame clock; scheduling is not modelled. */
    method StartDrawLoop()
      modifies this
      ensures lastFrameTime == 0.0
      ensures isPlaying == old(isPlaying) && isReallyPlaying == old(isReallyPlaying) && curSpeed == old(curSpeed)
      ensures curFrame == old(curFrame) && realCurFrame == old(realCurFrame)
      ensures frameCount == old(frameCount) && varsCount == old(varsCount) && playbackTimeout == old(playbackTimeout)
    {
      lastFrameTime := 0.0;
    }

    /** `stop()`. */
    method Stop()
      requires Valid()
      modifies this
      ensures Valid()
      ensures !isPlaying && curSpeed == DefaultSpeed && curFrame == 0 && realCurFrame == 0.0
      ensures isReallyPlaying == old(isReallyPlaying) && lastFrameTime == old(lastFrameTime)
      ensures frameCount == old(frameCount) && varsCount == old(varsCount) && playbackTimeout == old(playbackTimeout)
    {
      Pause();
      ResetSpeed();
      curFrame := 0;
      realCurFrame := 0.0;
    }

    /** `on_prev_click()`: pauses and steps back one frame unless at the first. */
    method OnPrevClick()
      requires Valid()
      modifies this
      ensures Valid()
      ensures !isPlaying && curSpeed == DefaultSpeed
      ensures old(curFrame) > 0 ==> curFrame == old(curFrame) - 1 && realCurFrame == curFrame as real
      ensures old(curFrame) <= 0 ==> curFrame == old(curFrame) && realCurFrame == old(realCurFrame)
      ensures isReallyPlaying == old(isReallyPlaying) && lastFrameTime == old(lastFrameTime)
      ensures frameCount == old(frameCount) && varsCount == old(varsCount) && playbackTimeout == old(playbackTimeout)
    {
      Pause();
      if curFrame > 0 {
        curFrame := curFrame - 1;
        realCurFrame := curFrame as real;
      }
      ResetSpeed();
    }

    /** `on_next_click()`: pauses and steps forward one frame unless at the last. */
    method OnNextClick()
      requires Valid()
      modifies this
      ensures Valid()
      ensures !isPlaying && curSpeed == DefaultSpeed
      ensures old(curFrame) < frameCount - 1 ==> curFrame == old(curFrame) + 1 && realCurFrame == curFrame as real
      ensures old(curFrame) >= frameCount - 1 ==> curFrame == old(curFrame) && realCurFrame == old(realCurFrame)
      ensures isReallyPlaying == old(isReallyPlaying) && lastFrameTime == old(lastFrameTime)
      ensures frameCount == old(frameCount) && varsCount == old(varsCount) && playbackTimeout == old(playbackTimeout)
    {
      Pause();
      if curFrame < frameCount - 1 {
        curFrame := curFrame + 1;
        realCurFrame := curFrame as real;
      }
      ResetSpeed();
    }

    /** `on_faster_click()`: a backward speed restarts at 0.5; then the speed
        doubles, so the player always ends up playing forward. */
    method OnFasterClick()
      requires Valid()
      modifies this
      ensures Valid()
      ensures curSpeed > 0.0 && isPlaying
      ensures old(curSpeed) < 0.0 ==> curSpeed == 2.0 * DefaultSpeed
      ensures old(curSpeed) > 0.0 ==> curSpeed == 2.0 * old(curSpeed)
      ensures !old(isReallyPlaying) && old(curFrame) >= frameCount - 1 ==>
        curFrame == 0 && realCurFrame == 0.0
      ensures old(isReallyPlaying) || old(curFrame) < frameCount - 1 ==>
        curFrame == old(curFrame) && realCurFrame == old(realCurFrame)
      ensures lastFrameTime == if old(isReallyPlaying) then old(lastFrameTime) else 0.0
      ensures isReallyPlaying == old(isReallyPlaying)
      ensures frameCount == old(frameCount) && varsCount == old(varsCount) && playbackTimeout == old(playbackTimeout)
    {
      if curSpeed < 0.0 {
        ResetSpeed();
      }
      curSpeed := curSpeed * 2.0;
      Play();
    }

    /** `on_slower_click()`: at the last frame it first steps back; a forward
        speed becomes -0.5; then the speed doubles, so the player always ends
        up playing backward. */
    method OnSlowerClick()
      requires Valid()
      modifies this
      ensures Valid()
      ensures curSpeed < 0.0 && isPlaying
      ensures old(curFrame) >= frameCount - 1 ==> curSpeed == -2.0 * DefaultSpeed
      ensures old(curFrame) < frameCount - 1 && old(curSpeed) > 0.0 ==> curSpeed == -2.0 * DefaultSpeed
      ensures old(curFrame) < frameCount - 1 && old(curSpeed) < 0.0 ==> curSpeed == 2.0 * old(curSpeed)
      ensures var stepped := old(curFrame) >= frameCount - 1 && old(curFrame) > 0;
        var f1 := if stepped then old(curFrame) - 1 else old(curFrame);
        var r1 := if stepped then f1 as real else old(realCurFrame);
        && (!old(isReallyPlaying) && f1 >= frameCount - 1 ==> curFrame == 0 && realCurFrame == 0.0)
        && (old(isReallyPlaying) || f1 < frameCount - 1 ==> curFrame == f1 && realCurFrame == r1)
      ensures lastFrameTime == if old(isReallyPlaying) then old(lastFrameTime) else 0.0
      ensures isReallyPlaying == old(isReallyPlaying)
      ensures frameCount == old(frameCount) && varsCount == old(varsCount) && playbackTimeout == old(playbackTimeout)
    {
      if curFrame >= frameCount - 1 {
        OnPrevClick();
      }
      if curSpeed > 0.0 {
        ResetSpeed();
        curSpeed := -curSpeed;
      }
      curSpeed := curSpeed * 2.0;
      Play();
    }

    /** `on_toggle_play_click()`: resets the speed and flips between playing
        and paused. */
    method OnTogglePlayClick()
      requires Valid()
      modifies this
      ensures Valid()
      ensures isPlaying == !old(isPlaying) && curSpeed == DefaultSpeed
      ensures old(isPlaying) ==> curFrame == old(curFrame) && realCurFrame == old(realCurFrame)
      ensures old(isPlaying) ==> lastFrameTime == old(lastFrameTime)
      ensures !old(isPlaying) && !old(isReallyPlaying) && old(curFrame) >= frameCount - 1 ==>
        curFrame == 0 && realCurFrame == 0.0
      ensures !old(isPlaying) && (old(isReallyPlaying) || old(curFrame) < frameCount - 1) ==>
        curFrame == old(curFrame) && realCurFrame == old(realCurFrame)
      ensures !old(isPlaying) ==> lastFrameTime == if old(isReallyPlaying) then old(lastFrameTime) else 0.0
      ensures isReallyPlaying == old(isReallyPlaying)
      ensures frameCount == old(frameCount) && varsCount == old(varsCount) && playbackTimeout == old(playbackTimeout)
    {
      ResetSpeed();
      if isPlaying {
        Pause();
      } else {
        Play();
      }
    }

    /** `drawFrames(frames, vars)`: stops, loads the replay and plays it from
        the start. */
    method DrawFrames(frames: nat, vars: nat)
      requires Valid()
      modifies this
      ensures Valid()
      ensures frameCount == frames && varsCount == vars
      ensures isPlaying && curFrame == 0 && realCurFrame == 0.0 && curSpeed == DefaultSpeed
    {
      Stop();
      frameCount, varsCount := frames, vars;
      Play();
    }

    /** One tick of `drawLoop(now)`: advances the real frame by speed times
        elapsed seconds once a playback timeout has passed, clamps the frame
        into the variable list, and pauses at whichever end it runs into. */
    method DrawLoop(now: real)
      requires Valid()
      modifies this
      ensures Valid()
      ensures !old(isPlaying) ==>
        && !isReallyPlaying && !isPlaying
        && curFrame == old(curFrame) && realCurFrame == old(realCurFrame) && lastFrameTime == old(lastFrameTime)
      ensures var start := if old(lastFrameTime) == 0.0 then now else old(lastFrameTime);
        var delta := now - start;
        && (old(isPlaying) && delta < playbackTimeout ==>
              && lastFrameTime == start && isPlaying && isReallyPlaying == old(isReallyPlaying)
              && curFrame == old(curFrame) && realCurFrame == old(realCurFrame))
        && (old(isPlaying) && delta >= playbackTimeout ==>
              && realCurFrame == old(realCurFrame) + curSpeed * (delta / 1000.0)
              && curFrame == Clamp(realCurFrame.Floor, varsCount as int - 1))
        && (old(isPlaying) && delta >= playbackTimeout && curFrame == old(curFrame) ==>
              lastFrameTime == start && isPlaying && isReallyPlaying == old(isReallyPlaying))
        && (old(isPlaying) && delta >= playbackTimeout && curFrame != old(curFrame) ==>
              && isReallyPlaying && lastFrameTime == now
              && (isPlaying <==> !(curFrame >= frameCount
                                   || (curFrame == varsCount - 1 && curSpeed > 0.0)
                                   || (curFrame == 0 && curSpeed < 0.0))))
      ensures curSpeed == old(curSpeed) && frameCount == old(frameCount) && varsCount == old(varsCount)
      ensures playbackTimeout == old(playbackTimeout)
    {
      if isPlaying {
        if lastFrameTime == 0.0 {
          lastFrameTime := now;
        }
        var timeDelta := now - lastFrameTime;
        if timeDelta < playbackTimeout {
          return;
        }
        realCurFrame := realCurFrame + curSpeed * (timeDelta / 1000.0);
        var oldCurFrame := curFrame;
        curFrame := Clamp(realCurFrame.Floor, varsCount as int - 1);
        if oldCurFrame == curFrame {
          return;
        }
        if curFrame < frameCount && curFrame > -1 {
          if curFrame == varsCount - 1 && curSpeed > 0.0 {
            Pause();
          } else if curFrame == 0 && curSpeed < 0.0 {
            Pause();
          }
        } else {
          Pause();
        }
        isReallyPlaying := true;
        lastFrameTime := now;
      } else {
        isReallyPlaying := false;
      }
    }
  }

  /** `Math.max(Math.min(f, last), 0)`: the frame clamp of `drawLoop`. */
  function Clamp(f: int, last: int): (r: int)
    ensures r >= 0
    ensures last >= 0 ==> r <= last
    ensures 0 <= f <= last ==> r == f
    ensures f > last ==> r == (if last < 0 then 0 else last)
    ensures f < 0 ==> r == 0
  {
    var m := if f < last then f else last;
    if m > 0 then m else 0
  }

  /** Clamping twice is clamping once. */
  lemma ClampIdempotent(f: int, last: int)
    ensures Clamp(Clamp(f, last), last) == Clamp(f, last)
  {
  }
}
