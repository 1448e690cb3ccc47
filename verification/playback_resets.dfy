/**
 * What a `reset` during `play` does (src/hooks/useChatPlayback.ts:87-94
 * with the cancel checks at lines 106, 127, 144 and 150): the run stops
 * within the message it interrupted and the pause after it, no later
 * message starts, what is left on screen is at most the one message whose
 * wait the first reset fell on, and a run that no reset reached is the run
 * without resets.
 */
module PlaybackResets {
  import opened ChatTypes
  import opened PlaybackModel

  /** Some await among the first `n` had a reset. */
  predicate ResetBy(resets: set<nat>, n: nat) {
    exists k :: k in resets && k < n
  }

  /** The run goes on: the flag is down and no reset has happened yet. */
  predicate Running(st: St, resets: set<nat>) {
    !st.cancelled && !ResetBy(resets, |st.trace|)
  }

  /** Nothing typed, no progress, neither playing nor typing, at most one message. */
  predicate Quiet(f: Frame) {
    |f.visible| <= 1 && f.typed == [] && f.progress == 0.0 && !f.isTyping && !f.isPlaying
  }

  /**
   * The run was stopped by a reset, and at most `extra` awaits have
   * followed the await of every reset so far.
   */
  predicate Stopped(st: St, resets: set<nat>, extra: nat) {
    && st.cancelled && ResetBy(resets, |st.trace|) && Quiet(st.frame)
    && forall k :: k in resets && k < |st.trace| ==> |st.trace| <= k + 1 + extra
  }

  /** The first reset of the run fell on await `n`. */
  predicate FirstReset(resets: set<nat>, n: nat) {
    n in resets && !ResetBy(resets, n)
  }

  /**
   * What a reset during message `m`, started with the trace of `start`,
   * leaves on screen: nothing, or `m` alone when the first reset fell on
   * the wait just before `m` is shown (an image's wait of `400 / speed`,
   * or the wait of `200 / speed` after a text is typed, which is await
   * number `|text| + 1` of the message).
   */
  predicate Interrupted(start: St, m: ChatMessage, resets: set<nat>, v: seq<ChatMessage>) {
    || v == []
    || (&& v == [m]
        && (|| (HasImage(m) && FirstReset(resets, |start.trace|))
            || (IsTextMessage(m) && FirstReset(resets, |start.trace| + |m.text| + 1))))
  }

  /** A stop right after a reset: nothing on screen, and no await since. */
  predicate JustStopped(st: St, resets: set<nat>) {
    Stopped(st, resets, 0) && st.frame.visible == []
  }

  // ---------------------------------------------------------------------
  // The basic steps
  // ---------------------------------------------------------------------

  lemma SleepRunning(st: St, ms: real, resets: set<nat>)
    requires Running(st, resets)
    ensures var r := Sleep(st, ms, resets);
      if |st.trace| in resets then JustStopped(r, resets)
      else Running(r, resets) && r.frame == st.frame
  {
    var r := Sleep(st, ms, resets);
    if |st.trace| in resets {
      forall k | k in resets && k < |r.trace|
        ensures |r.trace| <= k + 1
      {
        assert !(k < |st.trace|);
      }
    } else {
      forall k | k in resets
        ensures !(k < |r.trace|)
      {
        assert !(k < |st.trace|);
      }
    }
  }

  lemma SleepStopped(st: St, ms: real, resets: set<nat>)
    requires Stopped(st, resets, 0)
    ensures Stopped(Sleep(st, ms, resets), resets, 1)
  {
    var r := Sleep(st, ms, resets);
    forall k | k in resets && k < |r.trace|
      ensures |r.trace| <= k + 2
    {
      if k < |st.trace| {
      } else {
        assert k == |st.trace|;
      }
    }
  }

  lemma {:induction false} TypeLoopReset(st: St, text: string, c: nat, speed: real, resets: set<nat>)
    requires Running(st, resets) && text != [] && speed > 0.0 && c <= |text| + 1
    ensures var r := TypeLoop(st, text, c, speed, resets);
      if r.cancelled then JustStopped(r, resets)
      else Running(r, resets) && r.frame.visible == st.frame.visible && |r.trace| == |st.trace| + |text| + 1 - c
    decreases |text| + 1 - c
  {
    if c <= |text| {
      var shown := st.(frame := st.frame.(typed := text[..c], progress := c as real / |text| as real));
      SleepRunning(shown, 45.0 / speed, resets);
      var next := Sleep(shown, 45.0 / speed, resets);
      if !next.cancelled {
        TypeLoopReset(next, text, c + 1, speed, resets);
      } else {
        assert c + 1 > |text| || next.cancelled;
      }
    }
  }

  lemma {:induction false} TickLoopReset(st: St, steps: nat, s: nat, resets: set<nat>)
    requires Running(st, resets) && steps >= 1 && s <= steps + 1
    ensures var r := TickLoop(st, steps, s, resets);
      if r.cancelled then JustStopped(r, resets) else Running(r, resets)
    decreases steps + 1 - s
  {
    if s <= steps {
      var p := Min(s as real / steps as real, 1.0);
      var shown := st.(frame := st.frame.(visible := SetLastProgress(st.frame.visible, p)));
      SleepRunning(shown, 50.0, resets);
      var next := Sleep(shown, 50.0, resets);
      if !next.cancelled {
        TickLoopReset(next, steps, s + 1, resets);
      }
    }
  }

  /** One message, from a running state: it runs on, or it stops with at most the one message it appends. */
  lemma MessageReset(st: St, m: ChatMessage, speed: real, resets: set<nat>)
    requires Running(st, resets) && speed > 0.0 && Playable(m)
    ensures var r := MessageStep(st, m, speed, resets);
      if r.0.cancelled then Stopped(r.0, resets, 0) && Interrupted(st, m, resets, r.0.frame.visible)
      else Running(r.0, resets) && !r.1
  {
    if HasImage(m) {
      SleepRunning(st, 400.0 / speed, resets);
    } else if HasAudio(m) {
      var shown := Append(st, m.(audioPlayProgress := Some(0.0)));
      SleepRunning(shown, 300.0 / speed, resets);
      var waited := Sleep(shown, 300.0 / speed, resets);
      if !waited.cancelled {
        TickLoopReset(waited, Steps(m.audio.value.durationSec, speed), 0, resets);
      }
    } else {
      var typed := TypeLoop(StartTyping(st, m), m.text, 0, speed, resets);
      TypeLoopReset(StartTyping(st, m), m.text, 0, speed, resets);
      if !typed.cancelled {
        SleepRunning(typed, 200.0 / speed, resets);
      }
    }
  }

  /**
   * A round started while the run goes on and stopped by a reset: at most
   * one more await follows the reset, and the screen holds nothing or the
   * message of this round whose wait the first reset fell on.
   */
  lemma RoundStopped(st: St, ms: seq<ChatMessage>, i: nat, speed: real, resets: set<nat>)
    requires Running(st, resets) && i < |ms| && speed > 0.0 && Playable(ms[i])
    ensures var r := Round(st, ms, i, speed, resets);
      r.0.cancelled ==> Stopped(r.0, resets, 1) && Interrupted(st, ms[i], resets, r.0.frame.visible)
    ensures var r := Round(st, ms, i, speed, resets);
      !r.0.cancelled ==> Running(r.0, resets) && !r.1
  {
    MessageReset(st, ms[i], speed, resets);
    var r := MessageStep(st, ms[i], speed, resets);
    if r.0.cancelled {
      if i + 1 < |ms| {
        SleepStopped(r.0, 600.0 / speed, resets);
      }
    } else if i + 1 < |ms| {
      SleepRunning(r.0, 600.0 / speed, resets);
    }
  }

  /**
   * From a running state the `for` loop either runs on to its end, or it
   * stops inside one round that started while the run was still going, so
   * no message starts after the reset.
   */
  lemma {:induction false} PlayFromReset(st: St, ms: seq<ChatMessage>, i: nat, speed: real, resets: set<nat>)
    requires Running(st, resets) && i <= |ms| && speed > 0.0 && AllPlayable(ms)
    ensures var r := PlayFrom(st, ms, i, speed, resets);
      if r.cancelled then Stopped(r, resets, 1) else Running(r, resets)
    ensures var r := PlayFrom(st, ms, i, speed, resets);
      r.cancelled ==> exists s: St, k: nat :: && i <= k < |ms| && Running(s, resets) && Playable(ms[k])
                                              && Round(s, ms, k, speed, resets).0 == r
                                              && Interrupted(s, ms[k], resets, r.frame.visible)
    decreases |ms| - i
  {
    if i < |ms| {
      assert Playable(ms[i]);
      RoundStopped(st, ms, i, speed, resets);
      var r := Round(st, ms, i, speed, resets);
      if !r.0.cancelled {
        PlayFromReset(r.0, ms, i + 1, speed, resets);
      } else {
        assert PlayFrom(st, ms, i, speed, resets) == r.0;
        assert Round(st, ms, i, speed, resets).0 == r.0;
      }
    }
  }

  /**
   * A run ends cancelled exactly when a reset fell on one of its awaits.
   * Then at most one more await followed each reset, nothing is typed, the
   * progress is 0, and the run ended inside the one round that was going
   * when the reset came: no later message started, and the screen holds
   * nothing or that round's message, when the first reset fell on the wait
   * just before it is shown. Either way the run ends neither playing nor
   * typing.
   */
  lemma PlayReset(f: Frame, ms: seq<ChatMessage>, speed: real, resets: set<nat>)
    requires speed > 0.0 && AllPlayable(ms)
    ensures var r := PlaySim(f, ms, speed, resets);
      && (r.cancelled <==> ResetBy(resets, |r.trace|))
      && (r.cancelled ==> |r.frame.visible| <= 1 && r.frame.typed == [] && r.frame.progress == 0.0)
      && (forall k :: k in resets && k < |r.trace| ==> |r.trace| <= k + 2)
      && !r.frame.isPlaying && !r.frame.isTyping
    ensures var r := PlaySim(f, ms, speed, resets);
      r.cancelled ==> exists s: St, k: nat :: && k < |ms| && Running(s, resets) && Playable(ms[k])
                                              && r == Finish(Round(s, ms, k, speed, resets).0)
                                              && Interrupted(s, ms[k], resets, r.frame.visible)
  {
    PlayFromReset(Begin(f), ms, 0, speed, resets);
  }

  // ---------------------------------------------------------------------
  // A run no reset reached
  // ---------------------------------------------------------------------

  lemma {:induction false} TypeLoopUnreset(st: St, text: string, c: nat, speed: real, resets: set<nat>)
    requires !st.cancelled && text != [] && speed > 0.0 && c <= |text| + 1
    ensures !TypeLoop(st, text, c, speed, resets).cancelled ==>
      TypeLoop(st, text, c, speed, resets) == TypeLoop(st, text, c, speed, {})
    decreases |text| + 1 - c
  {
    if c <= |text| {
      var shown := st.(frame := st.frame.(typed := text[..c], progress := c as real / |text| as real));
      if |shown.trace| !in resets {
        assert Sleep(shown, 45.0 / speed, resets) == Sleep(shown, 45.0 / speed, {});
        TypeLoopUnreset(Sleep(shown, 45.0 / speed, resets), text, c + 1, speed, resets);
      }
    }
  }

  lemma {:induction false} TickLoopUnreset(st: St, steps: nat, s: nat, resets: set<nat>)
    requires !st.cancelled && steps >= 1 && s <= steps + 1
    ensures !TickLoop(st, steps, s, resets).cancelled ==>
      TickLoop(st, steps, s, resets) == TickLoop(st, steps, s, {})
    decreases steps + 1 - s
  {
    if s <= steps {
      var p := Min(s as real / steps as real, 1.0);
      var shown := st.(frame := st.frame.(visible := SetLastProgress(st.frame.visible, p)));
      if |shown.trace| !in resets {
        assert Sleep(shown, 50.0, resets) == Sleep(shown, 50.0, {});
        TickLoopUnreset(Sleep(shown, 50.0, resets), steps, s + 1, resets);
      }
    }
  }

  lemma MessageUnreset(st: St, m: ChatMessage, speed: real, resets: set<nat>)
    requires !st.cancelled && speed > 0.0 && Playable(m)
    ensures !MessageStep(st, m, speed, resets).0.cancelled ==>
      MessageStep(st, m, speed, resets) == MessageStep(st, m, speed, {})
  {
    if HasImage(m) {
    } else if HasAudio(m) {
      var shown := Append(st, m.(audioPlayProgress := Some(0.0)));
      if |shown.trace| !in resets {
        assert Sleep(shown, 300.0 / speed, resets) == Sleep(shown, 300.0 / speed, {});
        TickLoopUnreset(Sleep(shown, 300.0 / speed, resets), Steps(m.audio.value.durationSec, speed), 0, resets);
      }
    } else {
      TypeLoopUnreset(StartTyping(st, m), m.text, 0, speed, resets);
    }
  }

  lemma {:induction false} PlayFromUnreset(st: St, ms: seq<ChatMessage>, i: nat, speed: real, resets: set<nat>)
    requires !st.cancelled && i <= |ms| && speed > 0.0 && AllPlayable(ms)
    ensures !PlayFrom(st, ms, i, speed, resets).cancelled ==>
      PlayFrom(st, ms, i, speed, resets) == PlayFrom(st, ms, i, speed, {})
    decreases |ms| - i
  {
    if i < |ms| {
      assert Playable(ms[i]);
      MessageUnreset(st, ms[i], speed, resets);
      var r := MessageStep(st, ms[i], speed, resets);
      if !r.0.cancelled {
        var paused := Between(r.0, i, |ms|, speed, resets);
        if i + 1 < |ms| && |r.0.trace| !in resets {
          assert paused == Between(r.0, i, |ms|, speed, {});
        }
        if !paused.cancelled {
          PlayFromUnreset(paused, ms, i + 1, speed, resets);
        }
      }
    }
  }

  /** A run that ends without being cancelled is exactly the run without resets. */
  lemma PlayUnreset(f: Frame, ms: seq<ChatMessage>, speed: real, resets: set<nat>)
    requires speed > 0.0 && AllPlayable(ms)
    ensures !PlaySim(f, ms, speed, resets).cancelled ==> PlaySim(f, ms, speed, resets) == PlaySim(f, ms, speed, {})
  {
    PlayFromUnreset(Begin(f), ms, 0, speed, resets);
  }
}
