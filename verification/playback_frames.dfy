/**
 * Every frame a run of `play` records when nobody resets it
 * (src/hooks/useChatPlayback.ts:96-166): the screen only ever holds the
 * first messages of the script, in order and as they look once played,
 * except that the newest audio bubble may still be playing; while a
 * message is being typed, the typing sender is that of the next message
 * and the typed text is a prefix of its text. Frames never go back: the
 * number of messages never drops, typing for the next message starts only
 * once the previous one is shown, an audio bubble's progress never
 * decreases and the typed text only grows.
 */
module PlaybackFrames {
  import opened ChatTypes
  import opened PlaybackModel
  import opened PlaybackProps

  /** The newest bubble's `audioPlayProgress`, 0 when there is none. */
  function LastProgress(g: Frame): real {
    if g.visible == [] || g.visible[|g.visible| - 1].audioPlayProgress.None? then 0.0
    else g.visible[|g.visible| - 1].audioPlayProgress.value
  }

  /** How the newest bubble `v` can show message `m`: an audio clip somewhere in its playback, anything else as it came. */
  predicate Newest(v: ChatMessage, m: ChatMessage) {
    if !HasImage(m) && HasAudio(m) then
      Base(v) == Base(m) && v.audioPlayProgress.Some? && 0.0 <= v.audioPlayProgress.value <= 1.0
    else v == m
  }

  /**
   * A frame a run over `ms` can show: the first messages of `ms` in order,
   * each finished but the newest; while typing, the sender and a prefix of
   * the text of the message after them.
   */
  predicate Shows(g: Frame, ms: seq<ChatMessage>) {
    && |g.visible| <= |ms|
    && (forall t :: 0 <= t < |g.visible| - 1 ==> g.visible[t] == Final(ms[t]))
    && (g.visible != [] ==> Newest(g.visible[|g.visible| - 1], ms[|g.visible| - 1]))
    && (g.isTyping ==>
          |g.visible| < |ms| && g.typingSender == ms[|g.visible|].sender && g.typed <= ms[|g.visible|].text)
  }

  /**
   * Frame `g` comes no later than frame `h`: fewer messages; or as many,
   * and typing starts only in `h`; or as many and the same typing state,
   * with no less audio progress in `h` and, while typing, `g`'s text a
   * prefix of `h`'s.
   */
  predicate Before(g: Frame, h: Frame) {
    || |g.visible| < |h.visible|
    || (|g.visible| == |h.visible| && !g.isTyping && h.isTyping)
    || (&& |g.visible| == |h.visible| && g.isTyping == h.isTyping
        && LastProgress(g) <= LastProgress(h) && (g.isTyping ==> g.typed <= h.typed))
  }

  lemma BeforeTransitive(a: Frame, b: Frame, c: Frame)
    requires Before(a, b) && Before(b, c)
    ensures Before(a, c)
  {
    if |a.visible| == |c.visible| && a.isTyping && c.isTyping {
      assert a.typed <= b.typed <= c.typed;
      assert a.typed == c.typed[..|a.typed|];
    }
  }

  /**
   * A state on the way through a run over `ms`: its frame and every
   * recorded one can be shown, and the recorded frames are in order,
   * ending no later than the current one.
   */
  predicate Orderly(st: St, ms: seq<ChatMessage>) {
    && Shows(st.frame, ms)
    && (forall j :: 0 <= j < |st.trace| ==> Shows(st.trace[j].frame, ms) && Before(st.trace[j].frame, st.frame))
    && (forall j, k :: 0 <= j <= k < |st.trace| ==> Before(st.trace[j].frame, st.trace[k].frame))
  }

  /** An await without a reset records the current frame, which keeps the order. */
  lemma SleepOrderly(st: St, d: real, ms: seq<ChatMessage>)
    requires Orderly(st, ms)
    ensures Orderly(Sleep(st, d, {}), ms) && Sleep(st, d, {}).frame == st.frame
    ensures Sleep(st, d, {}).cancelled == st.cancelled
  {
    var r := Sleep(st, d, {});
    assert r.trace == st.trace + [Step(st.frame, d)];
    forall j, k | 0 <= j <= k < |r.trace|
      ensures Before(r.trace[j].frame, r.trace[k].frame)
    {
      if k == |st.trace| {
        if j < k {
          assert Before(st.trace[j].frame, st.frame);
        }
      } else {
        assert r.trace[k] == st.trace[k];
      }
    }
  }

  /** Moving on to a frame that can be shown and comes no earlier keeps the order. */
  lemma MoveOrderly(st: St, g: Frame, ms: seq<ChatMessage>)
    requires Orderly(st, ms) && Shows(g, ms) && Before(st.frame, g)
    ensures Orderly(st.(frame := g), ms)
  {
    forall j | 0 <= j < |st.trace|
      ensures Before(st.trace[j].frame, g)
    {
      BeforeTransitive(st.trace[j].frame, st.frame, g);
    }
  }

  /** Showing the next message in its final form, nobody typing, keeps the order. */
  lemma AppendOrderly(st: St, ms: seq<ChatMessage>, i: nat, g: Frame)
    requires Orderly(st, ms) && i < |ms| && |st.frame.visible| == i
    requires forall t :: 0 <= t < i ==> st.frame.visible[t] == Final(ms[t])
    requires g.visible == st.frame.visible + [Final(ms[i])] && !g.isTyping
    ensures Orderly(st.(frame := g), ms)
  {
    assert Shows(g, ms) by {
      forall t | 0 <= t < |g.visible| - 1
        ensures g.visible[t] == Final(ms[t])
      {
        assert g.visible[t] == st.frame.visible[t];
      }
    }
    MoveOrderly(st, g, ms);
  }

  /** The typing loop without a reset keeps the order: it only lengthens the typed prefix. */
  lemma {:induction false} TypeLoopOrderly(st: St, text: string, c: nat, speed: real, ms: seq<ChatMessage>)
    requires !st.cancelled && text != [] && speed > 0.0 && c <= |text| + 1
    requires Orderly(st, ms) && st.frame.isTyping && |st.frame.visible| < |ms|
    requires text == ms[|st.frame.visible|].text
    requires c <= |text| ==> st.frame.typed <= text[..c]
    ensures var r := TypeLoop(st, text, c, speed, {});
      && Orderly(r, ms) && !r.cancelled
      && r.frame.visible == st.frame.visible && r.frame.isTyping
    decreases |text| + 1 - c
  {
    if c <= |text| {
      var g := st.frame.(typed := text[..c], progress := c as real / |text| as real);
      assert Shows(g, ms);
      assert Before(st.frame, g);
      MoveOrderly(st, g, ms);
      SleepOrderly(st.(frame := g), 45.0 / speed, ms);
      if c + 1 <= |text| {
        assert text[..c] <= text[..c + 1];
      }
      TypeLoopOrderly(TypeOnce(st, text, c, speed, {}), text, c + 1, speed, ms);
    }
  }

  /** `min(s / steps, 1)` grows with `s` and stays within [0, 1]. */
  lemma TickShare(steps: nat, s: nat)
    requires steps >= 1
    ensures 0.0 <= Min(s as real / steps as real, 1.0) <= 1.0
    ensures Min(s as real / steps as real, 1.0) <= Min((s + 1) as real / steps as real, 1.0)
  {
    var a := s as real / steps as real;
    var b := (s + 1) as real / steps as real;
    assert a * steps as real == s as real;
    assert b * steps as real == (s + 1) as real;
    assert a >= 0.0;
    assert (b - a) * steps as real == 1.0;
  }

  /** The audio loop without a reset keeps the order: it only raises the newest bubble's progress. */
  lemma {:induction false} TickLoopOrderly(st: St, steps: nat, s: nat, ms: seq<ChatMessage>)
    requires !st.cancelled && steps >= 1 && s <= steps + 1 && Orderly(st, ms)
    requires st.frame.visible != [] && var m := ms[|st.frame.visible| - 1]; !HasImage(m) && HasAudio(m)
    requires s <= steps ==> LastProgress(st.frame) <= Min(s as real / steps as real, 1.0)
    ensures var r := TickLoop(st, steps, s, {});
      && Orderly(r, ms) && !r.cancelled
      && |r.frame.visible| == |st.frame.visible| && r.frame.isTyping == st.frame.isTyping
    decreases steps + 1 - s
  {
    if s <= steps {
      var v := st.frame.visible;
      var n := |v|;
      var p := Min(s as real / steps as real, 1.0);
      TickShare(steps, s);
      var g := st.frame.(visible := SetLastProgress(v, p));
      assert g.visible == v[..n - 1] + [v[n - 1].(audioPlayProgress := Some(p))];
      assert Base(g.visible[n - 1]) == Base(v[n - 1]);
      assert Shows(g, ms) by {
        forall t | 0 <= t < n - 1
          ensures g.visible[t] == Final(ms[t])
        {
          assert g.visible[t] == v[t];
        }
      }
      assert LastProgress(g) == p;
      MoveOrderly(st, g, ms);
      SleepOrderly(st.(frame := g), 50.0, ms);
      TickLoopOrderly(TickOnce(st, steps, s, {}), steps, s + 1, ms);
    }
  }

  /** Where round `i` starts: the first `i` messages shown in their final form, nobody typing. */
  predicate AtRound(st: St, ms: seq<ChatMessage>, i: nat) {
    && i <= |ms| && |st.frame.visible| == i && !st.frame.isTyping && !st.cancelled
    && forall t :: 0 <= t < i ==> st.frame.visible[t] == Final(ms[t])
  }

  lemma ImageOrderly(st: St, ms: seq<ChatMessage>, i: nat, speed: real)
    requires i < |ms| && speed > 0.0 && HasImage(ms[i]) && Orderly(st, ms) && AtRound(st, ms, i)
    ensures Orderly(ImageStep(st, ms[i], speed, {}), ms)
  {
    var waited := Sleep(st, 400.0 / speed, {});
    SleepOrderly(st, 400.0 / speed, ms);
    AppendOrderly(waited, ms, i, ImageStep(st, ms[i], speed, {}).frame);
  }

  lemma AudioOrderly(st: St, ms: seq<ChatMessage>, i: nat, speed: real)
    requires i < |ms| && speed > 0.0 && Playable(ms[i]) && !HasImage(ms[i]) && HasAudio(ms[i])
    requires Orderly(st, ms) && AtRound(st, ms, i)
    ensures var r := AudioStep(st, ms[i], speed, {});
      Orderly(r, ms) && !r.frame.isTyping
  {
    var m := ms[i];
    var shown := Append(st, m.(audioPlayProgress := Some(0.0)));
    var g := shown.frame;
    assert Base(g.visible[i]) == Base(m);
    assert Shows(g, ms) by {
      forall t | 0 <= t < |g.visible| - 1
        ensures g.visible[t] == Final(ms[t])
      {
        assert g.visible[t] == st.frame.visible[t];
      }
    }
    assert LastProgress(g) == 0.0;
    MoveOrderly(st, g, ms);
    SleepOrderly(shown, 300.0 / speed, ms);
    TickLoopOrderly(Sleep(shown, 300.0 / speed, {}), Steps(m.audio.value.durationSec, speed), 0, ms);
  }

  lemma TextOrderly(st: St, ms: seq<ChatMessage>, i: nat, speed: real)
    requires i < |ms| && speed > 0.0 && Playable(ms[i]) && IsTextMessage(ms[i])
    requires Orderly(st, ms) && AtRound(st, ms, i)
    ensures Orderly(TextStep(st, ms[i], speed, {}).0, ms)
  {
    var m := ms[i];
    var start := StartTyping(st, m);
    assert Shows(start.frame, ms);
    MoveOrderly(st, start.frame, ms);
    TypeLoopOrderly(start, m.text, 0, speed, ms);
    var typed := TypeLoop(start, m.text, 0, speed, {});
    SleepOrderly(typed, 200.0 / speed, ms);
    var waited := Sleep(typed, 200.0 / speed, {});
    AppendOrderly(waited, ms, i, Send(waited, m).frame);
  }

  /** One message without a reset keeps the order and ends with the message shown in its final form. */
  lemma MessageOrderly(st: St, ms: seq<ChatMessage>, i: nat, speed: real)
    requires i < |ms| && speed > 0.0 && Playable(ms[i]) && Orderly(st, ms) && AtRound(st, ms, i)
    ensures var r := MessageStep(st, ms[i], speed, {});
      !r.1 && Orderly(r.0, ms) && AtRound(r.0, ms, i + 1)
  {
    var m := ms[i];
    MessageClean(st, m, speed);
    if HasImage(m) {
      ImageOrderly(st, ms, i, speed);
    } else if HasAudio(m) {
      AudioOrderly(st, ms, i, speed);
    } else {
      TextOrderly(st, ms, i, speed);
      TextClean(st, m, speed);
    }
  }

  /** One round without a reset keeps the order and ends where the next round starts. */
  lemma RoundOrderly(st: St, ms: seq<ChatMessage>, i: nat, speed: real)
    requires i < |ms| && speed > 0.0 && Playable(ms[i]) && Orderly(st, ms) && AtRound(st, ms, i)
    ensures var r := Round(st, ms, i, speed, {});
      !r.1 && Orderly(r.0, ms) && AtRound(r.0, ms, i + 1)
  {
    MessageOrderly(st, ms, i, speed);
    if i + 1 < |ms| {
      SleepOrderly(MessageStep(st, ms[i], speed, {}).0, 600.0 / speed, ms);
    }
  }

  lemma {:induction false} PlayFromOrderly(st: St, ms: seq<ChatMessage>, i: nat, speed: real)
    requires i <= |ms| && speed > 0.0 && AllPlayable(ms) && Orderly(st, ms) && AtRound(st, ms, i)
    ensures Orderly(PlayFrom(st, ms, i, speed, {}), ms)
    decreases |ms| - i
  {
    if i < |ms| {
      RoundOrderly(st, ms, i, speed);
      PlayFromOrderly(Round(st, ms, i, speed, {}).0, ms, i + 1, speed);
    }
  }

  /**
   * Without a reset, every frame `play` records shows the first messages of
   * the script in order (each finished but the newest), while typing the
   * next message's sender and a prefix of its text, and every frame comes
   * no earlier than the ones recorded before it. The run must not start
   * while a previous one is still typing.
   */
  lemma PlayFrames(f: Frame, ms: seq<ChatMessage>, speed: real)
    requires speed > 0.0 && AllPlayable(ms) && !f.isTyping
    ensures var t := PlaySim(f, ms, speed, {}).trace;
      && (forall j :: 0 <= j < |t| ==> Shows(t[j].frame, ms))
      && (forall j, k :: 0 <= j <= k < |t| ==> Before(t[j].frame, t[k].frame))
  {
    assert Orderly(Begin(f), ms);
    PlayFromOrderly(Begin(f), ms, 0, speed);
  }

  /**
   * What two recorded frames of a run without a reset say about the screen:
   * the earlier one never holds more messages, and all but its newest
   * message stay where they are.
   */
  lemma OnlyAppends(f: Frame, ms: seq<ChatMessage>, speed: real, j: nat, k: nat)
    requires speed > 0.0 && AllPlayable(ms) && !f.isTyping
    requires j <= k < |PlaySim(f, ms, speed, {}).trace|
    ensures var t := PlaySim(f, ms, speed, {}).trace;
      var a := t[j].frame.visible; var b := t[k].frame.visible;
      |a| <= |b| && (forall x :: 0 <= x < |a| - 1 ==> a[x] == b[x])
  {
    PlayFrames(f, ms, speed);
    var t := PlaySim(f, ms, speed, {}).trace;
    assert Before(t[j].frame, t[k].frame) && Shows(t[j].frame, ms) && Shows(t[k].frame, ms);
    var a := t[j].frame.visible;
    var b := t[k].frame.visible;
    forall x | 0 <= x < |a| - 1
      ensures a[x] == b[x]
    {
      assert a[x] == Final(ms[x]);
      assert b[x] == Final(ms[x]);
    }
  }
}
