/**
 * What `play` promises, proved about `PlaybackModel.PlaySim` (and so,
 * through `ChatPlayback.Play`'s contract, about the hook itself):
 *
 *  - without a reset, every message ends up on screen in order, audio
 *    bubbles at full progress, and the run takes a closed-form time;
 *  - while a message is typed, the screen shows a growing prefix of its
 *    text and the matching progress;
 *  - a reset stops the run within one more await, and leaves at most one
 *    message on screen, nothing typed and no progress;
 *  - a run that no reset reached is the run without resets.
 */
module PlaybackProps {
  import opened ChatTypes
  import opened PlaybackModel

  // ---------------------------------------------------------------------
  // Durations
  // ---------------------------------------------------------------------

  lemma {:induction false} DurationAppend(a: seq<Step>, b: seq<Step>)
    ensures Duration(a + b) == Duration(a) + Duration(b)
    decreases |b|
  {
    if b == [] {
      assert a + b == a;
    } else {
      var n := |b| - 1;
      assert (a + b)[..|a + b| - 1] == a + b[..n];
      DurationAppend(a, b[..n]);
    }
  }

  /** Awaits that all take `d` milliseconds take `d` times their number. */
  lemma {:induction false} DurationUniform(steps: seq<Step>, d: real)
    requires forall j :: 0 <= j < |steps| ==> steps[j].ms == d
    ensures Duration(steps) == |steps| as real * d
  {
    if steps != [] {
      DurationUniform(steps[..|steps| - 1], d);
    }
  }

  // ---------------------------------------------------------------------
  // The typing loop
  // ---------------------------------------------------------------------

  /**
   * What the typing loop shows from character count `c` on: for each count
   * up to the whole text, that prefix of the text and the share of it
   * typed, for `45 / speed` each.
   */
  function TypingSteps(f: Frame, text: string, c: nat, speed: real): (r: seq<Step>)
    requires text != [] && c <= |text| && speed > 0.0
    ensures |r| == |text| + 1 - c
  {
    seq(|text| + 1 - c, j requires 0 <= j < |text| + 1 - c =>
      Step(f.(typed := text[..c + j], progress := (c + j) as real / |text| as real), 45.0 / speed))
  }

  /**
   * Without a reset the typing loop records exactly `TypingSteps`, and
   * ends with the whole text typed and the progress at 1.
   */
  lemma {:induction false} TypeLoopClean(st: St, text: string, c: nat, speed: real)
    requires !st.cancelled && text != [] && c <= |text| && speed > 0.0
    ensures TypeLoop(st, text, c, speed, {})
         == St(st.frame.(typed := text, progress := 1.0), false, st.trace + TypingSteps(st.frame, text, c, speed))
    decreases |text| - c
  {
    var shown := st.(frame := st.frame.(typed := text[..c], progress := c as real / |text| as real));
    var next := Sleep(shown, 45.0 / speed, {});
    assert next == St(shown.frame, false, st.trace + [Step(shown.frame, 45.0 / speed)]);
    if c == |text| {
      assert text[..c] == text;
      assert TypingSteps(st.frame, text, c, speed) == [Step(shown.frame, 45.0 / speed)];
    } else {
      TypeLoopClean(next, text, c + 1, speed);
      assert TypingSteps(st.frame, text, c, speed)
          == [Step(shown.frame, 45.0 / speed)] + TypingSteps(shown.frame, text, c + 1, speed);
    }
  }

  /** Every frame the typing loop shows has a prefix of the text typed, and the share typed as progress. */
  lemma TypingStepsShowPrefix(f: Frame, text: string, c: nat, speed: real)
    requires text != [] && c <= |text| && speed > 0.0
    ensures forall j :: 0 <= j < |TypingSteps(f, text, c, speed)| ==>
      var g := TypingSteps(f, text, c, speed)[j].frame;
      g.typed <= text && g.progress == |g.typed| as real / |text| as real && 0.0 <= g.progress <= 1.0
  {
    forall j | 0 <= j < |TypingSteps(f, text, c, speed)|
      ensures var g := TypingSteps(f, text, c, speed)[j].frame;
        g.typed <= text && g.progress == |g.typed| as real / |text| as real && 0.0 <= g.progress <= 1.0
    {
      var g := TypingSteps(f, text, c, speed)[j].frame;
      assert g.typed == text[..c + j] && |g.typed| == c + j;
      Fraction(c + j, |text|);
    }
  }

  // ---------------------------------------------------------------------
  // The audio loop
  // ---------------------------------------------------------------------

  lemma SetLastProgressTwice(v: seq<ChatMessage>, p: real, q: real)
    ensures SetLastProgress(SetLastProgress(v, p), q) == SetLastProgress(v, q)
  {
    if v != [] {
      var w := SetLastProgress(v, p);
      assert w[..|w| - 1] == v[..|v| - 1];
    }
  }

  /** What the audio loop shows from tick `s` on: the last bubble at `s / steps`, `(s + 1) / steps`, ..., 1, for 50 ms each. */
  function TickSteps(f: Frame, steps: nat, s: nat): (r: seq<Step>)
    requires steps >= 1 && s <= steps
    ensures |r| == steps + 1 - s
  {
    seq(steps + 1 - s, j requires 0 <= j < steps + 1 - s =>
      Step(f.(visible := SetLastProgress(f.visible, (s + j) as real / steps as real)), 50.0))
  }

  /** The ticks after the first do not depend on the progress the first one set. */
  lemma TickStepsShift(f: Frame, steps: nat, s: nat, p: real)
    requires steps >= 1 && s < steps
    ensures TickSteps(f, steps, s)
         == [Step(f.(visible := SetLastProgress(f.visible, s as real / steps as real)), 50.0)]
            + TickSteps(f.(visible := SetLastProgress(f.visible, p)), steps, s + 1)
  {
    var g := f.(visible := SetLastProgress(f.visible, p));
    var a := TickSteps(f, steps, s);
    var b := TickSteps(g, steps, s + 1);
    forall j | 0 <= j < |b|
      ensures b[j] == a[j + 1]
    {
      SetLastProgressTwice(f.visible, p, (s + 1 + j) as real / steps as real);
    }
  }

  /** A share `a / b` of a whole `b` lies in [0, 1] and is 1 for the whole. */
  lemma Fraction(a: nat, b: nat)
    requires b >= 1 && a <= b
    ensures 0.0 <= a as real / b as real <= 1.0
    ensures a == b ==> a as real / b as real == 1.0
  {
    var q := a as real / b as real;
    assert q * b as real == a as real;
  }

  /** Without a reset the audio loop records exactly `TickSteps` and leaves the last bubble at full progress. */
  lemma {:induction false} TickLoopClean(st: St, steps: nat, s: nat)
    requires !st.cancelled && steps >= 1 && s <= steps
    ensures TickLoop(st, steps, s, {})
         == St(st.frame.(visible := SetLastProgress(st.frame.visible, 1.0)), false,
               st.trace + TickSteps(st.frame, steps, s))
    decreases steps - s
  {
    var p := s as real / steps as real;
    Fraction(s, steps);
    assert Min(p, 1.0) == p;
    var shown := st.(frame := st.frame.(visible := SetLastProgress(st.frame.visible, p)));
    var next := Sleep(shown, 50.0, {});
    assert next == St(shown.frame, false, st.trace + [Step(shown.frame, 50.0)]);
    if s == steps {
      assert p == 1.0;
      assert TickSteps(st.frame, steps, s) == [Step(shown.frame, 50.0)];
    } else {
      TickLoopClean(next, steps, s + 1);
      SetLastProgressTwice(st.frame.visible, p, 1.0);
      TickStepsShift(st.frame, steps, s, p);
    }
  }

  // ---------------------------------------------------------------------
  // One message without a reset
  // ---------------------------------------------------------------------

  /** A message as it looks once played: an audio bubble at full progress, anything else as it came. */
  function Final(m: ChatMessage): ChatMessage {
    if !HasImage(m) && HasAudio(m) then m.(audioPlayProgress := Some(1.0)) else m
  }

  /** The time one message takes, in milliseconds. */
  function MessageTime(m: ChatMessage, speed: real): real
    requires speed > 0.0 && Playable(m)
  {
    if HasImage(m) then 400.0 / speed
    else if HasAudio(m) then 300.0 / speed + (Steps(m.audio.value.durationSec, speed) + 1) as real * 50.0
    else (|m.text| + 1) as real * (45.0 / speed) + 200.0 / speed
  }

  /** What one message adds without a reset: it shows in its final form and takes `MessageTime`. */
  predicate Advanced(before: St, after: St, m: ChatMessage, speed: real)
    requires speed > 0.0 && Playable(m)
  {
    && !after.cancelled
    && after.frame.visible == before.frame.visible + [Final(m)]
    && after.frame.isPlaying == before.frame.isPlaying
    && Duration(after.trace) == Duration(before.trace) + MessageTime(m, speed)
  }

  lemma ImageClean(st: St, m: ChatMessage, speed: real)
    requires !st.cancelled && speed > 0.0 && Playable(m) && HasImage(m)
    ensures Advanced(st, ImageStep(st, m, speed, {}), m, speed)
  {
    var after := ImageStep(st, m, speed, {});
    assert after.trace == st.trace + [Step(st.frame, 400.0 / speed)];
  }

  lemma AudioClean(st: St, m: ChatMessage, speed: real)
    requires !st.cancelled && speed > 0.0 && Playable(m) && !HasImage(m) && HasAudio(m)
    ensures Advanced(st, AudioStep(st, m, speed, {}), m, speed)
  {
    var steps := Steps(m.audio.value.durationSec, speed);
    var shown := Append(st, m.(audioPlayProgress := Some(0.0)));
    var waited := Sleep(shown, 300.0 / speed, {});
    assert waited.trace == st.trace + [Step(shown.frame, 300.0 / speed)];
    TickLoopClean(waited, steps, 0);
    var after := AudioStep(st, m, speed, {});
    assert after.frame.visible == SetLastProgress(shown.frame.visible, 1.0);
    assert shown.frame.visible[..|shown.frame.visible| - 1] == st.frame.visible;
    var ticks := TickSteps(waited.frame, steps, 0);
    assert after.trace == waited.trace + ticks;
    DurationUniform(ticks, 50.0);
    DurationAppend(waited.trace, ticks);
  }

  lemma TextClean(st: St, m: ChatMessage, speed: real)
    requires !st.cancelled && speed > 0.0 && Playable(m) && IsTextMessage(m)
    ensures !TextStep(st, m, speed, {}).1
    ensures Advanced(st, TextStep(st, m, speed, {}).0, m, speed)
    ensures !TextStep(st, m, speed, {}).0.frame.isTyping
  {
    var start := StartTyping(st, m);
    var typing := TypingSteps(start.frame, m.text, 0, speed);
    TypeLoopClean(start, m.text, 0, speed);
    var typed := TypeLoop(start, m.text, 0, speed, {});
    assert typed.trace == st.trace + typing;
    DurationUniform(typing, 45.0 / speed);
    DurationAppend(st.trace, typing);
    var waited := Sleep(typed, 200.0 / speed, {});
    assert waited.trace == typed.trace + [Step(typed.frame, 200.0 / speed)];
  }

  lemma MessageClean(st: St, m: ChatMessage, speed: real)
    requires !st.cancelled && speed > 0.0 && Playable(m)
    ensures !MessageStep(st, m, speed, {}).1
    ensures Advanced(st, MessageStep(st, m, speed, {}).0, m, speed)
  {
    if HasImage(m) {
      ImageClean(st, m, speed);
    } else if HasAudio(m) {
      AudioClean(st, m, speed);
    } else {
      TextClean(st, m, speed);
    }
  }

  // ---------------------------------------------------------------------
  // A whole run without a reset
  // ---------------------------------------------------------------------

  /** The time the messages from `i` on take, each followed by the `600 / speed` pause but the last. */
  function RestTime(ms: seq<ChatMessage>, i: nat, speed: real): real
    requires i <= |ms| && speed > 0.0 && AllPlayable(ms)
    decreases |ms| - i
  {
    if i == |ms| then 0.0
    else MessageTime(ms[i], speed) + (if i + 1 < |ms| then 600.0 / speed else 0.0) + RestTime(ms, i + 1, speed)
  }

  /** How long `play` runs when nobody resets it. */
  function TotalTime(ms: seq<ChatMessage>, speed: real): real
    requires speed > 0.0 && AllPlayable(ms)
  {
    RestTime(ms, 0, speed)
  }

  /** The messages from `i` on as they look once played. */
  function ShownFrom(ms: seq<ChatMessage>, i: nat): (r: seq<ChatMessage>)
    requires i <= |ms|
    ensures |r| == |ms| - i && forall j :: 0 <= j < |r| ==> r[j] == Final(ms[i + j])
  {
    seq(|ms| - i, j requires 0 <= j < |ms| - i => Final(ms[i + j]))
  }

  /** One pass of the loop without a reset: the message shows in its final form, then the pause follows. */
  lemma PlayFromCleanStep(st: St, ms: seq<ChatMessage>, i: nat, speed: real) returns (paused: St)
    requires !st.cancelled && i < |ms| && speed > 0.0 && AllPlayable(ms)
    ensures PlayFrom(st, ms, i, speed, {}) == PlayFrom(paused, ms, i + 1, speed, {})
      && !paused.cancelled
      && paused.frame.visible == st.frame.visible + [Final(ms[i])]
      && Duration(paused.trace) + RestTime(ms, i + 1, speed) == Duration(st.trace) + RestTime(ms, i, speed)
      && paused.frame.visible + ShownFrom(ms, i + 1) == st.frame.visible + ShownFrom(ms, i)
  {
    assert ShownFrom(ms, i) == [Final(ms[i])] + ShownFrom(ms, i + 1);
    assert Playable(ms[i]);
    MessageClean(st, ms[i], speed);
    var stepped := MessageStep(st, ms[i], speed, {}).0;
    paused := Between(stepped, i, |ms|, speed, {});
    if i + 1 < |ms| {
      assert paused.trace == stepped.trace + [Step(stepped.frame, 600.0 / speed)];
    }
  }

  lemma {:induction false} PlayFromClean(st: St, ms: seq<ChatMessage>, i: nat, speed: real)
    requires !st.cancelled && i <= |ms| && speed > 0.0 && AllPlayable(ms)
    ensures var r := PlayFrom(st, ms, i, speed, {});
      && !r.cancelled
      && r.frame.visible == st.frame.visible + ShownFrom(ms, i)
      && Duration(r.trace) == Duration(st.trace) + RestTime(ms, i, speed)
    decreases |ms| - i
  {
    if i == |ms| {
      assert st.frame.visible + ShownFrom(ms, i) == st.frame.visible;
    } else {
      var paused := PlayFromCleanStep(st, ms, i, speed);
      PlayFromClean(paused, ms, i + 1, speed);
    }
  }

  /**
   * Without a reset, `play` ends neither playing nor typing, with every
   * message on screen in order (audio bubbles at full progress), after
   * exactly `TotalTime` milliseconds of awaits.
   */
  lemma PlayClean(f: Frame, ms: seq<ChatMessage>, speed: real)
    requires speed > 0.0 && AllPlayable(ms)
    ensures var r := PlaySim(f, ms, speed, {});
      && !r.cancelled && !r.frame.isPlaying && !r.frame.isTyping
      && r.frame.visible == ShownFrom(ms, 0)
      && Duration(r.trace) == TotalTime(ms, speed)
  {
    PlayFromClean(Begin(f), ms, 0, speed);
  }

  /**
   * The typing loop runs one more time than the text has characters, so a
   * two-character message at speed 1 takes 3 * 45 + 200 = 335 ms, and ends
   * on screen as it came.
   */
  lemma TwoCharacterMessage(f: Frame)
    ensures var ms := [ChatMessage(0, Me, "hi", None, None, None)];
      && AllPlayable(ms)
      && Duration(PlaySim(f, ms, 1.0, {}).trace) == 335.0
      && PlaySim(f, ms, 1.0, {}).frame.visible == ms
  {
    var ms := [ChatMessage(0, Me, "hi", None, None, None)];
    assert Playable(ms[0]);
    PlayClean(f, ms, 1.0);
    assert RestTime(ms, 1, 1.0) == 0.0;
  }
}
