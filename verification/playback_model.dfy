/**
 * What `play` does over time (src/hooks/useChatPlayback.ts:96-166), as
 * values: the hook's state is a `Frame`, every `await` of a timer is a
 * `Step` that records the frame on screen and how long it stays there, and
 * `PlaySim` is the whole run from a starting state.
 *
 * A `reset` can only run while `play` is suspended at an `await`, because
 * JavaScript runs one callback at a time. So the moments at which the user
 * resets are given as the set `resets` of await numbers (0 for the first
 * await of the run, 1 for the next, ...): `reset` runs during each await
 * whose number is in the set, and the timer still fires afterwards.
 */
module PlaybackModel {
  import opened ChatTypes

  /** The hook's state as the views read it. */
  datatype Frame = Frame(
    visible: seq<ChatMessage>,
    isPlaying: bool,
    isTyping: bool,
    typed: string,
    typingSender: Sender,
    progress: real)

  /** One `await` of a timer: the frame on screen while it runs, and its delay in milliseconds. */
  datatype Step = Step(frame: Frame, ms: real)

  /** The state of a run: the frame, `cancelRef.current`, and the awaits so far. */
  datatype St = St(frame: Frame, cancelled: bool, trace: seq<Step>)

  /** The initial values of the hook's `useState` calls. */
  const InitialFrame: Frame := Frame([], false, false, [], Me, 0.0)

  function Min(a: real, b: real): real {
    if a <= b then a else b
  }

  /** `Math.ceil`: the least integer not below `x`. */
  function Ceil(x: real): (r: int)
    ensures x <= r as real < x + 1.0
  {
    -((-x).Floor)
  }

  /** `Math.ceil(durationSec * 1000 / speed / 50)`: the audio ticks of one clip. */
  function Steps(durationSec: real, speed: real): (r: int)
    requires speed > 0.0
    ensures durationSec > 0.0 ==> r >= 1
  {
    Ceil(durationSec * 1000.0 / speed / 50.0)
  }

  predicate AllPlayable(ms: seq<ChatMessage>) {
    forall j :: 0 <= j < |ms| ==> Playable(ms[j])
  }

  /** `reset`: clears the screen and raises the cancel flag; the typing sender stays. */
  function Reset(st: St): St {
    St(st.frame.(visible := [], isPlaying := false, isTyping := false, typed := [], progress := 0.0),
       true, st.trace)
  }

  /** `await new Promise((r) => setTimeout(r, ms))`, with `reset` run meanwhile when the oracle says so. */
  function Sleep(st: St, ms: real, resets: set<nat>): St {
    var waited := st.(trace := st.trace + [Step(st.frame, ms)]);
    if |st.trace| in resets then Reset(waited) else waited
  }

  /** `setVisibleMessages((prev) => [...prev, msg])`. */
  function Append(st: St, m: ChatMessage): St {
    st.(frame := st.frame.(visible := st.frame.visible + [m]))
  }

  /** The visible messages with the last one's `audioPlayProgress` set. */
  function SetLastProgress(v: seq<ChatMessage>, p: real): (r: seq<ChatMessage>)
    ensures |r| == |v|
  {
    if v == [] then v else v[..|v| - 1] + [v[|v| - 1].(audioPlayProgress := Some(p))]
  }

  /** One pass of the typing loop: show the first `c` characters, then wait `45 / speed`. */
  function TypeOnce(st: St, text: string, c: nat, speed: real, resets: set<nat>): St
    requires text != [] && speed > 0.0 && c <= |text|
  {
    Sleep(st.(frame := st.frame.(typed := text[..c], progress := c as real / |text| as real)), 45.0 / speed, resets)
  }

  /** The typing loop from character count `c` on; it stops early once the cancel flag is up. */
  function TypeLoop(st: St, text: string, c: nat, speed: real, resets: set<nat>): St
    requires text != [] && speed > 0.0 && c <= |text| + 1
    decreases |text| + 1 - c
  {
    if c > |text| || st.cancelled then st
    else TypeLoop(TypeOnce(st, text, c, speed, resets), text, c + 1, speed, resets)
  }

  /** One pass of the audio loop: set the last bubble's progress to `min(s / steps, 1)`, then wait 50 ms. */
  function TickOnce(st: St, steps: nat, s: nat, resets: set<nat>): St
    requires steps >= 1
  {
    var p := Min(s as real / steps as real, 1.0);
    Sleep(st.(frame := st.frame.(visible := SetLastProgress(st.frame.visible, p))), 50.0, resets)
  }

  /** The audio loop from tick `s` on; it stops early once the cancel flag is up. */
  function TickLoop(st: St, steps: nat, s: nat, resets: set<nat>): St
    requires steps >= 1 && s <= steps + 1
    decreases steps + 1 - s
  {
    if s > steps || st.cancelled then st
    else TickLoop(TickOnce(st, steps, s, resets), steps, s + 1, resets)
  }

  /** An image message: wait `400 / speed`, then show it. */
  function ImageStep(st: St, m: ChatMessage, speed: real, resets: set<nat>): St
    requires speed > 0.0
  {
    Append(Sleep(st, 400.0 / speed, resets), m)
  }

  /** An audio message: show it at progress 0, wait `300 / speed`, then run the ticks. */
  function AudioStep(st: St, m: ChatMessage, speed: real, resets: set<nat>): St
    requires speed > 0.0 && m.audio.Some? && m.audio.value.durationSec > 0.0
  {
    var shown := Append(st, m.(audioPlayProgress := Some(0.0)));
    TickLoop(Sleep(shown, 300.0 / speed, resets), Steps(m.audio.value.durationSec, speed), 0, resets)
  }

  /** The frame when a text message starts: the sender is typing, nothing typed yet. */
  function StartTyping(st: St, m: ChatMessage): St {
    st.(frame := st.frame.(typingSender := m.sender, isTyping := true, typed := [], progress := 0.0))
  }

  /** The typed message is sent: typing stops and the message shows. */
  function Send(st: St, m: ChatMessage): St {
    Append(st.(frame := st.frame.(isTyping := false, typed := [])), m)
  }

  /**
   * A text message: type it, stop the whole run if it was cancelled
   * meanwhile (the second result says so), else wait `200 / speed` and
   * send it.
   */
  function TextStep(st: St, m: ChatMessage, speed: real, resets: set<nat>): (St, bool)
    requires speed > 0.0 && m.text != []
  {
    var typed := TypeLoop(StartTyping(st, m), m.text, 0, speed, resets);
    if typed.cancelled then (typed, true)
    else (Send(Sleep(typed, 200.0 / speed, resets), m), false)
  }

  /** One pass of the `for` loop's body before the pause: the state after it, and whether it breaks the loop. */
  function MessageStep(st: St, m: ChatMessage, speed: real, resets: set<nat>): (St, bool)
    requires speed > 0.0 && Playable(m)
  {
    if HasImage(m) then (ImageStep(st, m, speed, resets), false)
    else if HasAudio(m) then (AudioStep(st, m, speed, resets), false)
    else TextStep(st, m, speed, resets)
  }

  /** The pause of `600 / speed` between messages, skipped after the last one. */
  function Between(st: St, i: nat, n: nat, speed: real, resets: set<nat>): St
    requires speed > 0.0
  {
    if i + 1 < n then Sleep(st, 600.0 / speed, resets) else st
  }

  /**
   * One pass of the `for` loop's body for message `i`: the message, then
   * the pause unless the run breaks (the second result says so).
   */
  function Round(st: St, ms: seq<ChatMessage>, i: nat, speed: real, resets: set<nat>): (St, bool)
    requires i < |ms| && speed > 0.0 && Playable(ms[i])
  {
    var r := MessageStep(st, ms[i], speed, resets);
    if r.1 then r else (Between(r.0, i, |ms|, speed, resets), false)
  }

  /** The `for` loop from message `i` on; it stops early once the cancel flag is up. */
  function PlayFrom(st: St, ms: seq<ChatMessage>, i: nat, speed: real, resets: set<nat>): St
    requires i <= |ms| && speed > 0.0 && AllPlayable(ms)
    decreases |ms| - i
  {
    if i == |ms| || st.cancelled then st
    else
      var r := Round(st, ms, i, speed, resets);
      if r.1 then r.0 else PlayFrom(r.0, ms, i + 1, speed, resets)
  }

  /** The state a run starts from: not cancelled, playing, nothing shown, nothing recorded. */
  function Begin(f: Frame): St {
    St(f.(isPlaying := true, visible := []), false, [])
  }

  /** The state after the `for` loop ends: neither playing nor typing. */
  function Finish(st: St): St {
    st.(frame := st.frame.(isPlaying := false, isTyping := false))
  }

  /** `play(messages, speed)` from the frame `f`. */
  function PlaySim(f: Frame, ms: seq<ChatMessage>, speed: real, resets: set<nat>): St
    requires speed > 0.0 && AllPlayable(ms)
  {
    Finish(PlayFrom(Begin(f), ms, 0, speed, resets))
  }

  /** The time the recorded awaits take, in milliseconds. */
  function Duration(trace: seq<Step>): real {
    if trace == [] then 0.0 else Duration(trace[..|trace| - 1]) + trace[|trace| - 1].ms
  }
}
