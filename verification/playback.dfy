/**
 * `useChatPlayback` (src/hooks/useChatPlayback.ts:78-178) as an object: its
 * `useState` values and the `cancelRef` flag are fields, `reset` and `play`
 * are methods that update them in place. Time is a virtual clock that each
 * `await` of a timer advances, and `trace` records what was on screen
 * during each await, so that `Play` can be proved to do exactly what
 * `PlaybackModel.PlaySim` describes.
 */
module Playback {
  import opened ChatTypes
  import M = PlaybackModel

  class ChatPlayback {
    var visibleMessages: seq<ChatMessage>
    var isPlaying: bool
    var isTyping: bool
    var currentTypingText: string
    var typingSender: Sender
    var typingProgress: real
    /** `cancelRef.current` */
    var cancelled: bool
    /** Milliseconds of virtual time. */
    var clock: real
    /** The awaits of the current run, in order. */
    var trace: seq<M.Step>

    function View(): M.Frame
      reads this
    {
      M.Frame(visibleMessages, isPlaying, isTyping, currentTypingText, typingSender, typingProgress)
    }

    function State(): M.St
      reads this
    {
      M.St(View(), cancelled, trace)
    }

    /** The hook's initial state. */
    constructor()
      ensures View() == M.InitialFrame && !cancelled && trace == [] && clock == 0.0
    {
      visibleMessages := [];
      isPlaying := false;
      isTyping := false;
      currentTypingText := [];
      typingSender := Me;
      typingProgress := 0.0;
      cancelled := false;
      clock := 0.0;
      trace := [];
    }

    /** `reset`: clears the screen and asks a running `play` to stop. */
    method Reset()
      modifies this
      ensures State() == M.Reset(old(State())) && clock == old(clock)
    {
      visibleMessages := [];
      isPlaying := false;
      isTyping := false;
      currentTypingText := [];
      typingProgress := 0.0;
      cancelled := true;
    }

    /**
     * `await new Promise((r) => setTimeout(r, ms))`: the clock moves on by
     * `ms`, and `reset` runs meanwhile when this await's number is in
     * `resets`.
     */
    method Await(ms: real, resets: set<nat>)
      modifies this
      ensures State() == M.Sleep(old(State()), ms, resets) && clock == old(clock) + ms
      ensures clock - M.Duration(trace) == old(clock - M.Duration(trace))
    {
      var due := |trace| in resets;
      trace := trace + [M.Step(View(), ms)];
      assert trace[..|trace| - 1] == old(trace);
      clock := clock + ms;
      if due {
        Reset();
      }
    }

    /** The image branch of `play`'s loop: wait `400 / speed`, then show the image. */
    method ShowImage(msg: ChatMessage, speed: real, resets: set<nat>)
      requires speed > 0.0
      modifies this
      ensures State() == M.ImageStep(old(State()), msg, speed, resets)
      ensures clock - M.Duration(trace) == old(clock - M.Duration(trace))
    {
      Await(400.0 / speed, resets);
      visibleMessages := visibleMessages + [msg];
    }

    /**
     * The audio branch: show the bubble at progress 0, wait `300 / speed`,
     * then run the ticks.
     */
    method PlayAudio(msg: ChatMessage, speed: real, resets: set<nat>)
      requires speed > 0.0 && msg.audio.Some? && msg.audio.value.durationSec > 0.0
      modifies this
      ensures State() == M.AudioStep(old(State()), msg, speed, resets)
      ensures clock - M.Duration(trace) == old(clock - M.Duration(trace))
    {
      visibleMessages := visibleMessages + [msg.(audioPlayProgress := Some(0.0))];
      Await(300.0 / speed, resets);
      Tick(M.Steps(msg.audio.value.durationSec, speed), resets);
    }

    /** The audio ticks: set the last bubble's progress to `min(s / steps, 1)` and wait 50 ms, for s = 0, ..., steps. */
    method Tick(steps: nat, resets: set<nat>)
      requires steps >= 1
      modifies this
      ensures State() == M.TickLoop(old(State()), steps, 0, resets)
      ensures clock - M.Duration(trace) == old(clock - M.Duration(trace))
    {
      var s := 0;
      while s <= steps
        invariant s <= steps + 1
        invariant M.TickLoop(State(), steps, s, resets) == M.TickLoop(old(State()), steps, 0, resets)
        invariant clock - M.Duration(trace) == old(clock - M.Duration(trace))
      {
        if cancelled {
          break;
        }
        TickOnce(steps, s, resets);
        s := s + 1;
      }
    }

    /** One tick: move the last bubble's progress, then wait 50 ms. */
    method TickOnce(steps: nat, s: nat, resets: set<nat>)
      requires steps >= 1
      modifies this
      ensures State() == M.TickOnce(old(State()), steps, s, resets)
      ensures clock - M.Duration(trace) == old(clock - M.Duration(trace))
    {
      ghost var before := State();
      var progress := M.Min(s as real / steps as real, 1.0);
      visibleMessages := M.SetLastProgress(visibleMessages, progress);
      assert State() == before.(frame := before.frame.(visible := M.SetLastProgress(before.frame.visible, progress)));
      Await(50.0, resets);
    }

    /**
     * The text branch: show the sender typing, type the text one character
     * per `45 / speed`, and unless `reset` ran meanwhile (then `stop` is
     * true and `play` leaves its loop) wait `200 / speed` and send it.
     */
    method TypeMessage(msg: ChatMessage, speed: real, resets: set<nat>) returns (stop: bool)
      requires speed > 0.0 && msg.text != []
      modifies this
      ensures (State(), stop) == M.TextStep(old(State()), msg, speed, resets)
      ensures clock - M.Duration(trace) == old(clock - M.Duration(trace))
    {
      ghost var before := State();
      typingSender := msg.sender;
      isTyping := true;
      currentTypingText := [];
      typingProgress := 0.0;
      assert State() == M.StartTyping(before, msg);
      Type(msg.text, speed, resets);
      if cancelled {
        return true;
      }
      Send(msg, speed, resets);
      return false;
    }

    /** The typed message goes out: wait `200 / speed`, stop typing and show it. */
    method Send(msg: ChatMessage, speed: real, resets: set<nat>)
      requires speed > 0.0
      modifies this
      ensures State() == M.Send(M.Sleep(old(State()), 200.0 / speed, resets), msg)
      ensures clock - M.Duration(trace) == old(clock - M.Duration(trace))
    {
      Await(200.0 / speed, resets);
      isTyping := false;
      currentTypingText := [];
      visibleMessages := visibleMessages + [msg];
    }

    /** The typing loop: show the first `c` characters for c = 0, ..., |text|, each for `45 / speed`. */
    method Type(text: string, speed: real, resets: set<nat>)
      requires speed > 0.0 && text != []
      modifies this
      ensures State() == M.TypeLoop(old(State()), text, 0, speed, resets)
      ensures clock - M.Duration(trace) == old(clock - M.Duration(trace))
    {
      var c := 0;
      while c <= |text|
        invariant c <= |text| + 1
        invariant M.TypeLoop(State(), text, c, speed, resets) == M.TypeLoop(old(State()), text, 0, speed, resets)
        invariant clock - M.Duration(trace) == old(clock - M.Duration(trace))
      {
        if cancelled {
          break;
        }
        TypeOnce(text, c, speed, resets);
        c := c + 1;
      }
    }

    /** One typed character: show the first `c` characters and their share of the text, then wait `45 / speed`. */
    method TypeOnce(text: string, c: nat, speed: real, resets: set<nat>)
      requires speed > 0.0 && text != [] && c <= |text|
      modifies this
      ensures State() == M.TypeOnce(old(State()), text, c, speed, resets)
      ensures clock - M.Duration(trace) == old(clock - M.Duration(trace))
    {
      ghost var before := State();
      currentTypingText := text[..c];
      typingProgress := c as real / |text| as real;
      assert State() == before.(frame := before.frame.(typed := text[..c], progress := c as real / |text| as real));
      Await(45.0 / speed, resets);
    }

    /** One pass of `play`'s loop body for `messages[i]`: the message, then the pause unless the loop breaks. */
    method PlayMessage(messages: seq<ChatMessage>, i: nat, speed: real, resets: set<nat>) returns (stop: bool)
      requires i < |messages| && speed > 0.0 && Playable(messages[i])
      modifies this
      ensures (State(), stop) == M.Round(old(State()), messages, i, speed, resets)
      ensures clock - M.Duration(trace) == old(clock - M.Duration(trace))
    {
      var msg := messages[i];
      stop := false;
      if HasImage(msg) {
        ShowImage(msg, speed, resets);
      } else if HasAudio(msg) {
        PlayAudio(msg, speed, resets);
      } else {
        stop := TypeMessage(msg, speed, resets);
        if stop {
          return;
        }
      }
      if i < |messages| - 1 {
        Await(600.0 / speed, resets);
      }
    }

    /**
     * `play(messages, speed)`: replays the messages one by one and stops
     * early once `reset` has run. The final state is the one `PlaySim`
     * gives, and the clock has moved on by exactly the recorded awaits.
     */
    method Play(messages: seq<ChatMessage>, speed: real, resets: set<nat>)
      requires speed > 0.0 && M.AllPlayable(messages)
      modifies this
      ensures State() == M.PlaySim(old(View()), messages, speed, resets)
      ensures clock == old(clock) + M.Duration(trace)
    {
      ghost var target := M.PlayFrom(M.Begin(View()), messages, 0, speed, resets);
      cancelled := false;
      isPlaying := true;
      visibleMessages := [];
      trace := [];
      ghost var start := clock;
      var i := 0;
      while i < |messages|
        invariant i <= |messages|
        invariant M.PlayFrom(State(), messages, i, speed, resets) == target
        invariant clock == start + M.Duration(trace)
      {
        if cancelled {
          break;
        }
        assert Playable(messages[i]);
        var stop := PlayMessage(messages, i, speed, resets);
        if stop {
          break;
        }
        i := i + 1;
      }
      isPlaying := false;
      isTyping := false;
    }
  }
}
