/**
 * The playback state as the skins draw it: while a text message is being
 * typed without a reset, every recorded frame shows my draft growing one
 * character at a time in the composer with the matching key lit, or, for
 * the other side's message, the typing dots and the "Digitando..." status.
 */
module Screen {
  import opened ChatTypes
  import opened PlaybackModel
  import opened PlaybackProps
  import ChatView
  import IMessageView
  import InstagramView
  import ChatKeyboard
  import Strings

  /**
   * Without a reset a text message records one frame per typed prefix,
   * then the send pause.
   */
  lemma TextTrace(st: St, m: ChatMessage, speed: real)
    requires !st.cancelled && speed > 0.0 && m.text != []
    ensures TextStep(st, m, speed, {}).0.trace
      == st.trace + TypingSteps(StartTyping(st, m).frame, m.text, 0, speed)
         + [Step(TypeLoop(StartTyping(st, m), m.text, 0, speed, {}).frame, 200.0 / speed)]
  {
    TypeLoopClean(StartTyping(st, m), m.text, 0, speed);
  }

  /**
   * Frame `j` of the typing of `m` (the first `j` characters typed), as
   * each skin draws it.
   */
  lemma TypingFrame(st: St, m: ChatMessage, speed: real, j: nat)
    requires !st.cancelled && speed > 0.0 && m.text != [] && j <= |m.text|
    ensures var g := TypingSteps(StartTyping(st, m).frame, m.text, 0, speed)[j].frame;
      && g.typed == m.text[..j]
      && (m.sender == Me ==>
            && IMessageView.ComposerOf(g.isTyping, g.typingSender, g.typed)
                 == IMessageView.Composer(IMessageView.Draft(m.text[..j]), IMessageView.SendButton, true)
            && InstagramView.ComposerOf(g.isTyping, g.typingSender, g.typed).field == InstagramView.Draft(m.text[..j])
            && !IMessageView.TypingDots(g.isTyping, g.typingSender)
            && ChatKeyboard.ActiveKeyFor(g.typed, true)
                 == (if j == 0 then None else Some(Strings.Lower(m.text[j - 1]))))
      && (m.sender == Them ==>
            && IMessageView.TypingDots(g.isTyping, g.typingSender)
            && InstagramView.StatusOf(g.isTyping, g.typingSender) == InstagramView.Typing
            && InstagramView.TypingIndicator(g.isTyping, g.typingSender)
            && IMessageView.ComposerOf(g.isTyping, g.typingSender, g.typed).field.Placeholder?
            && !IMessageView.ComposerOf(g.isTyping, g.typingSender, g.typed).keyboardActive)
  {
    var g := TypingSteps(StartTyping(st, m).frame, m.text, 0, speed)[j].frame;
    assert g.typed == m.text[..j];
    assert g.isTyping && g.typingSender == m.sender;
    if j > 0 {
      assert g.typed[|g.typed| - 1] == m.text[j - 1];
    }
  }
}
