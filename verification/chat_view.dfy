/**
 * What the chat skins compute from their props before rendering: how a
 * bubble relates to its neighbours in `messages.map((msg, idx) => ...)`
 * (src/components/IMessageSimulator.tsx:100-106,
 * src/components/InstagramSimulator.tsx:65-71) and which of the two typing
 * displays the props select. Class strings become tags.
 */
module ChatView {
  import opened ChatTypes

  /** `justify-start` or `justify-end`. */
  datatype Side = Start | End

  /** The top margin class: none, or `mt-[px]`. */
  datatype Margin = NoMargin | Margin(px: nat)

  /** `isMe ? "justify-end" : "justify-start"`. */
  function SideOf(s: Sender): (r: Side)
    ensures r == End <==> s == Me
  {
    if s == Me then End else Start
  }

  /** `prevMsg && prevMsg.sender === msg.sender`, `messages[idx - 1]` being undefined at index 0. */
  predicate SameAsPrev(ms: seq<ChatMessage>, i: nat)
    requires i < |ms|
  {
    0 < i && ms[i - 1].sender == ms[i].sender
  }

  /** `nextMsg && nextMsg.sender === msg.sender`, `messages[idx + 1]` being undefined at the end. */
  predicate SameAsNext(ms: seq<ChatMessage>, i: nat)
    requires i < |ms|
  {
    i + 1 < |ms| && ms[i + 1].sender == ms[i].sender
  }

  /**
   * `idx === 0 ? "" : sameSenderAsPrev ? "mt-[2px]" : gap`: the margin of
   * bubble `i`, with the skin's gap between two senders.
   */
  function MarginOf(ms: seq<ChatMessage>, i: nat, gap: nat): Margin
    requires i < |ms|
  {
    if i == 0 then NoMargin else if SameAsPrev(ms, i) then Margin(2) else Margin(gap)
  }

  /** Grouping is symmetric: bubble `i` joins the next one exactly when the next one joins it. */
  lemma NextIsPrev(ms: seq<ChatMessage>, i: nat)
    requires i + 1 < |ms|
    ensures SameAsNext(ms, i) <==> SameAsPrev(ms, i + 1)
  {
  }

  /** `isTyping && typingSender === "them"`: the other side is typing. */
  predicate ThemTyping(isTyping: bool, typingSender: Sender) {
    isTyping && typingSender == Them
  }

  /** `isTyping && typingSender === "me"`: the composer holds the typed text. */
  predicate MeTyping(isTyping: bool, typingSender: Sender) {
    isTyping && typingSender == Me
  }

  /** At most one of the two typing displays shows, and both show only while typing. */
  lemma TypingExclusive(isTyping: bool, typingSender: Sender)
    ensures !(ThemTyping(isTyping, typingSender) && MeTyping(isTyping, typingSender))
    ensures ThemTyping(isTyping, typingSender) || MeTyping(isTyping, typingSender) <==> isTyping
  {
  }
}
