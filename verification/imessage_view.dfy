/**
 * The iMessage skin (src/components/IMessageSimulator.tsx): for every
 * bubble its side, top margin, colour, tail and content; under the list
 * the "Read" receipt and the typing dots; at the bottom the composer and
 * the keyboard switch; in the header the avatar. Class strings and SVGs are
 * tags, the clock shown in the header and the receipt is left out.
 */
module IMessageView {
  import opened ChatTypes
  import opened ChatView
  import Strings

  /** `imsg-tail-me`, `imsg-tail-them` or `imsg-no-tail`. */
  datatype Tail = NoTail | TailMe | TailThem

  /** `imsg-me` (blue) or `imsg-them` (grey). */
  datatype Style = StyleMe | StyleThem

  /** The image when `msg.image` is truthy, the text otherwise. */
  datatype Content = ImageContent(url: string) | TextContent(text: string)

  datatype Bubble = Bubble(side: Side, margin: Margin, style: Style, tail: Tail, content: Content)

  /** The text field: the typed text with a caret, or the grey placeholder. */
  datatype Field = Draft(text: string) | Placeholder(hint: string)

  /** The round button right of the field. */
  datatype Button = SendButton | MicButton

  datatype Composer = Composer(field: Field, button: Button, keyboardActive: bool)

  /** The header's round picture: the contact's photo, or the initial (possibly empty). */
  datatype Avatar = Photo(url: string) | Initial(letter: string)

  /** The gap above a bubble whose sender differs from the one before. */
  const GroupGap: nat := 10

  /** `isLastInGroup`: no next message, or the next one has another sender. */
  predicate LastInGroup(ms: seq<ChatMessage>, i: nat)
    requires i < |ms|
  {
    !SameAsNext(ms, i)
  }

  /** The bubble for `messages[i]` (lines 100-126). */
  function BubbleAt(ms: seq<ChatMessage>, i: nat): Bubble
    requires i < |ms|
  {
    var m := ms[i];
    var isMe := m.sender == Me;
    var tail := if LastInGroup(ms, i) then (if isMe then TailMe else TailThem) else NoTail;
    var content := if HasImage(m) then ImageContent(m.image.value) else TextContent(m.text);
    Bubble(SideOf(m.sender), MarginOf(ms, i, GroupGap), if isMe then StyleMe else StyleThem, tail, content)
  }

  /**
   * Bubble `i` has a tail exactly when it ends its group, and the tail is
   * on the sender's side.
   */
  lemma TailRule(ms: seq<ChatMessage>, i: nat)
    requires i < |ms|
    ensures BubbleAt(ms, i).tail != NoTail <==> i == |ms| - 1 || ms[i + 1].sender != ms[i].sender
    ensures BubbleAt(ms, i).tail == TailMe <==> BubbleAt(ms, i).tail != NoTail && ms[i].sender == Me
  {
  }

  /** No margin on the first bubble, 2px after the same sender, 10px after the other one. */
  lemma SpacingRule(ms: seq<ChatMessage>, i: nat)
    requires i < |ms|
    ensures BubbleAt(ms, i).margin == NoMargin <==> i == 0
    ensures BubbleAt(ms, i).margin == Margin(2) <==> 0 < i && ms[i - 1].sender == ms[i].sender
    ensures BubbleAt(ms, i).margin == Margin(10) <==> 0 < i && ms[i - 1].sender != ms[i].sender
  {
  }

  /** Side and colour follow the sender alone; an image replaces the text. */
  lemma SenderAndContent(ms: seq<ChatMessage>, i: nat)
    requires i < |ms|
    ensures BubbleAt(ms, i).side == End <==> ms[i].sender == Me
    ensures BubbleAt(ms, i).style == StyleMe <==> ms[i].sender == Me
    ensures BubbleAt(ms, i).content.ImageContent? <==> HasImage(ms[i])
    ensures !HasImage(ms[i]) ==> BubbleAt(ms, i).content == TextContent(ms[i].text)
  {
  }

  /**
   * Between two neighbours, the first lacks a tail exactly when the second
   * sits tight (2px) under it: a group is closed by a tail and the next
   * group opens with the wide gap.
   */
  lemma TailBeforeGap(ms: seq<ChatMessage>, i: nat)
    requires i + 1 < |ms|
    ensures BubbleAt(ms, i).tail == NoTail <==> BubbleAt(ms, i + 1).margin == Margin(2)
    ensures BubbleAt(ms, i).tail != NoTail <==> BubbleAt(ms, i + 1).margin == Margin(GroupGap)
  {
  }

  /** The bubbles among the first `n` that have a tail. */
  function Tails(ms: seq<ChatMessage>, n: nat): nat
    requires n <= |ms|
  {
    if n == 0 then 0 else Tails(ms, n - 1) + (if BubbleAt(ms, n - 1).tail != NoTail then 1 else 0)
  }

  /** The bubbles among the first `n` that open a new group with the wide gap. */
  function Gaps(ms: seq<ChatMessage>, n: nat): nat
    requires n <= |ms|
  {
    if n == 0 then 0 else Gaps(ms, n - 1) + (if BubbleAt(ms, n - 1).margin == Margin(GroupGap) then 1 else 0)
  }

  lemma {:induction false} TailsBeforeGaps(ms: seq<ChatMessage>, n: nat)
    requires 1 <= n <= |ms|
    ensures Tails(ms, n - 1) == Gaps(ms, n)
  {
    if n > 1 {
      TailsBeforeGaps(ms, n - 1);
      TailBeforeGap(ms, n - 2);
    }
  }

  /** One tail per group: a non-empty list has one tail more than it has wide gaps. */
  lemma OneTailPerGroup(ms: seq<ChatMessage>)
    requires ms != []
    ensures Tails(ms, |ms|) == Gaps(ms, |ms|) + 1
  {
    TailsBeforeGaps(ms, |ms|);
  }

  /** "Read" under the list (line 131): something is shown, the last message is mine, nobody types. */
  predicate ReadReceipt(ms: seq<ChatMessage>, isTyping: bool) {
    |ms| > 0 && ms[|ms| - 1].sender == Me && !isTyping
  }

  /** The receipt hangs under a blue bubble with my tail, on the right. */
  lemma ReceiptUnderMyTail(ms: seq<ChatMessage>, isTyping: bool)
    requires ReadReceipt(ms, isTyping)
    ensures BubbleAt(ms, |ms| - 1).tail == TailMe && BubbleAt(ms, |ms| - 1).side == End
  {
  }

  /** The grey bubble with three dots (line 140). */
  predicate TypingDots(isTyping: bool, typingSender: Sender) {
    ThemTyping(isTyping, typingSender)
  }

  /** The input bar and the keyboard switch (lines 166-198). */
  function ComposerOf(isTyping: bool, typingSender: Sender, typed: string): Composer {
    if MeTyping(isTyping, typingSender) then Composer(Draft(typed), SendButton, true)
    else Composer(Placeholder("iMessage"), MicButton, false)
  }

  /**
   * While I type, the field holds exactly the typed text, the send button
   * shows and the keyboard is live; otherwise the placeholder and the
   * microphone show and the keyboard is off. The receipt, the dots and my
   * draft never show together.
   */
  lemma ComposerRule(isTyping: bool, typingSender: Sender, typed: string, ms: seq<ChatMessage>)
    ensures var c := ComposerOf(isTyping, typingSender, typed);
      && (c.field == Draft(typed) <==> MeTyping(isTyping, typingSender))
      && (c.field.Placeholder? <==> !MeTyping(isTyping, typingSender))
      && (c.field.Placeholder? ==> c.field.hint == "iMessage")
      && (c.button == SendButton <==> c.field.Draft?)
      && (c.keyboardActive <==> c.field.Draft?)
      && !(TypingDots(isTyping, typingSender) && c.field.Draft?)
      && !(ReadReceipt(ms, isTyping) && (TypingDots(isTyping, typingSender) || c.field.Draft?))
  {
  }

  /** `contactAvatar ? <img> : contactName[0]?.toUpperCase()` (lines 75-79). */
  function AvatarOf(contactAvatar: Option<string>, contactName: string): Avatar {
    if contactAvatar.Some? && contactAvatar.value != [] then Photo(contactAvatar.value)
    else if contactName == [] then Initial([])
    else Initial([Strings.Upper(contactName[0])])
  }

  /**
   * Without a photo the avatar holds the contact name's first character,
   * upper-cased, and nothing for an empty name; a lower-case letter becomes
   * its capital.
   */
  lemma AvatarRule(contactAvatar: Option<string>, contactName: string)
    ensures var a := AvatarOf(contactAvatar, contactName);
      && (a.Photo? <==> contactAvatar.Some? && contactAvatar.value != [])
      && (a.Initial? ==> |a.letter| == (if contactName == [] then 0 else 1))
      && (a.Initial? && contactName != [] ==>
            a.letter[0] == Strings.Upper(contactName[0]) && Strings.Lower(a.letter[0]) == Strings.Lower(contactName[0]))
      && (a.Initial? && contactName != [] && 'a' <= contactName[0] <= 'z' ==> 'A' <= a.letter[0] <= 'Z')
  {
  }
}
