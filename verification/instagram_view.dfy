/**
 * The Instagram skin (src/components/InstagramSimulator.tsx): every
 * bubble's side, top margin, colour and corner shape, the header's status
 * line, the typing indicator and the composer. Class strings and icons are
 * tags; the clock in the status bar is left out.
 */
module InstagramView {
  import opened ChatTypes
  import opened ChatView

  /**
   * `radiusClass` (lines 74-87): fully round, or round with the corners on
   * `side` flattened at the top, at the bottom, or both.
   */
  datatype Radius = Round | FlatTop(side: Side) | FlatBottom(side: Side) | FlatBoth(side: Side)

  /** `bg-[#5b5bf6]` (mine) or `bg-[#262626]` (theirs). */
  datatype Colour = Purple | Grey

  /** The image in its own rounded box, or a text bubble with its corner shape and colour. */
  datatype Body = ImageBox(url: string) | TextBubble(radius: Radius, colour: Colour, text: string)

  datatype Row = Row(side: Side, margin: Margin, body: Body)

  /** The header's second line. */
  datatype Status = Typing | ActiveNow

  /** The field: the typed text with a caret, or the placeholder "Mensagem...". */
  datatype Field = Draft(text: string) | Placeholder(hint: string)

  /** The icons right of the field: the send arrow, or the microphone and the gallery. */
  datatype Icons = SendIcon | MicAndImage

  datatype Composer = Composer(field: Field, icons: Icons)

  /** The gap above a bubble whose sender differs from the one before. */
  const GroupGap: nat := 12

  /** The corners of bubble `i` facing its neighbours (lines 74-87). */
  function RadiusAt(ms: seq<ChatMessage>, i: nat): Radius
    requires i < |ms|
  {
    var side := SideOf(ms[i].sender);
    if SameAsPrev(ms, i) && SameAsNext(ms, i) then FlatBoth(side)
    else if SameAsPrev(ms, i) then FlatTop(side)
    else if SameAsNext(ms, i) then FlatBottom(side)
    else Round
  }

  /** The top corner facing the bubble above is flattened. */
  predicate FlatAbove(r: Radius) {
    r.FlatTop? || r.FlatBoth?
  }

  /** The bottom corner facing the bubble below is flattened. */
  predicate FlatBelow(r: Radius) {
    r.FlatBottom? || r.FlatBoth?
  }

  /** The row for `messages[i]` (lines 65-110). */
  function RowAt(ms: seq<ChatMessage>, i: nat): Row
    requires i < |ms|
  {
    var m := ms[i];
    var body :=
      if HasImage(m) then ImageBox(m.image.value)
      else TextBubble(RadiusAt(ms, i), if m.sender == Me then Purple else Grey, m.text);
    Row(SideOf(m.sender), MarginOf(ms, i, GroupGap), body)
  }

  /**
   * The four cases: the top corner is flat exactly when the previous
   * message has the same sender, the bottom one exactly when the next has,
   * and a flattened corner is always on the sender's side.
   */
  lemma RadiusRule(ms: seq<ChatMessage>, i: nat)
    requires i < |ms|
    ensures FlatAbove(RadiusAt(ms, i)) <==> 0 < i && ms[i - 1].sender == ms[i].sender
    ensures FlatBelow(RadiusAt(ms, i)) <==> i + 1 < |ms| && ms[i + 1].sender == ms[i].sender
    ensures RadiusAt(ms, i) == Round <==> !FlatAbove(RadiusAt(ms, i)) && !FlatBelow(RadiusAt(ms, i))
    ensures RadiusAt(ms, i) != Round ==> RadiusAt(ms, i).side == SideOf(ms[i].sender)
  {
  }

  /**
   * Neighbours agree: a bubble is flat at the bottom exactly when the next
   * one is flat at the top, and then the next one sits 2px below it;
   * otherwise it sits 12px below.
   */
  lemma NeighboursAgree(ms: seq<ChatMessage>, i: nat)
    requires i + 1 < |ms|
    ensures FlatBelow(RadiusAt(ms, i)) <==> FlatAbove(RadiusAt(ms, i + 1))
    ensures FlatBelow(RadiusAt(ms, i)) <==> RowAt(ms, i + 1).margin == Margin(2)
    ensures !FlatBelow(RadiusAt(ms, i)) <==> RowAt(ms, i + 1).margin == Margin(GroupGap)
  {
    RadiusRule(ms, i);
    RadiusRule(ms, i + 1);
  }

  /**
   * An image is shown in its own box and never gets the bubble's corner
   * shape; side and colour depend on the sender alone; the first row has
   * no margin.
   */
  lemma RowRule(ms: seq<ChatMessage>, i: nat)
    requires i < |ms|
    ensures RowAt(ms, i).body.ImageBox? <==> HasImage(ms[i])
    ensures !HasImage(ms[i]) ==> RowAt(ms, i).body == TextBubble(RadiusAt(ms, i), RowAt(ms, i).body.colour, ms[i].text)
    ensures RowAt(ms, i).side == End <==> ms[i].sender == Me
    ensures RowAt(ms, i).body.TextBubble? ==> (RowAt(ms, i).body.colour == Purple <==> ms[i].sender == Me)
    ensures RowAt(ms, i).margin == NoMargin <==> i == 0
  {
  }

  /** "Digitando..." or "Ativo(a) agora" (line 54). */
  function StatusOf(isTyping: bool, typingSender: Sender): Status {
    if ThemTyping(isTyping, typingSender) then Typing else ActiveNow
  }

  function StatusText(s: Status): string {
    match s
    case Typing => "Digitando..."
    case ActiveNow => "Ativo(a) agora"
  }

  /** The typing bubble under the list (line 114). */
  predicate TypingIndicator(isTyping: bool, typingSender: Sender) {
    ThemTyping(isTyping, typingSender)
  }

  /** The input bar (lines 132-148). */
  function ComposerOf(isTyping: bool, typingSender: Sender, typed: string): Composer {
    if MeTyping(isTyping, typingSender) then Composer(Draft(typed), SendIcon)
    else Composer(Placeholder("Mensagem..."), MicAndImage)
  }

  /**
   * The header says "Digitando..." exactly when the typing bubble shows;
   * the composer holds the typed text with the send icon exactly while I
   * type, and the two never show at once.
   */
  lemma TypingDisplays(isTyping: bool, typingSender: Sender, typed: string)
    ensures StatusOf(isTyping, typingSender) == Typing <==> TypingIndicator(isTyping, typingSender)
    ensures StatusText(StatusOf(isTyping, typingSender)) == "Digitando..." <==> TypingIndicator(isTyping, typingSender)
    ensures var c := ComposerOf(isTyping, typingSender, typed);
      && (c.field == Draft(typed) <==> MeTyping(isTyping, typingSender))
      && (c.icons == SendIcon <==> c.field.Draft?)
      && (c.field.Placeholder? ==> c.field.hint == "Mensagem...")
      && !(TypingIndicator(isTyping, typingSender) && c.field.Draft?)
  {
  }
}
