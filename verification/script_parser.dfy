/**
 * `parseScript` (src/hooks/useChatPlayback.ts:17-76): turns the script text
 * into the contact name and the ordered messages to replay.
 *
 * The loop over the lines is the method `ParseScript`; the function `Parse`
 * is its specification, and the lemmas below say what `Parse` does: blank
 * scripts, the `Nome:` header, the sender prefixes, the image and audio
 * references, and the round trip from rendered script lines back to
 * messages.
 */
module ScriptParser {
  import opened Strings
  import opened ChatTypes

  const DefaultContact: string := "Contato"

  /** The sender prefixes, each with the sender it selects. */
  const MeTokens: set<string> := {"eu:", "Eu:", "EU:", "1:"}
  const ThemTokens: set<string> := {"ele:", "Ele:", "ELE:", "ela:", "Ela:", "ELA:", "2:"}

  function TokenSender(p: string): Sender {
    if p in MeTokens then Me else Them
  }

  /** The script's non-blank lines: trim the script, split at newlines, drop blank lines. */
  function ScriptLines(script: string): seq<string>
  {
    NonBlank(SplitLines(Trim(script)))
  }

  /** The first line names the contact when it starts with `nome:` in any case. */
  predicate IsHeader(line: string) {
    "nome:" <= LowerString(line)
  }

  /** `line.startsWith(p)` for a two-, three- or four-character token, spelled out. */
  predicate Starts2(line: string, a: char, b: char) {
    |line| >= 2 && line[0] == a && line[1] == b
  }

  predicate Starts3(line: string, a: char, b: char, c: char) {
    |line| >= 3 && line[0] == a && line[1] == b && line[2] == c
  }

  predicate Starts4(line: string, a: char, b: char, c: char, d: char) {
    |line| >= 4 && line[0] == a && line[1] == b && line[2] == c && line[3] == d
  }

  /** The sender a trimmed line selects and the message body left once the prefix is removed. */
  function SplitSender(line: string): (Sender, string) {
    if Starts3(line, 'e', 'u', ':') || Starts3(line, 'E', 'u', ':') || Starts3(line, 'E', 'U', ':') then
      (Me, Trim(line[3..]))
    else if Starts4(line, 'e', 'l', 'e', ':') || Starts4(line, 'E', 'l', 'e', ':') || Starts4(line, 'E', 'L', 'E', ':')
         || Starts4(line, 'e', 'l', 'a', ':') || Starts4(line, 'E', 'l', 'a', ':') || Starts4(line, 'E', 'L', 'A', ':') then
      (Them, Trim(line[4..]))
    else if Starts2(line, '1', ':') then
      (Me, Trim(line[2..]))
    else if Starts2(line, '2', ':') then
      (Them, Trim(line[2..]))
    else
      (Me, line)
  }

  /**
   * The message a body gives, if any: nothing for an empty body; an audio
   * message when the lower-cased body names an audio clip; an image message
   * when it names an image with a non-empty URL and the sender is me; the
   * body as text otherwise.
   */
  function MessageFor(sender: Sender, text: string, id: int,
                      images: map<string, string>, audios: map<string, AudioRef>): Option<ChatMessage>
  {
    var key := LowerString(text);
    if text == [] then None
    else if key in audios then Some(ChatMessage(id, sender, [], None, Some(audios[key]), None))
    else if key in images && images[key] != [] && sender == Me then
      Some(ChatMessage(id, sender, [], Some(images[key]), None, None))
    else Some(ChatMessage(id, sender, text, None, None, None))
  }

  /**
   * What a body turns into: no message exactly when the body is empty;
   * otherwise a message with the given number and sender that carries an
   * audio clip exactly when the lower-cased body names one, an image
   * exactly when no clip matched, the sender is me and the body names an
   * image with a non-empty URL, and the body as text exactly when it is
   * neither.
   */
  lemma MessageForSpec(sender: Sender, text: string, id: int,
                       images: map<string, string>, audios: map<string, AudioRef>)
    ensures var r := MessageFor(sender, text, id, images, audios);
      && (r.None? <==> text == [])
      && (r.Some? ==> r.value.id == id && r.value.sender == sender && r.value.audioPlayProgress.None?)
      && (r.Some? ==> (HasAudio(r.value) <==> LowerString(text) in audios))
      && (r.Some? ==> (HasAudio(r.value) ==> r.value.audio.value == audios[LowerString(text)]))
      && (r.Some? ==> (HasImage(r.value)
            <==> (LowerString(text) !in audios && sender == Me
                  && LowerString(text) in images && images[LowerString(text)] != [])))
      && (r.Some? && HasImage(r.value) ==> r.value.image.value == images[LowerString(text)])
      && (r.Some? && IsTextMessage(r.value) ==> r.value.text == text && r.value.image.None?)
      && (r.Some? && !IsTextMessage(r.value) ==> r.value.text == [])
  {
  }

  /** The message one script line gives, numbered `id`. */
  function LineMessage(raw: string, id: int, images: map<string, string>,
                       audios: map<string, AudioRef>): Option<ChatMessage>
  {
    var line := Trim(raw);
    if line == [] then None
    else
      var split := SplitSender(line);
      MessageFor(split.0, split.1, id, images, audios)
  }

  /**
   * The messages of `lines` in order: each line's message, if it has one,
   * is numbered with the count of the messages before it.
   */
  function Emit(lines: seq<string>, images: map<string, string>,
                audios: map<string, AudioRef>): seq<ChatMessage>
  {
    if lines == [] then []
    else
      var prev := Emit(lines[..|lines| - 1], images, audios);
      match LineMessage(lines[|lines| - 1], |prev|, images, audios)
      case None => prev
      case Some(m) => prev + [m]
  }

  /** The parsed script: the reference `ParseScript` is proved against. */
  function Parse(script: string, images: map<string, string>, audios: map<string, AudioRef>): ParsedScript {
    var lines := ScriptLines(script);
    if lines == [] then ParsedScript(DefaultContact, [])
    else if IsHeader(lines[0]) then ParsedScript(Trim(lines[0][5..]), Emit(lines[1..], images, audios))
    else ParsedScript(DefaultContact, Emit(lines, images, audios))
  }

  /**
   * `parseScript`: reads the non-blank lines and the optional header, then
   * appends one message per remaining line that has a body, numbering them
   * 0, 1, 2, ... in order. An absent `images` or `audios` record is the
   * empty map.
   */
  method ParseScript(script: string, images: map<string, string>, audios: map<string, AudioRef>)
    returns (r: ParsedScript)
    ensures r == Parse(script, images, audios)
    ensures forall j :: 0 <= j < |r.messages| ==> r.messages[j].id == j
  {
    var lines := ScriptLines(script);
    if |lines| == 0 {
      return ParsedScript(DefaultContact, []);
    }
    var contact := DefaultContact;
    var startIdx := 0;
    if IsHeader(lines[0]) {
      contact := Trim(lines[0][5..]);
      startIdx := 1;
    }
    var messages := ParseLines(lines[startIdx..], images, audios);
    EmitIds(lines[startIdx..], images, audios);
    r := ParsedScript(contact, messages);
  }

  /** The `for` loop of `parseScript` over the lines after the header: their messages. */
  method ParseLines(lines: seq<string>, images: map<string, string>, audios: map<string, AudioRef>)
    returns (messages: seq<ChatMessage>)
    ensures messages == Emit(lines, images, audios)
  {
    messages := [];
    var id := 0;
    var i := 0;
    while i < |lines|
      invariant i <= |lines|
      invariant id == |messages|
      invariant messages == Emit(lines[..i], images, audios)
    {
      var m := ParseLine(lines[i], id, images, audios);
      EmitNext(lines, i, m, images, audios);
      if m.Some? {
        messages := messages + [m.value];
        id := id + 1;
      }
      i := i + 1;
    }
    assert lines[..i] == lines;
  }

  /** The messages of one more line: those before it, then its own if it has one. */
  lemma EmitNext(lines: seq<string>, i: nat, m: Option<ChatMessage>,
                 images: map<string, string>, audios: map<string, AudioRef>)
    requires i < |lines|
    requires m == LineMessage(lines[i], |Emit(lines[..i], images, audios)|, images, audios)
    ensures Emit(lines[..i + 1], images, audios)
         == Emit(lines[..i], images, audios) + (if m.Some? then [m.value] else [])
  {
    assert lines[..i + 1][..i] == lines[..i];
  }

  /**
   * The body of the loop for one line: trim it, skip it when blank, split
   * off the sender prefix and build the message the body names.
   */
  method ParseLine(raw: string, id: int, images: map<string, string>, audios: map<string, AudioRef>)
    returns (m: Option<ChatMessage>)
    ensures m == LineMessage(raw, id, images, audios)
  {
    var line := Trim(raw);
    if line == [] {
      return None;
    }
    var split := SplitSender(line);
    var sender, text := split.0, split.1;
    m := MessageFor(sender, text, id, images, audios);
    MessageForSpec(sender, text, id, images, audios);
  }

  /** The messages are numbered 0, 1, 2, ... in order. */
  lemma {:induction false} EmitIds(lines: seq<string>, images: map<string, string>, audios: map<string, AudioRef>)
    ensures forall j :: 0 <= j < |Emit(lines, images, audios)| ==> Emit(lines, images, audios)[j].id == j
  {
    if lines != [] {
      var prefix := lines[..|lines| - 1];
      EmitIds(prefix, images, audios);
      var line := Trim(lines[|lines| - 1]);
      if line != [] {
        var split := SplitSender(line);
        MessageForSpec(split.0, split.1, |Emit(prefix, images, audios)|, images, audios);
      }
    }
  }

  // ---------------------------------------------------------------------
  // What Parse does
  // ---------------------------------------------------------------------

  /** A blank or whitespace-only script names the default contact and has no messages. */
  lemma BlankScript(script: string, images: map<string, string>, audios: map<string, AudioRef>)
    requires AllSpace(script)
    ensures Parse(script, images, audios) == ParsedScript(DefaultContact, [])
  {
    TrimAllSpace(script);
    assert SplitLines([]) == [[]];
    assert Trim([]) == [];
  }

  /** Every message is one line's: there are never more messages than non-blank lines. */
  lemma {:induction false} EmitAtMostOnePerLine(lines: seq<string>, images: map<string, string>,
                                                audios: map<string, AudioRef>)
    ensures |Emit(lines, images, audios)| <= |lines|
  {
    if lines != [] {
      EmitAtMostOnePerLine(lines[..|lines| - 1], images, audios);
    }
  }

  /**
   * Every parsed message can be replayed: a typed message has text, an
   * audio message a positive length as long as every audio clip has one,
   * and no message carries playback progress yet.
   */
  lemma {:induction false} EmitPlayable(lines: seq<string>, images: map<string, string>, audios: map<string, AudioRef>)
    requires forall k :: k in audios ==> audios[k].durationSec > 0.0
    ensures forall j :: 0 <= j < |Emit(lines, images, audios)| ==>
      Playable(Emit(lines, images, audios)[j]) && Emit(lines, images, audios)[j].audioPlayProgress.None?
  {
    if lines != [] {
      var prefix := lines[..|lines| - 1];
      EmitPlayable(prefix, images, audios);
      var line := Trim(lines[|lines| - 1]);
      if line != [] {
        var split := SplitSender(line);
        MessageForSpec(split.0, split.1, |Emit(prefix, images, audios)|, images, audios);
      }
    }
  }

  lemma ParsePlayable(script: string, images: map<string, string>, audios: map<string, AudioRef>)
    requires forall k :: k in audios ==> audios[k].durationSec > 0.0
    ensures forall j :: 0 <= j < |Parse(script, images, audios).messages| ==>
      && Playable(Parse(script, images, audios).messages[j])
      && Parse(script, images, audios).messages[j].audioPlayProgress.None?
  {
    var lines := ScriptLines(script);
    if lines != [] {
      EmitPlayable(lines, images, audios);
      EmitPlayable(lines[1..], images, audios);
    }
  }

  /**
   * The sender prefixes: a line starting with one of the tokens has that
   * token's sender and the trimmed rest as body; a line starting with none
   * of them is a message of mine with the whole line as body.
   */
  lemma SplitSenderMe(p: string, rest: string)
    requires p in MeTokens
    ensures SplitSender(p + rest) == (Me, Trim(rest))
  {
    var line := p + rest;
    assert line[..|p|] == p;
    assert line[|p|..] == rest;
    if p == "1:" {
      assert line[0] == '1';
    } else {
      assert line[0] == p[0] && line[1] == p[1];
    }
  }

  lemma SplitSenderThem(p: string, rest: string)
    requires p in ThemTokens
    ensures SplitSender(p + rest) == (Them, Trim(rest))
  {
    var line := p + rest;
    assert line[..|p|] == p;
    assert line[|p|..] == rest;
    if p == "2:" {
      assert line[0] == '2';
    } else {
      assert line[0] == p[0] && line[1] == p[1] && line[2] == p[2];
    }
  }

  lemma SplitSenderTokens(p: string, rest: string)
    requires p in MeTokens || p in ThemTokens
    ensures SplitSender(p + rest) == (TokenSender(p), Trim(rest))
  {
    if p in MeTokens {
      SplitSenderMe(p, rest);
    } else {
      SplitSenderThem(p, rest);
    }
  }

  lemma SplitSenderUnprefixed(line: string)
    requires forall p :: p in MeTokens || p in ThemTokens ==> !(p <= line)
    ensures SplitSender(line) == (Me, line)
  {
    assert "eu:" in MeTokens && "Eu:" in MeTokens && "EU:" in MeTokens && "1:" in MeTokens;
    assert "ele:" in ThemTokens && "Ele:" in ThemTokens && "ELE:" in ThemTokens && "2:" in ThemTokens;
    assert "ela:" in ThemTokens && "Ela:" in ThemTokens && "ELA:" in ThemTokens;
  }

  // ---------------------------------------------------------------------
  // Round trip: rendering entries as script lines and parsing them back
  // ---------------------------------------------------------------------

  /** One line of a script as an author writes it: a sender token, a space, the body. */
  datatype Entry = Entry(token: string, text: string)

  function RenderEntry(e: Entry): string {
    e.token + " " + e.text
  }

  function RenderEntries(entries: seq<Entry>): (r: seq<string>)
    ensures |r| == |entries| && forall j :: 0 <= j < |entries| ==> r[j] == RenderEntry(entries[j])
  {
    seq(|entries|, j requires 0 <= j < |entries| => RenderEntry(entries[j]))
  }

  /** The lines of a script: an optional `Nome: ` header line, then one line per entry. */
  function RenderLines(contact: Option<string>, entries: seq<Entry>): seq<string> {
    (if contact.Some? then ["Nome: " + contact.value] else []) + RenderEntries(entries)
  }

  /** The script text: its lines joined with newlines. */
  function Render(contact: Option<string>, entries: seq<Entry>): string {
    var lines := RenderLines(contact, entries);
    if lines == [] then [] else JoinLines(lines)
  }

  /** The text message an entry stands for, numbered `id`. */
  function EntryMessage(e: Entry, id: int): ChatMessage {
    ChatMessage(id, TokenSender(e.token), e.text, None, None, None)
  }

  /** The messages the entries stand for, numbered from 0. */
  function Expected(entries: seq<Entry>): (r: seq<ChatMessage>)
    ensures |r| == |entries| && forall j :: 0 <= j < |entries| ==> r[j] == EntryMessage(entries[j], j)
  {
    seq(|entries|, j requires 0 <= j < |entries| => EntryMessage(entries[j], j))
  }

  /** An entry that is plain text: a known token, and a one-line, trimmed, non-empty body naming no clip. */
  predicate PlainEntry(e: Entry, images: map<string, string>, audios: map<string, AudioRef>) {
    && (e.token in MeTokens || e.token in ThemTokens)
    && e.text != [] && Trimmed(e.text) && NoNewline(e.text)
    && LowerString(e.text) !in audios
    && !(TokenSender(e.token) == Me && LowerString(e.text) in images && images[LowerString(e.text)] != [])
  }

  lemma TokenShape(p: string)
    requires p in MeTokens || p in ThemTokens
    ensures |p| >= 2 && !IsSpace(p[0]) && NoNewline(p) && Lower(p[0]) != 'n'
  {
  }

  /** A rendered entry is a trimmed, non-blank line. */
  lemma RenderEntryTrimmed(e: Entry)
    requires e.token in MeTokens || e.token in ThemTokens
    requires e.text != [] && Trimmed(e.text)
    ensures var l := RenderEntry(e); l != [] && Trimmed(l)
  {
    TokenShape(e.token);
    var l := RenderEntry(e);
    assert l[|l| - 1] == e.text[|e.text| - 1];
    assert l[0] == e.token[0];
  }

  /** A rendered entry is a single, trimmed, non-blank line that is not a header. */
  lemma RenderEntryShape(e: Entry, images: map<string, string>, audios: map<string, AudioRef>)
    requires PlainEntry(e, images, audios)
    ensures var l := RenderEntry(e); l != [] && Trimmed(l) && NoNewline(l) && !IsHeader(l)
  {
    TokenShape(e.token);
    RenderEntryTrimmed(e);
    var l := RenderEntry(e);
    assert l[0] == e.token[0];
    assert !IsHeader(l) by {
      assert LowerString(l)[0] == Lower(l[0]) != 'n';
      assert "nome:"[0] == 'n';
    }
    assert NoNewline(l) by {
      forall k | 0 <= k < |l| ensures l[k] != '\n' {
        if k < |e.token| {
          assert l[k] == e.token[k];
        } else if k > |e.token| {
          assert l[k] == e.text[k - |e.token| - 1];
        }
      }
    }
  }

  /** A line that is already trimmed and not blank is split as it stands. */
  lemma LineMessageOfTrimmed(l: string, id: int, images: map<string, string>, audios: map<string, AudioRef>)
    requires l != [] && Trimmed(l)
    ensures LineMessage(l, id, images, audios)
         == MessageFor(SplitSender(l).0, SplitSender(l).1, id, images, audios)
  {
    TrimOfTrimmed(l);
  }

  /** A plain, non-empty body naming no clip becomes a text message. */
  lemma PlainMessage(sender: Sender, text: string, id: int, images: map<string, string>, audios: map<string, AudioRef>)
    requires text != [] && LowerString(text) !in audios
    requires !(sender == Me && LowerString(text) in images && images[LowerString(text)] != [])
    ensures MessageFor(sender, text, id, images, audios) == Some(ChatMessage(id, sender, text, None, None, None))
  {
  }

  /** A rendered entry splits into its token's sender and its body. */
  lemma RenderedSplit(e: Entry)
    requires e.token in MeTokens || e.token in ThemTokens
    requires e.text != [] && Trimmed(e.text)
    ensures Trim(RenderEntry(e)) == RenderEntry(e) != []
    ensures SplitSender(RenderEntry(e)) == (TokenSender(e.token), e.text)
  {
    var l := RenderEntry(e);
    RenderEntryTrimmed(e);
    TrimOfTrimmed(l);
    assert l == e.token + (" " + e.text);
    SplitSenderTokens(e.token, " " + e.text);
    TrimSpacesThen(" ", e.text);
  }

  /** A rendered entry parses back to its own message. */
  lemma RenderedLineMessage(e: Entry, id: int, images: map<string, string>, audios: map<string, AudioRef>)
    requires PlainEntry(e, images, audios)
    ensures LineMessage(RenderEntry(e), id, images, audios) == Some(EntryMessage(e, id))
  {
    RenderedSplit(e);
    PlainMessage(TokenSender(e.token), e.text, id, images, audios);
  }

  /** A last line that gives a message adds it after the messages of the lines before. */
  lemma EmitLast(lines: seq<string>, m: ChatMessage, images: map<string, string>, audios: map<string, AudioRef>)
    requires lines != []
    requires LineMessage(lines[|lines| - 1], |Emit(lines[..|lines| - 1], images, audios)|, images, audios) == Some(m)
    ensures Emit(lines, images, audios) == Emit(lines[..|lines| - 1], images, audios) + [m]
  {
  }

  /** Dropping the last entry drops the last line and the last expected message. */
  lemma RenderInit(entries: seq<Entry>)
    requires entries != []
    ensures var n := |entries| - 1;
      && RenderEntries(entries)[..n] == RenderEntries(entries[..n])
      && RenderEntries(entries)[n] == RenderEntry(entries[n])
      && Expected(entries) == Expected(entries[..n]) + [EntryMessage(entries[n], n)]
  {
    var n := |entries| - 1;
    assert RenderEntries(entries)[..n] == RenderEntries(entries[..n]);
    assert Expected(entries) == Expected(entries[..n]) + [EntryMessage(entries[n], n)];
  }

  lemma {:induction false} EmitRendered(entries: seq<Entry>, images: map<string, string>, audios: map<string, AudioRef>)
    requires forall j :: 0 <= j < |entries| ==> PlainEntry(entries[j], images, audios)
    ensures Emit(RenderEntries(entries), images, audios) == Expected(entries)
  {
    if entries != [] {
      var n := |entries| - 1;
      var lines := RenderEntries(entries);
      RenderInit(entries);
      EmitRendered(entries[..n], images, audios);
      assert PlainEntry(entries[n], images, audios);
      RenderedLineMessage(entries[n], n, images, audios);
      EmitLast(lines, EntryMessage(entries[n], n), images, audios);
    }
  }

  lemma {:induction false} JoinLinesEnds(lines: seq<string>)
    requires |lines| >= 1 && forall j :: 0 <= j < |lines| ==> lines[j] != []
    ensures var s := JoinLines(lines); s != [] && s[0] == lines[0][0] && s[|s| - 1] == lines[|lines| - 1][|lines[|lines| - 1]| - 1]
  {
    if |lines| > 1 {
      JoinLinesEnds(lines[1..]);
    }
  }

  /** The header line is a single trimmed line that parses as a header naming `contact`. */
  lemma HeaderShape(contact: string)
    requires contact != [] && Trimmed(contact) && NoNewline(contact)
    ensures var h := "Nome: " + contact;
      Trimmed(h) && NoNewline(h) && IsHeader(h) && Trim(h[5..]) == contact
  {
    var h := "Nome: " + contact;
    assert h[|h| - 1] == contact[|contact| - 1];
    assert NoNewline(h) by {
      forall k | 0 <= k < |h| ensures h[k] != '\n' {
        if k >= 6 { assert h[k] == contact[k - 6]; }
      }
    }
    assert h[5..] == " " + contact;
    TrimSpacesThen(" ", contact);
    LowerStringAppend("Nome:", " " + contact);
    assert h == "Nome:" + (" " + contact);
    assert LowerString("Nome:") == "nome:";
  }

  /** A line is a header exactly when its first five characters spell `nome:` in some mix of cases. */
  lemma HeaderAnyCase(line: string)
    ensures IsHeader(line) <==> |line| >= 5 && LowerString(line[..5]) == "nome:"
  {
    if |line| >= 5 {
      assert line == line[..5] + line[5..];
      LowerStringAppend(line[..5], line[5..]);
    }
  }

  /** The script lines of a rendered script are exactly the rendered lines. */
  lemma ScriptLinesOfJoin(lines: seq<string>)
    requires |lines| >= 1
    requires forall j :: 0 <= j < |lines| ==> lines[j] != [] && Trimmed(lines[j]) && NoNewline(lines[j])
    ensures ScriptLines(JoinLines(lines)) == lines
  {
    var s := JoinLines(lines);
    JoinLinesEnds(lines);
    assert Trimmed(s);
    TrimOfTrimmed(s);
    SplitJoin(lines);
    forall j | 0 <= j < |lines| ensures Trim(lines[j]) != [] {
      TrimOfTrimmed(lines[j]);
    }
    NonBlankKeepsAll(lines);
  }

  /** Every rendered line is a single, trimmed, non-blank line, and only the first can be a header. */
  lemma RenderLinesShape(contact: Option<string>, entries: seq<Entry>,
                         images: map<string, string>, audios: map<string, AudioRef>)
    requires contact.Some? ==> contact.value != [] && Trimmed(contact.value) && NoNewline(contact.value)
    requires forall j :: 0 <= j < |entries| ==> PlainEntry(entries[j], images, audios)
    ensures var lines := RenderLines(contact, entries);
      forall j :: 0 <= j < |lines| ==> lines[j] != [] && Trimmed(lines[j]) && NoNewline(lines[j])
  {
    var lines := RenderLines(contact, entries);
    var h := if contact.Some? then 1 else 0;
    forall j | 0 <= j < |lines|
      ensures lines[j] != [] && Trimmed(lines[j]) && NoNewline(lines[j])
    {
      if j < h {
        HeaderShape(contact.value);
      } else {
        assert lines[j] == RenderEntry(entries[j - h]);
        RenderEntryShape(entries[j - h], images, audios);
      }
    }
  }

  /** The script lines of a rendered script are the rendered lines. */
  lemma ScriptLinesOfRender(contact: Option<string>, entries: seq<Entry>,
                            images: map<string, string>, audios: map<string, AudioRef>)
    requires contact.Some? ==> contact.value != [] && Trimmed(contact.value) && NoNewline(contact.value)
    requires forall j :: 0 <= j < |entries| ==> PlainEntry(entries[j], images, audios)
    ensures ScriptLines(Render(contact, entries)) == RenderLines(contact, entries)
  {
    var lines := RenderLines(contact, entries);
    if lines == [] {
      assert SplitLines(Trim([])) == [[]];
    } else {
      RenderLinesShape(contact, entries, images, audios);
      ScriptLinesOfJoin(lines);
    }
  }

  /**
   * Parsing a rendered script gives back the contact (or the default) and
   * exactly the entries' messages, in order, numbered from 0.
   */
  lemma ParseRender(contact: Option<string>, entries: seq<Entry>,
                    images: map<string, string>, audios: map<string, AudioRef>)
    requires contact.Some? ==> contact.value != [] && Trimmed(contact.value) && NoNewline(contact.value)
    requires forall j :: 0 <= j < |entries| ==> PlainEntry(entries[j], images, audios)
    ensures Parse(Render(contact, entries), images, audios)
         == ParsedScript(if contact.Some? then contact.value else DefaultContact, Expected(entries))
  {
    var body := RenderEntries(entries);
    var lines := RenderLines(contact, entries);
    ScriptLinesOfRender(contact, entries, images, audios);
    EmitRendered(entries, images, audios);
    if contact.Some? {
      HeaderShape(contact.value);
      assert lines[1..] == body;
    } else if entries != [] {
      assert lines == body;
      RenderEntryShape(entries[0], images, audios);
    }
  }
}
