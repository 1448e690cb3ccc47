# prank-message-maker: script parsing, playback and chat skins in Dafny

prank-message-maker replays a short chat script as a fake phone
conversation. This project models its core:

- **The script parser.** `parseScript` turns the script into a contact name
  and numbered messages. It handles the optional `Nome:` header, the sender
  prefixes `eu:`/`ele:`/`ela:`/`1:`/`2:`, and the image and audio
  references.
- **The playback hook.** `useChatPlayback` replays the messages over time:
  - an image appears after a pause;
  - an audio bubble appears and its progress ticks from 0 to 1;
  - a text message is typed character by character, then sent;
  - a pause follows each message, and `reset` can interrupt at any point.
- **The iMessage and Instagram skins.** For each bubble they choose a side,
  a margin, a tail or corner shape and the content. They also choose the
  header status, the typing dots, the read receipt, the composer and the
  avatar initial.
- **The voice-memo bubble.** It shows an `m:ss` label, the time left,
  30 bars of which a prefix is drawn as played, and a play/pause glyph.
- **The on-screen keyboard.** It lights the last typed key for 150 ms.

## How the pieces are modelled

**Parser.** The parser's loop is the method `ScriptParser.ParseScript`
(with `ParseLines` and `ParseLine`). It is proved equal to the function
`ScriptParser.Parse`. The lemmas about `Parse` say:
- message ids run 0, 1, 2, …;
- a blank script gives the default contact `Contato`;
- every parsed message can be replayed;
- a rendered script parses back to exactly its contact and messages.

**Playback.** The hook is the class `Playback.ChatPlayback`. Its fields are
the hook's `useState` values and `cancelRef`.
- Each `await` of a timer advances a virtual `clock`, and each await is
  recorded in `trace` together with the frame on screen during it.
- A `reset` can only run while `play` is suspended at an await. So when the
  user resets is a parameter: the set of await numbers during which `reset`
  runs.
- Every method is proved to produce exactly the state that the pure model
  `PlaybackModel` computes.
- The properties are proved about that model:
  - `PlaybackProps` covers the end of a run without a reset;
  - `PlaybackFrames` covers every frame of a run without a reset. Messages
    are only appended, in script order; typing shows a growing prefix of the
    next message; an audio bubble's progress only rises;
  - `PlaybackResets` covers runs with resets. No message starts after a
    reset, and the only message a reset can leave on screen is the one
    whose wait it hit.

**Views.** The skins, the audio bubble and the keyboard's drawing are pure
functions of their props. The keyboard's lit key is component state with a
timer, so it is the class `ChatKeyboard.Keyboard`, again with a virtual
clock. `Screen` ties the two halves together: while a message is typed, each
recorded frame shows the expected draft, typing dots and lit key.

## Where the model follows the code

- The typing loop runs one more time than the text has characters: the
  condition `c <= msg.text.length` is at useChatPlayback.ts:143. So at
  speed 1 a two-character message takes 3·45 + 200 = 335 ms before it
  shows, not 2·45 + 200 = 290 ms. The model follows the code, and
  `TwoCharacterMessage` states the 335 ms.
- Some steps do not check the cancel flag after their pause:
  - the image pause (line 111, then line 112);
  - the send pause (line 152, then line 156).

  A `reset` during one of these pauses therefore still appends that one
  message, and the model keeps this. `PlayReset` states the consequence:
  after a reset, the screen is empty, or it holds just the image or text
  whose wait the first reset fell on.
- `reset` does not clear `typingSender`, and the model keeps that as well.
- The iMessage bubble shows `msg.image` or `msg.text` and has no branch for
  audio (IMessageSimulator.tsx:120-124). An audio message therefore shows
  as its (empty) text; see `IMessageView.SenderAndContent`. The voice-memo
  bubble is modelled as a component in its own right.
- The Instagram header's initial (InstagramSimulator.tsx:48) uses the same
  expression as the iMessage avatar without a photo, which is
  `IMessageView.AvatarOf(None, contactName)`.

## Model

| member | source | states |
|---|---|---|
| Strings.TrimStartSpec | src/hooks/useChatPlayback.ts:22 | `trimStart` drops exactly a leading run of spaces and stops at the first non-space |
| Strings.TrimEndSpec | src/hooks/useChatPlayback.ts:22 | `trimEnd` drops exactly a trailing run of spaces and stops at the last non-space |
| Strings.TrimTrimmed | src/hooks/useChatPlayback.ts:22 | the result of `trim` is empty or starts and ends with a non-space |
| Strings.TrimIsInfix | src/hooks/useChatPlayback.ts:22 | `trim` removes only spaces, only at the two ends, and keeps the middle |
| Strings.TrimOfTrimmed | src/hooks/useChatPlayback.ts:37 | trimming is idempotent: a trimmed string is left alone |
| Strings.TrimAllSpace | src/hooks/useChatPlayback.ts:22 | a whitespace-only string trims to the empty string |
| Strings.TrimSpacesThen | src/hooks/useChatPlayback.ts:45 | leading spaces before a trimmed body are removed, so `substring(n).trim()` gives the body back |
| Strings.LowerStringAppend | src/hooks/useChatPlayback.ts:28 | `toLowerCase` works character by character, so it distributes over concatenation |
| Strings.SplitJoin | src/hooks/useChatPlayback.ts:22 | `split("\n")` undoes joining lines with newlines when no line holds a newline |
| Strings.NonBlankHasNoBlank | src/hooks/useChatPlayback.ts:22 | no line kept by `filter((l) => l.trim())` is blank |
| Strings.NonBlankKeepsAll | src/hooks/useChatPlayback.ts:22 | the filter keeps every line when none is blank |
| ScriptParser.SplitSender | src/hooks/useChatPlayback.ts:40-56 | the sender a line's token selects, and the trimmed rest as the body; its rules are stated by `SplitSenderMe`, `SplitSenderThem`, `SplitSenderTokens` and `SplitSenderUnprefixed` |
| ScriptParser.MessageFor | src/hooks/useChatPlayback.ts:58-72 | the message a body gives; its rules are stated by `MessageForSpec` |
| ScriptParser.LineMessage | src/hooks/useChatPlayback.ts:37-72 | the message one line gives: trimmed, split into sender and body, then `MessageFor` |
| ScriptParser.Emit | src/hooks/useChatPlayback.ts:33-73 | the messages of the lines after the header, numbered in order; stated by `EmitIds`, `EmitAtMostOnePerLine`, `EmitPlayable` and `EmitRendered` |
| ScriptParser.Parse | src/hooks/useChatPlayback.ts:17-76 | the reference parse that `ParseScript` is proved equal to; stated by `BlankScript`, `ParsePlayable` and `ParseRender` |
| ScriptParser.ParseScript | src/hooks/useChatPlayback.ts:17-76 | the parse is exactly `Parse` (header, then one message per line that has a body), with ids 0, 1, 2, … |
| ScriptParser.ParseLines | src/hooks/useChatPlayback.ts:33-73 | the `for` loop yields exactly the messages `Emit` assigns to the lines after the header, in order |
| ScriptParser.ParseLine | src/hooks/useChatPlayback.ts:37-72 | one pass of the loop body yields exactly that line's message or none |
| ScriptParser.MessageForSpec | src/hooks/useChatPlayback.ts:58-72 | no message exactly for an empty body. An audio clip exactly when the lower-cased body names one. An image exactly when no clip matched, the sender is me and the named URL is non-empty. Otherwise the body as text, with the given id and sender |
| ScriptParser.EmitIds | src/hooks/useChatPlayback.ts:34-72 | message `j` carries id `j`: `id++` numbers the messages consecutively from 0 |
| ScriptParser.EmitAtMostOnePerLine | src/hooks/useChatPlayback.ts:36-73 | there are never more messages than lines |
| ScriptParser.BlankScript | src/hooks/useChatPlayback.ts:22-23 | a blank or whitespace-only script gives contact `Contato` and no messages |
| ScriptParser.EmitPlayable | src/hooks/useChatPlayback.ts:58-72 | every message can be replayed: a text message has text, and an audio message has a positive length when every clip does; none carries progress |
| ScriptParser.ParsePlayable | src/hooks/useChatPlayback.ts:17-76 | the same for the whole parse: every parsed message can be replayed and none carries progress |
| ScriptParser.SplitSenderMe | src/hooks/useChatPlayback.ts:43-45 | a line starting with `eu:`, `Eu:`, `EU:` or `1:` is mine, and its body is the trimmed rest |
| ScriptParser.SplitSenderThem | src/hooks/useChatPlayback.ts:46-55 | a line starting with `ele:`/`ela:` in the three casings or with `2:` is theirs, and its body is the trimmed rest |
| ScriptParser.SplitSenderTokens | src/hooks/useChatPlayback.ts:40-56 | any known token selects its own sender and strips itself |
| ScriptParser.SplitSenderUnprefixed | src/hooks/useChatPlayback.ts:40-41 | a line with no known token is mine, and the whole line is the body |
| ScriptParser.HeaderShape | src/hooks/useChatPlayback.ts:28-31 | a `Nome: x` line is a header whose contact is `x` |
| ScriptParser.HeaderAnyCase | src/hooks/useChatPlayback.ts:28 | a line is a header exactly when its first five characters lower-case to `nome:`, in any mix of cases |
| ScriptParser.RenderedLineMessage | src/hooks/useChatPlayback.ts:37-72 | a line `token body` parses to the text message of that token's sender with that body |
| ScriptParser.EmitRendered | src/hooks/useChatPlayback.ts:33-73 | rendered entries parse to their messages, in order, numbered from 0 |
| ScriptParser.ScriptLinesOfRender | src/hooks/useChatPlayback.ts:22 | trimming, splitting and filtering a rendered script gives back its lines |
| ScriptParser.ParseRender | src/hooks/useChatPlayback.ts:17-76 | round trip: parsing a rendered script gives its contact (or `Contato`) and exactly its entries' messages |
| PlaybackModel.Reset | src/hooks/useChatPlayback.ts:87-94 | `reset`: empty screen, not playing or typing, no draft, progress 0, flag up |
| PlaybackModel.Sleep | src/hooks/useChatPlayback.ts:147 | an `await` of a timer records the frame and its delay, and runs `reset` when one falls in it |
| PlaybackModel.SetLastProgress | src/hooks/useChatPlayback.ts:129-134 | the last bubble's `audioPlayProgress` replaced, the rest kept |
| PlaybackModel.TypeOnce | src/hooks/useChatPlayback.ts:145-147 | one pass of the typing loop |
| PlaybackModel.TypeLoop | src/hooks/useChatPlayback.ts:143-148 | the typing loop; stated by `TypeLoopClean`, `TypeLoopOrderly`, `TypeLoopReset` and `TypeLoopUnreset` |
| PlaybackModel.TickOnce | src/hooks/useChatPlayback.ts:128-135 | one pass of the audio loop |
| PlaybackModel.TickLoop | src/hooks/useChatPlayback.ts:126-136 | the audio loop; stated by `TickLoopClean`, `TickLoopOrderly`, `TickLoopReset` and `TickLoopUnreset` |
| PlaybackModel.ImageStep | src/hooks/useChatPlayback.ts:110-112 | the image branch; stated by `ImageClean` and `ImageOrderly` |
| PlaybackModel.AudioStep | src/hooks/useChatPlayback.ts:113-136 | the audio branch; stated by `AudioClean` and `AudioOrderly` |
| PlaybackModel.StartTyping | src/hooks/useChatPlayback.ts:138-141 | typing starts: the sender set, typing on, no draft, progress 0 |
| PlaybackModel.Send | src/hooks/useChatPlayback.ts:154-156 | typing stops, the draft clears and the message is appended |
| PlaybackModel.TextStep | src/hooks/useChatPlayback.ts:137-157 | the text branch with its `break`; stated by `TextClean` and `TextOrderly` |
| PlaybackModel.MessageStep | src/hooks/useChatPlayback.ts:108-157 | the branch on the kind of message; stated by `MessageClean`, `MessageOrderly`, `MessageReset` and `MessageUnreset` |
| PlaybackModel.Between | src/hooks/useChatPlayback.ts:159-161 | the pause after every message but the last |
| PlaybackModel.Round | src/hooks/useChatPlayback.ts:106-161 | one pass of the `for` loop; stated by `RoundOrderly` and `RoundStopped` |
| PlaybackModel.PlayFrom | src/hooks/useChatPlayback.ts:105-162 | the `for` loop with its cancel check; stated by `PlayFromClean`, `PlayFromOrderly`, `PlayFromReset` and `PlayFromUnreset` |
| PlaybackModel.Begin | src/hooks/useChatPlayback.ts:97-99 | a run starts with the flag down, playing, and nothing shown |
| PlaybackModel.Finish | src/hooks/useChatPlayback.ts:164-165 | a run ends neither playing nor typing |
| PlaybackModel.PlaySim | src/hooks/useChatPlayback.ts:96-166 | `play` as a value; stated by `PlayClean`, `PlayFrames`, `OnlyAppends`, `PlayReset` and `PlayUnreset` |
| PlaybackModel.Duration | src/hooks/useChatPlayback.ts:96-166 | the total delay of the recorded awaits |
| PlaybackModel.Ceil | src/hooks/useChatPlayback.ts:124 | `Math.ceil`: the least integer not below `x` |
| PlaybackModel.Steps | src/hooks/useChatPlayback.ts:122-124 | a clip of positive length has at least one tick |
| Playback.ChatPlayback.constructor | src/hooks/useChatPlayback.ts:79-85 | the hook starts with the `useState` initial values, the flag down and the clock at 0 |
| Playback.ChatPlayback.Reset | src/hooks/useChatPlayback.ts:87-94 | `reset` empties the screen, stops playing and typing, clears the draft and progress, and raises the cancel flag |
| Playback.ChatPlayback.Await | src/hooks/useChatPlayback.ts:119 | an await advances the clock by its delay, records the frame and runs `reset` when one falls in it |
| Playback.ChatPlayback.ShowImage | src/hooks/useChatPlayback.ts:110-112 | the image branch is the model's `ImageStep`: pause `400 / speed`, then append |
| Playback.ChatPlayback.PlayAudio | src/hooks/useChatPlayback.ts:113-136 | the audio branch is `AudioStep`: append at progress 0, pause `300 / speed`, then the ticks |
| Playback.ChatPlayback.Tick | src/hooks/useChatPlayback.ts:126-136 | the tick loop is `TickLoop` |
| Playback.ChatPlayback.TickOnce | src/hooks/useChatPlayback.ts:128-135 | one tick sets the last bubble's progress to `min(s / steps, 1)`, then waits 50 ms |
| Playback.ChatPlayback.TypeMessage | src/hooks/useChatPlayback.ts:137-157 | the text branch is `TextStep`, and it reports a stop exactly when cancelled after typing |
| Playback.ChatPlayback.Type | src/hooks/useChatPlayback.ts:143-148 | the typing loop is `TypeLoop` |
| Playback.ChatPlayback.TypeOnce | src/hooks/useChatPlayback.ts:145-147 | one character sets the draft to the prefix and the progress to `c / length`, then waits `45 / speed` |
| Playback.ChatPlayback.Send | src/hooks/useChatPlayback.ts:152-156 | pause `200 / speed`, stop typing, clear the draft, append the message |
| Playback.ChatPlayback.PlayMessage | src/hooks/useChatPlayback.ts:106-161 | one pass of the `for` loop is the model's `Round`, including the pause after every message but the last |
| Playback.ChatPlayback.Play | src/hooks/useChatPlayback.ts:96-166 | `play` ends in exactly the state `PlaySim` gives, and the clock has advanced by the total of the recorded awaits |
| PlaybackProps.DurationAppend | src/hooks/useChatPlayback.ts:96-166 | the time of two stretches of awaits adds up |
| PlaybackProps.TypeLoopClean | src/hooks/useChatPlayback.ts:143-148 | without a reset, typing records one frame per prefix, `|text| + 1` of them, and ends with the whole text and progress 1 |
| PlaybackProps.TypingStepsShowPrefix | src/hooks/useChatPlayback.ts:145-146 | every typing frame shows a prefix of the text, with its share as a progress in [0, 1] |
| PlaybackProps.SetLastProgressTwice | src/hooks/useChatPlayback.ts:129-134 | a later tick's progress replaces an earlier one's |
| PlaybackProps.TickLoopClean | src/hooks/useChatPlayback.ts:126-136 | without a reset, the audio loop runs `steps + 1` ticks of 50 ms and leaves the last bubble at progress 1 |
| PlaybackProps.ImageClean | src/hooks/useChatPlayback.ts:110-112 | without a reset, an image shows unchanged after `400 / speed` |
| PlaybackProps.AudioClean | src/hooks/useChatPlayback.ts:113-136 | without a reset, an audio bubble shows at full progress after `300 / speed + 50 (steps + 1)` |
| PlaybackProps.TextClean | src/hooks/useChatPlayback.ts:137-157 | without a reset, a text shows after `45 (|text| + 1) / speed + 200 / speed`, and typing is off |
| PlaybackProps.MessageClean | src/hooks/useChatPlayback.ts:108-157 | each kind of message appends exactly its final form and takes `MessageTime` |
| PlaybackProps.PlayFromCleanStep | src/hooks/useChatPlayback.ts:105-161 | one pass of the loop without a reset appends the message and adds its time plus the pause |
| PlaybackProps.PlayFromClean | src/hooks/useChatPlayback.ts:105-162 | without a reset, the loop shows all remaining messages in order and takes `RestTime` |
| PlaybackProps.PlayClean | src/hooks/useChatPlayback.ts:96-166 | without a reset, `play` ends with every message shown in order (audio at progress 1), neither playing nor typing, after exactly `TotalTime` ms |
| PlaybackProps.TwoCharacterMessage | src/hooks/useChatPlayback.ts:143-156 | "hi" at speed 1 takes 335 ms, and the run ends with exactly that message on screen |
| PlaybackFrames.TypeLoopOrderly | src/hooks/useChatPlayback.ts:143-148 | without a reset, each typing frame shows a longer prefix of the message's text, and the messages on screen stay as they are |
| PlaybackFrames.TickShare | src/hooks/useChatPlayback.ts:128 | `min(s / steps, 1)` lies in [0, 1] and never falls as `s` grows |
| PlaybackFrames.TickLoopOrderly | src/hooks/useChatPlayback.ts:126-136 | without a reset, each tick raises or keeps the newest bubble's progress and changes nothing else on screen |
| PlaybackFrames.ImageOrderly | src/hooks/useChatPlayback.ts:110-112 | without a reset, the image branch only appends the image after the messages already shown |
| PlaybackFrames.AudioOrderly | src/hooks/useChatPlayback.ts:113-136 | without a reset, the audio branch appends the bubble, then only raises its progress |
| PlaybackFrames.TextOrderly | src/hooks/useChatPlayback.ts:137-157 | without a reset, the text branch types prefixes of the message for its sender, then appends it |
| PlaybackFrames.MessageOrderly | src/hooks/useChatPlayback.ts:108-157 | without a reset, every frame of one message keeps the order, and the message ends shown in its final form |
| PlaybackFrames.RoundOrderly | src/hooks/useChatPlayback.ts:106-161 | the same for one pass of the loop, pause included |
| PlaybackFrames.PlayFromOrderly | src/hooks/useChatPlayback.ts:105-162 | the same for the rest of the loop |
| PlaybackFrames.PlayFrames | src/hooks/useChatPlayback.ts:96-166 | without a reset, every recorded frame shows the first messages of the script in order, each finished but the newest. While typing, the sender is the next message's and the draft a prefix of its text. No frame comes before an earlier one: the count of messages never falls, the draft only grows and audio progress only rises |
| PlaybackFrames.OnlyAppends | src/hooks/useChatPlayback.ts:96-166 | without a reset, a later frame holds at least as many messages as an earlier one, and every message but the earlier frame's newest is unchanged |
| PlaybackResets.SleepRunning | src/hooks/useChatPlayback.ts:87-94 | an await either keeps the run going or, when a reset falls in it, stops it with the screen cleared |
| PlaybackResets.SleepStopped | src/hooks/useChatPlayback.ts:87-94 | an await after a stop keeps the run stopped |
| PlaybackResets.TypeLoopReset | src/hooks/useChatPlayback.ts:143-150 | a reset during typing stops the loop at the next check, with nothing shown or typed |
| PlaybackResets.TickLoopReset | src/hooks/useChatPlayback.ts:126-136 | a reset during the ticks stops the loop at the next check |
| PlaybackResets.MessageReset | src/hooks/useChatPlayback.ts:108-157 | one message either runs on, or stops with an empty screen or with just that message, when the first reset fell on the image wait or the wait after typing |
| PlaybackResets.RoundStopped | src/hooks/useChatPlayback.ts:106-161 | a pass of the loop that a reset stops ends within one more await, with the screen empty or holding just that pass's message whose wait the reset hit |
| PlaybackResets.PlayFromReset | src/hooks/useChatPlayback.ts:105-162 | the loop ends cancelled exactly when a reset fell in one of its awaits. Then at most one more await follows, and the loop ended inside the one pass that was running when the reset came, so no later message starts |
| PlaybackResets.PlayReset | src/hooks/useChatPlayback.ts:96-166 | after a reset, `play` ends with no draft, progress 0 and neither playing nor typing. It ends inside the pass that was running, so no later message starts. The screen is empty, or holds just that pass's image or text when the first reset fell on the wait before it shows |
| PlaybackResets.TypeLoopUnreset | src/hooks/useChatPlayback.ts:143-148 | typing that is not cancelled is the same as typing without resets |
| PlaybackResets.TickLoopUnreset | src/hooks/useChatPlayback.ts:126-136 | ticks that are not cancelled are the same as ticks without resets |
| PlaybackResets.MessageUnreset | src/hooks/useChatPlayback.ts:108-161 | a message that is not cancelled plays as it would without resets |
| PlaybackResets.PlayFromUnreset | src/hooks/useChatPlayback.ts:105-162 | a loop that is not cancelled is the loop without resets |
| PlaybackResets.PlayUnreset | src/hooks/useChatPlayback.ts:96-166 | a run that ends uncancelled is exactly the run without resets |
| ChatView.SideOf | src/components/IMessageSimulator.tsx:115 | a bubble sits on the right exactly when it is mine |
| ChatView.NextIsPrev | src/components/IMessageSimulator.tsx:101-104 | "same sender as next" of one bubble is "same sender as previous" of the next one |
| ChatView.TypingExclusive | src/components/IMessageSimulator.tsx:140-198 | the typing dots and my draft never show together, and one of them shows exactly while typing |
| IMessageView.BubbleAt | src/components/IMessageSimulator.tsx:100-128 | the bubble drawn for message `i`; stated by `TailRule`, `SpacingRule`, `SenderAndContent` and `TailBeforeGap` |
| IMessageView.TailRule | src/components/IMessageSimulator.tsx:103-110 | a bubble has a tail exactly when it is last in its group, on the sender's side |
| IMessageView.SpacingRule | src/components/IMessageSimulator.tsx:104-106 | no margin on the first bubble, 2px after the same sender, 10px after the other one |
| IMessageView.SenderAndContent | src/components/IMessageSimulator.tsx:115-124 | side and colour follow the sender; an image replaces the text; anything else shows its text |
| IMessageView.TailBeforeGap | src/components/IMessageSimulator.tsx:103-110 | a bubble lacks a tail exactly when the next one sits 2px under it |
| IMessageView.TailsBeforeGaps | src/components/IMessageSimulator.tsx:100-128 | the tails among the first n-1 bubbles are as many as the wide gaps among the first n |
| IMessageView.OneTailPerGroup | src/components/IMessageSimulator.tsx:100-128 | a non-empty list has exactly one tail more than it has wide gaps |
| IMessageView.ReceiptUnderMyTail | src/components/IMessageSimulator.tsx:131 | "Read" shows only under my tailed bubble on the right |
| IMessageView.ComposerRule | src/components/IMessageSimulator.tsx:166-198 | while I type, the field holds exactly the typed text, the send button shows and the keyboard is live; otherwise the "iMessage" placeholder and the microphone show. The receipt, the dots and the draft exclude one another |
| IMessageView.AvatarOf | src/components/IMessageSimulator.tsx:75-79 | the header avatar; stated by `AvatarRule` |
| IMessageView.AvatarRule | src/components/IMessageSimulator.tsx:75-79 | the photo shows when given; otherwise the first character upper-cased, or nothing for an empty name |
| InstagramView.RadiusAt | src/components/InstagramSimulator.tsx:69-87 | the corner shape of message `i`; stated by `RadiusRule` and `NeighboursAgree` |
| InstagramView.RowAt | src/components/InstagramSimulator.tsx:65-110 | the row drawn for message `i`; stated by `RowRule` and `NeighboursAgree` |
| InstagramView.StatusOf | src/components/InstagramSimulator.tsx:53-55 | the header status; stated by `TypingDisplays` |
| InstagramView.RadiusRule | src/components/InstagramSimulator.tsx:69-87 | the four cases: flat on top exactly after the same sender, flat at the bottom exactly before the same sender, flat corners on the sender's side |
| InstagramView.NeighboursAgree | src/components/InstagramSimulator.tsx:66-87 | a bubble is flat at the bottom exactly when the next one is flat on top and sits 2px under it; otherwise 12px |
| InstagramView.RowRule | src/components/InstagramSimulator.tsx:65-110 | an image gets its own box and no corner shape; side and colour follow the sender; only the first row has no margin |
| InstagramView.TypingDisplays | src/components/InstagramSimulator.tsx:54-148 | "Digitando..." shows exactly with the typing bubble; the draft and send icon show exactly while I type, with "Mensagem..." otherwise |
| AudioBubble.NatToString | src/components/IMessageAudioBubble.tsx:15 | `toString` of a whole number is non-empty decimal digits, one digit exactly below 10 |
| AudioBubble.PadStart2 | src/components/IMessageAudioBubble.tsx:15 | `padStart(2, "0")` leaves long strings alone and left-pads short ones with zeros to length 2 |
| AudioBubble.Trunc | src/components/IMessageAudioBubble.tsx:14 | conversion toward zero, as JavaScript's `%` uses it |
| AudioBubble.FormatDuration | src/components/IMessageAudioBubble.tsx:12-16 | the `m:ss` label; stated by `FormatShape`, `FormatRoundTrip` and `ZeroLabel` |
| AudioBubble.MinutesSeconds | src/components/IMessageAudioBubble.tsx:12-16 | for `sec >= 0`: `0 <= s < 60` and `60 m + s == floor(sec)` |
| AudioBubble.ParseNatToString | src/components/IMessageAudioBubble.tsx:15 | the digits of a number read back as that number |
| AudioBubble.TwoDigits | src/components/IMessageAudioBubble.tsx:15 | padded seconds are exactly two digits that read back as the seconds |
| AudioBubble.FormatShape | src/components/IMessageAudioBubble.tsx:12-16 | the label is the minutes, a colon, then the seconds padded to two digits |
| AudioBubble.FormatRoundTrip | src/components/IMessageAudioBubble.tsx:12-16 | reading an `m:ss` label back gives the whole seconds of the time |
| AudioBubble.ZeroLabel | src/components/IMessageAudioBubble.tsx:12-16 | zero seconds read "0:00" |
| AudioBubble.Remaining | src/components/IMessageAudioBubble.tsx:18 | the time left; stated by `RemainingBounds` and `RemainingShrinks` |
| AudioBubble.RemainingBounds | src/components/IMessageAudioBubble.tsx:18 | the time left is never negative; it is the whole length at progress 0, 0 at progress ≥ 1, and `dur (1 - p)` in between |
| AudioBubble.RemainingShrinks | src/components/IMessageAudioBubble.tsx:18 | the time left never grows as the progress grows |
| AudioBubble.Bars | src/components/IMessageAudioBubble.tsx:19-43 | there are always 30 bars |
| AudioBubble.PlayedPrefix | src/components/IMessageAudioBubble.tsx:43-49 | the played bars form a prefix, and its length is `PlayedCount` |
| AudioBubble.PlayedMonotone | src/components/IMessageAudioBubble.tsx:48-49 | more progress never un-plays a bar; bar 0 is played exactly from progress 0; all 30 are played at progress ≥ 1 |
| AudioBubble.BubbleView | src/components/IMessageAudioBubble.tsx:29-69 | what the bubble draws; stated by `BubbleRule` |
| AudioBubble.BubbleRule | src/components/IMessageAudioBubble.tsx:29-69 | pause glyph and time left while playing, play glyph and whole length otherwise; an unstarted clip shows its length, and a finished one "0:00" |
| ChatKeyboard.ActiveKeyFor | src/components/ChatKeyboard.tsx:19-25 | no key while inactive or before anything is typed; otherwise the last typed character lower-cased |
| ChatKeyboard.Keyboard.constructor | src/components/ChatKeyboard.tsx:17 | no key lit and no clear pending |
| ChatKeyboard.Keyboard.Change | src/components/ChatKeyboard.tsx:19-29 | the old timer is cancelled; the key is `ActiveKeyFor`; a lit key is cleared exactly 150 ms later |
| ChatKeyboard.Keyboard.Elapse | src/components/ChatKeyboard.tsx:27 | a pending clear that falls due turns the key off, and nothing else changes; a key is never lit longer than 150 ms |
| ChatKeyboard.KeysDistinct | src/components/ChatKeyboard.tsx:3-7 | no two grid keys share a label |
| ChatKeyboard.Render | src/components/ChatKeyboard.tsx:31-69 | what the keyboard draws; stated by `RenderRule`, `AtMostOneLit` and `TypedLetterLights` |
| ChatKeyboard.RenderRule | src/components/ChatKeyboard.tsx:31-69 | nothing shows while inactive. Otherwise each grid key shows its label, is lit exactly when the active key is that label, and is wide exactly for ⇧ and ⌫; comma, space and period light for their own character |
| ChatKeyboard.AtMostOneLit | src/components/ChatKeyboard.tsx:37-67 | at most one key is lit |
| ChatKeyboard.LetterHasKey | src/components/ChatKeyboard.tsx:3-7 | every letter in either case has a grid key |
| ChatKeyboard.TypedLetterLights | src/components/ChatKeyboard.tsx:19-48 | typing a letter lights exactly its key |
| Screen.TextTrace | src/hooks/useChatPlayback.ts:137-157 | without a reset a text message records its typing frames, then the send pause |
| Screen.TypingFrame | src/components/IMessageSimulator.tsx:140-199 | while my message is typed, each frame shows the growing draft and lights its last letter's key; while theirs is typed, the dots and "Digitando..." show and the keyboard is off |

## Left out

- React itself is left out: rendering, batching of state updates, keys and
  CSS classes. State updates take effect immediately, and classes become tags.
- Calling `play` again while an earlier `play` is suspended is left out: the
  earlier loop would resume with the flag lowered again. The model runs one
  `play` at a time, and `reset` only during its awaits.
- Timers are a virtual clock, and no real time passes.
- The scroll-to-bottom effects, the status-bar clock (`formatTime`), the
  "Read" time and the `Math.sin` bar heights are left out, because they
  depend on the DOM, the wall clock or floating point.
- `typingDelay` is computed at line 101 but never used, so it is left out.
- NaN and division by zero are left out. `play` requires `speed > 0`, every
  text message to have text and every audio clip a positive length. The
  parser guarantees the last two when the clips do (`ParsePlayable`).
- The default `speed = 1` is left to the caller.
- `PlaybackModel.SetLastProgress` on an empty list is left out. Ticks only
  happen after the audio bubble has been appended, so the list is never
  empty then.
- Strings are sequences of `char`, and a `char` is a Unicode scalar value.
  JavaScript strings are sequences of UTF-16 code units instead. A character
  outside the Basic Multilingual Plane, such as most emoji, counts as one
  `char` here but as two units in JavaScript. For such text, `length`,
  `substring` and `[0]` differ from the code's:
  - typing an emoji takes one frame here, but two in JavaScript, and the
    extra frame shows a lone surrogate (useChatPlayback.ts:143-146);
  - the keyboard's last typed character (ChatKeyboard.tsx:22) is a whole
    character here, but a lone surrogate in JavaScript;
  - so is the avatar initial (IMessageSimulator.tsx:77).
- `toLowerCase` and `toUpperCase` are modelled on ASCII letters only. `trim`
  uses a fixed set of space characters, including the common Unicode spaces.
- Numbers are exact reals here, while JavaScript uses binary floating point.
  The results can differ by one at rounding edges, where a value that is
  whole in exact arithmetic lands just off it in floating point. This
  affects `Math.ceil` at useChatPlayback.ts:124, and `Math.floor` and `%` in
  `formatDuration` (IMessageAudioBubble.tsx:13-14).
- `setTimeout` waits a whole number of milliseconds: browsers truncate a
  fractional delay, so 22.5 becomes 22 and 133.3 becomes 133. The model
  records the requested delays. So `TotalTime` and the durations in
  `PlayClean` and `TwoCharacterMessage` are sums of requested delays, not
  of the waits a browser makes.
- PlaybackFrames.PlayFrames requires that the run does not start while
  typing. Between calls, the hook's state never has typing on: the initial
  state, `reset` and the end of `play` all clear it. Only an overlapping
  `play` could start while typing, and overlapping runs are left out.
- The `images` and `audios` lookups see only the maps' own keys. Keys
  inherited from JavaScript's `Object.prototype`, such as `constructor`,
  are not modelled.
- The keyboard's `theme` prop is ignored by the component and is left out.
  The emoji and return keys of the bottom row never light up, so they are
  not modelled.
- The WhatsApp skin, the script editor, the recorder and the page that
  wires everything together are not part of this model.
