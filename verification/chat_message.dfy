/**
 * The values the playback engine and the chat skins share: the sender of a
 * message, the audio reference a message may carry, and `ChatMessage`
 * itself (src/hooks/useChatPlayback.ts:3-15).
 */
module ChatTypes {

  datatype Option<T> = None | Some(value: T)

  datatype Sender = Me | Them

  /** `{ url, durationSec }`: an audio clip the script can refer to by name. */
  datatype AudioRef = AudioRef(url: string, durationSec: real)

  /**
   * A message as the parser produces it and the playback shows it. The
   * optional fields of the TypeScript interface are `Option`s;
   * `audioPlayProgress` is only ever set by playback.
   */
  datatype ChatMessage = ChatMessage(
    id: int,
    sender: Sender,
    text: string,
    image: Option<string>,
    audio: Option<AudioRef>,
    audioPlayProgress: Option<real>)

  datatype ParsedScript = ParsedScript(contact: string, messages: seq<ChatMessage>)

  /** `msg.image` is truthy: present and not the empty string. */
  predicate HasImage(m: ChatMessage) {
    m.image.Some? && m.image.value != []
  }

  /** `msg.audio` is truthy: an audio reference is attached. */
  predicate HasAudio(m: ChatMessage) {
    m.audio.Some?
  }

  /** Neither an image nor an audio message: playback types its text. */
  predicate IsTextMessage(m: ChatMessage) {
    !HasImage(m) && !HasAudio(m)
  }

  /**
   * A message playback can replay without JavaScript's NaN cases: a typed
   * message has text (progress is `c / text.length`), an audio clip a
   * positive length (progress is `s / steps`).
   */
  predicate Playable(m: ChatMessage) {
    (IsTextMessage(m) ==> m.text != [])
    && (!HasImage(m) && HasAudio(m) ==> m.audio.value.durationSec > 0.0)
  }

  /** The message with the playback-only progress field cleared. */
  function Base(m: ChatMessage): ChatMessage {
    m.(audioPlayProgress := None)
  }
}
