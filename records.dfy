/**
 * The documents the chat client keeps: messages of a conversation, contacts of
 * the roster and the provider configuration, as the renderer builds them and
 * the main process stores them.
 */
module Records {
  import opened Wrappers
  import Text

  /** A contact id: `1` for the seeded contact, a creation timestamp otherwise. */
  type ContactId = nat

  /**
   * One chat message. `kind` is the message's `type` field: "sent" for what
   * the user typed, "received" for the assistant's reply; a log read back from
   * disk may hold any other text there.
   */
  datatype Message = Message(id: int, kind: string, content: string, time: string)

  const Sent := "sent"
  const Received := "received"

  /** A roster entry: a persona with its avatar and the preview shown in the list. */
  datatype Contact = Contact(
    id: ContactId,
    name: string,
    lastMsg: string,
    time: string,
    unread: nat,
    avatar: string,
    persona: string)

  /** The persona a new contact gets when none is given, and the seeded contact's persona. */
  const DefaultPersona := "你是一个有帮助的AI助手"

  /**
   * The configuration document. Each field is optional because the document is
   * whatever was last written to disk; the settings screen always writes all four.
   */
  datatype Config = Config(
    apiProvider: Option<string>,
    apiKeys: Option<map<string, string>>,
    models: Option<map<string, string>>,
    useCustomModels: Option<map<string, bool>>)

  /**
   * The property key under which the renderer files a contact's log, which is
   * also the name of the contact's directory on disk: the id's decimal text.
   */
  function Key(id: ContactId): string {
    Text.Decimal(id)
  }

  /** The key JavaScript uses when there is no active contact (`messages[null]`). */
  const NullKey := "null"

  /** `activeContact` as a property key. */
  function KeyOf(active: Option<ContactId>): string {
    match active
    case None => NullKey
    case Some(id) => Key(id)
  }

  /** Distinct contacts never share a key, and no contact uses the `null` key. */
  lemma KeysDistinct(a: Option<ContactId>, b: Option<ContactId>)
    ensures KeyOf(a) == KeyOf(b) <==> a == b
  {
    match a
    case None =>
      if b.Some? { Text.DecimalIsNotWord(b.value, NullKey); }
    case Some(x) =>
      match b
      case None => Text.DecimalIsNotWord(x, NullKey);
      case Some(y) => Text.DecimalInjective(x, y);
  }
}
