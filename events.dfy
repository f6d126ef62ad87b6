/**
 The shapes of the payloads the protocol client hands to the bot's listeners,
 restricted to the properties the bot reads, and the shape of what it sends.
 A property JavaScript may find `undefined` is an `Option`; a property the bot
 only tests for presence keeps its contents abstract.
 */
module Events {
  import opened Wrappers

  /** `msg.key`: the chat the message was posted in, whether the bot sent it, and the group member who wrote it. */
  datatype MessageKey = MessageKey(remoteJid: Option<string>, fromMe: bool, participant: Option<string>)

  /** `imageMessage`: an image, possibly with a caption. */
  datatype ImageMessage = ImageMessage(caption: Option<string>)

  /** `msg.message`: the content of a message (plain text, text with context, or an image). */
  datatype Message = Message(
    conversation: Option<string>,
    extendedTextMessage: Option<ExtendedText>,
    imageMessage: Option<ImageMessage>)

  /** `extendedTextMessage`: text that may carry a reference to a quoted message. */
  datatype ExtendedText = ExtendedText(text: Option<string>, contextInfo: Option<ContextInfo>)

  /** `contextInfo`: the content of the message being replied to, if any. */
  datatype ContextInfo = ContextInfo(quotedMessage: Option<Message>)

  /** One entry of `messages` in a `messages.upsert` event. */
  datatype WebMessage = WebMessage(key: MessageKey, message: Option<Message>, pushName: Option<string>)

  /** A `messages.upsert` event; `kind` is the event's `type` ("notify" for new messages). */
  datatype Upsert = Upsert(messages: seq<WebMessage>, kind: string)

  /** `sock.user`: the account the live connection is logged in as. */
  datatype User = User(id: string, name: Option<string>)

  /** The compiled-in configuration of the bot. */
  datatype BotConfig = BotConfig(
    sessionPath: string,
    phoneNumber: string,
    customPairingCode: Option<string>,
    botName: string,
    logLevel: string)

  const CONFIG := BotConfig("./auth_session", "628123456789", Some("ABCD1234"), "MyBot", "silent")

  /** What a message handler can see besides the event: the configuration and the socket's user. */
  datatype Context = Context(config: BotConfig, user: Option<User>)

  /**
   One `sock.sendMessage(target, { text, mentions }, { quoted })` call:
   `quoted` is the triggering message when the reply quotes it.
   */
  datatype Reply = Reply(target: string, text: string, quoted: Option<WebMessage>, mentions: seq<string>)

  /** A `group-participants.update` event. */
  datatype GroupUpdate = GroupUpdate(id: string, participants: seq<string>, action: string)

  /** The `connection` property of a `connection.update` event. */
  datatype Connection = Open | Connecting | Close

  /** `output` of a Boom error: an HTTP-style status code. */
  datatype BoomOutput = BoomOutput(statusCode: Option<int>)

  /** The error that ended a connection: a Boom error (with `output`) or any other value. */
  datatype DisconnectError = Boom(output: Option<BoomOutput>) | OtherError

  /** `lastDisconnect` */
  datatype LastDisconnect = LastDisconnect(error: Option<DisconnectError>)

  /** A `connection.update` event. */
  datatype ConnectionUpdate = ConnectionUpdate(connection: Option<Connection>, lastDisconnect: Option<LastDisconnect>)
}
