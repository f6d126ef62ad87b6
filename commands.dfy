/**
 The `messages.upsert` listener as a specification: which events it answers,
 the text it reads, the command it parses, and the one reply it sends.
 Dispatch is the list of `sendMessage` calls one event causes.
 */
module Commands {
  import opened Wrappers
  import opened Strings
  import opened Events

  const PONG := "🏓 Pong!"
  const STICKER_NEEDS_IMAGE := "❌ Reply to an image with !sticker"
  const STICKER_PENDING := "⏳ Creating sticker..."
  const MENU_HINT := "Type !menu for available commands"

  /** The white space the closing backtick of the info and menu templates is indented by. */
  const INDENT := "                    "

  // ---------------------------------------------------------------- filter

  /**
   The listener goes on past its guards: the event is a `notify`, it has a
   first message, that message has a body, the bot did not send it, and its
   chat id is present (without one, `from.endsWith` throws and the listener
   stops before the command handler).
   */
  predicate Accepted(ev: Upsert): (r: bool)
    ensures ev.kind != "notify" ==> !r
    ensures ev.messages == [] ==> !r
    ensures ev.messages != [] && ev.messages[0].message.None? ==> !r
    ensures ev.messages != [] && ev.messages[0].key.fromMe ==> !r
    ensures ev.messages != [] && ev.messages[0].key.remoteJid.None? ==> !r
  {
    && ev.kind == "notify"
    && |ev.messages| > 0
    && ev.messages[0].message.Some?
    && !ev.messages[0].key.fromMe
    && ev.messages[0].key.remoteJid.Some?
  }

  // ---------------------------------------------------------------- extraction

  /** `message.extendedTextMessage?.text` */
  function ExtendedTextOf(m: Message): Option<string> {
    if m.extendedTextMessage.Some? then m.extendedTextMessage.value.text else None
  }

  /**
   `conversation || extendedTextMessage?.text || ''`: the conversation when
   that is non-empty, else the extended text when that is non-empty, else empty.
   */
  function MessageText(m: Message): (r: string)
    ensures m.conversation.Some? && m.conversation.value != "" ==> r == m.conversation.value
    ensures (m.conversation.None? || m.conversation.value == "") && ExtendedTextOf(m).Some? && ExtendedTextOf(m).value != ""
            ==> r == ExtendedTextOf(m).value
    ensures (m.conversation.None? || m.conversation.value == "") && (ExtendedTextOf(m).None? || ExtendedTextOf(m).value == "")
            ==> r == ""
  {
    OrElse(m.conversation, OrElse(ExtendedTextOf(m), ""))
  }

  /** `msg.key.participant || from`: the group member who wrote the message, or the chat itself in a private chat. */
  function Sender(key: MessageKey, from: string): (r: string)
    ensures r == from || (key.participant == Some(r) && r != "")
    ensures key.participant.None? || key.participant == Some("") ==> r == from
    ensures key.participant.Some? && key.participant.value != "" ==> r == key.participant.value
  {
    OrElse(key.participant, from)
  }

  /** `from.endsWith('@g.us')`: the id is some prefix followed by `@g.us`. */
  function IsGroup(from: string): (r: bool)
    ensures r <==> |from| >= 5 && from == from[..|from| - 5] + "@g.us"
  {
    assert |from| >= 5 ==> from == from[..|from| - 5] + from[|from| - 5..];
    EndsWith(from, "@g.us")
  }

  /** Group chat ids end in `@g.us`; private chat ids (`@s.whatsapp.net`) do not. */
  lemma IsGroupOfJid(user: string)
    ensures IsGroup(user + "@g.us")
    ensures !IsGroup(user + "@s.whatsapp.net")
  {
    var g := user + "@g.us";
    assert g[|g| - 5..] == "@g.us";
    var p := user + "@s.whatsapp.net";
    assert p[|p| - 1] == 't';
  }

  /** Does the message, or the message it quotes, carry an image? */
  predicate HasImage(m: Message): (r: bool)
    ensures m.imageMessage.Some? ==> r
    ensures m.imageMessage.None? && m.extendedTextMessage.None? ==> !r
    ensures m.imageMessage.None? && m.extendedTextMessage.Some? && m.extendedTextMessage.value.contextInfo.None? ==> !r
    ensures && m.extendedTextMessage.Some?
            && m.extendedTextMessage.value.contextInfo.Some?
            && m.extendedTextMessage.value.contextInfo.value.quotedMessage.Some?
            && m.extendedTextMessage.value.contextInfo.value.quotedMessage.value.imageMessage.Some?
            ==> r
    ensures && m.imageMessage.None?
            && m.extendedTextMessage.Some?
            && m.extendedTextMessage.value.contextInfo.Some?
            && (|| m.extendedTextMessage.value.contextInfo.value.quotedMessage.None?
                || m.extendedTextMessage.value.contextInfo.value.quotedMessage.value.imageMessage.None?)
            ==> !r
  {
    || m.imageMessage.Some?
    || (&& m.extendedTextMessage.Some?
        && m.extendedTextMessage.value.contextInfo.Some?
        && m.extendedTextMessage.value.contextInfo.value.quotedMessage.Some?
        && m.extendedTextMessage.value.contextInfo.value.quotedMessage.value.imageMessage.Some?)
  }

  // ---------------------------------------------------------------- parsing

  /**
   `text.slice(1).toLowerCase().split(' ')[0]` for a text that starts with
   `!`; no command at all otherwise.
   */
  function CommandName(text: string): (r: Option<string>)
    ensures r.Some? <==> |text| > 0 && text[0] == '!'
    ensures r.Some? ==> ' ' !in r.value && r.value == Lower(FirstField(text[1..], ' '))
  {
    if StartsWith(text, "!") then
      LowerFirstField(text[1..]);
      Some(FirstField(Lower(text[1..]), ' '))
    else
      None
  }

  /** Whatever follows the first space is ignored, and the name is lower-cased. */
  lemma CommandNameIgnoresArguments(name: string, args: string)
    requires ' ' !in name
    ensures CommandName("!" + name + " " + args) == Some(Lower(name))
  {
    var text := "!" + name + " " + args;
    assert text[1..] == name + [' '] + args;
    FirstFieldOfJoin(name, ' ', args);
  }

  /** A text of `!` and a name without spaces names that command, lower-cased. */
  lemma CommandNameBare(name: string)
    requires ' ' !in name
    ensures CommandName("!" + name) == Some(Lower(name))
  {
    assert ("!" + name)[1..] == name;
    FirstFieldOfPlain(name, ' ');
  }

  /** `"!PING now"` names `ping`; a lone `"!"` names the empty command. */
  lemma CommandNameExamples()
    ensures CommandName("!PING now") == Some("ping")
    ensures CommandName("!") == Some("")
  {
    assert "!PING now" == "!" + "PING" + " " + "now";
    CommandNameIgnoresArguments("PING", "now");
    assert Lower("PING") == "ping" by {
      var l := Lower("PING");
      assert l[0] == 'p' && l[1] == 'i' && l[2] == 'n' && l[3] == 'g';
    }
    assert "!" == "!" + "";
    CommandNameBare("");
  }

  /** The KELVIN SIGN lower-cases to `k`, so `!STIC` + KELVIN SIGN + `ER` names `sticker`. */
  lemma CommandNameKelvin()
    ensures CommandName("!STIC" + [KELVIN] + "ER") == Some("sticker")
  {
    var name := ['S', 'T', 'I', 'C', KELVIN, 'E', 'R'];
    assert "!STIC" + [KELVIN] + "ER" == "!" + name;
    CommandNameBare(name);
    LowerKelvinName();
  }

  /** `STIC` + KELVIN SIGN + `ER` lower-cases to `sticker`. */
  lemma LowerKelvinName()
    ensures Lower(['S', 'T', 'I', 'C', KELVIN, 'E', 'R']) == "sticker"
  {
    var name := ['S', 'T', 'I', 'C', KELVIN, 'E', 'R'];
    var l := Lower(name);
    assert l[0] == LowerChar('S') && l[1] == LowerChar('T') && l[2] == LowerChar('I') && l[3] == LowerChar('C');
    assert l[4] == LowerChar(KELVIN) && l[5] == LowerChar('E') && l[6] == LowerChar('R');
    assert l == ['s', 't', 'i', 'c', 'k', 'e', 'r'];
  }

  // ---------------------------------------------------------------- reply texts

  /** `sock.user?.id.split(':')[0]`, which renders as `undefined` when there is no user yet. */
  function BotNumber(user: Option<User>): (r: string)
    ensures user.None? ==> r == "undefined"
    ensures user.Some? ==> r <= user.value.id && ':' !in r
    ensures user.Some? && |r| < |user.value.id| ==> user.value.id[|r|] == ':'
  {
    if user.None? then "undefined" else FirstField(user.value.id, ':')
  }

  /** `sock.user?.name || CONFIG.botName` */
  function BotDisplayName(ctx: Context): (r: string)
    ensures r == ctx.config.botName || (ctx.user.Some? && ctx.user.value.name == Some(r) && r != "")
    ensures ctx.user.Some? && ctx.user.value.name.Some? && ctx.user.value.name.value != "" ==> r == ctx.user.value.name.value
  {
    OrElse(if ctx.user.Some? then ctx.user.value.name else None, ctx.config.botName)
  }

  // The fixed lines of the info template around its two interpolations.
  const INFO_HEAD := "*Bot Information*\n\n📱 Bot Number: "
  const INFO_NAME := "\n👤 Bot Name: "
  const INFO_TAIL := "\n⚡ Status: Online\n🔗 Session: Active"

  /** The info reply as it reads: the template's five lines with the socket user's number and name filled in. */
  function InfoCard(number: string, name: string): string {
    INFO_HEAD + number + INFO_NAME + name + INFO_TAIL
  }

  /**
   The info template literal, before `.trim()`: a line break, the card's
   lines, and the line break and indentation before the closing backtick.
   */
  function InfoTemplate(number: string, name: string): string {
    "\n" + InfoCard(number, name) + "\n" + INDENT
  }

  /** `.trim()` of the info template leaves exactly the card: the opening line break and closing indentation go. */
  lemma InfoTemplateTrims(number: string, name: string)
    ensures Trim(InfoTemplate(number, name)) == InfoCard(number, name)
  {
    var body := InfoCard(number, name);
    var trail := "\n" + INDENT;
    assert InfoTemplate(number, name) == "\n" + body + trail;
    assert body[0] == INFO_HEAD[0] == '*';
    assert body[|body| - 1] == INFO_TAIL[|INFO_TAIL| - 1] == 'e';
    IndentIsSpace();
    TrimPadded("\n", body, trail);
  }

  lemma IndentIsSpace()
    ensures AllSpace("\n" + INDENT)
  {
    var trail := "\n" + INDENT;
    forall i | 0 <= i < |trail| ensures IsJsSpace(trail[i]) {
    }
  }

  /** The menu, line by line, as it reads once trimmed. */
  const MENU_BODY := "*📋 Bot Commands*\n\n"
    + "!ping - Check bot status\n"
    + "!info - Bot information\n"
    + "!menu - Show this menu\n"
    + "!sticker - Reply to image to make sticker\n"
    + "!hello - Say hello"

  /** The menu template literal, before `.trim()`. */
  function MenuTemplate(): string {
    "\n" + MENU_BODY + "\n" + INDENT
  }

  /** `.trim()` of the menu template leaves exactly the heading and the five command lines. */
  lemma MenuTemplateTrims()
    ensures Trim(MenuTemplate()) == MENU_BODY
  {
    var trail := "\n" + INDENT;
    assert MenuTemplate() == "\n" + MENU_BODY + trail;
    assert MENU_BODY[0] == '*';
    assert MENU_BODY[|MENU_BODY| - 1] == 'o';
    IndentIsSpace();
    TrimPadded("\n", MENU_BODY, trail);
  }

  /** `👋 Hello ${msg.pushName || 'User'}! Welcome to ${CONFIG.botName}` */
  function HelloText(pushName: Option<string>, botName: string): (r: string)
    ensures StartsWith(r, "👋 Hello ")
    ensures EndsWith(r, "! Welcome to " + botName)
  {
    var tail := "! Welcome to " + botName;
    assert "👋 Hello " + OrElse(pushName, "User") + "! Welcome to " + botName == "👋 Hello " + (OrElse(pushName, "User") + tail);
    "👋 Hello " + OrElse(pushName, "User") + "! Welcome to " + botName
  }

  /** The greeting names the sender, or `User` when the sender has no display name, and names the bot. */
  lemma HelloTextGreets(pushName: Option<string>, botName: string)
    ensures pushName.Some? && pushName.value != "" ==> Contains(HelloText(pushName, botName), "Hello " + pushName.value + "!")
    ensures pushName.None? || pushName == Some("") ==> Contains(HelloText(pushName, botName), "Hello User!")
    ensures Contains(HelloText(pushName, botName), botName)
  {
    var name := OrElse(pushName, "User");
    var greeting := "Hello " + name + "!";
    assert name == "User" ==> greeting == "Hello User!";
    assert HelloText(pushName, botName) == "👋 " + greeting + (" Welcome to " + botName);
    ContainsMiddle("👋 ", greeting, " Welcome to " + botName);
    assert HelloText(pushName, botName) == "👋 Hello " + name + "! Welcome to " + botName + "";
    ContainsMiddle("👋 Hello " + name + "! Welcome to ", botName, "");
  }

  /** `❌ Unknown command: ${command}\nType !menu for available commands` */
  function UnknownText(command: string): (r: string)
    ensures StartsWith(r, "❌ Unknown command: " + command)
    ensures EndsWith(r, "\n" + MENU_HINT)
  {
    assert "❌ Unknown command: " + command + "\n" + MENU_HINT == ("❌ Unknown command: " + command) + ("\n" + MENU_HINT);
    "❌ Unknown command: " + command + "\n" + MENU_HINT
  }

  /** The unknown-command reply repeats the command it did not recognise and points to `!menu`. */
  lemma UnknownTextMentions(command: string)
    ensures Contains(UnknownText(command), command)
    ensures Contains(UnknownText(command), MENU_HINT)
  {
    assert UnknownText(command) == "❌ Unknown command: " + command + ("\n" + MENU_HINT);
    ContainsMiddle("❌ Unknown command: ", command, "\n" + MENU_HINT);
    assert UnknownText(command) == "❌ Unknown command: " + command + "\n" + MENU_HINT + "";
    ContainsMiddle("❌ Unknown command: " + command + "\n", MENU_HINT, "");
  }

  predicate IsKnown(command: string) {
    command in {"ping", "info", "menu", "hello", "sticker"}
  }

  /**
   The `switch (command)`: the text of the one reply each command gets. Only a
   command outside the five gets the unknown-command text, and `sticker`
   announces a sticker exactly when there is an image.
   */
  function ReplyText(command: string, msg: WebMessage, ctx: Context): (r: string)
    requires msg.message.Some?
    ensures !IsKnown(command) ==> r == UnknownText(command)
    ensures IsKnown(command) ==> !StartsWith(r, "❌ Unknown command: ")
    ensures command == "sticker" ==> (r == STICKER_PENDING <==> HasImage(msg.message.value))
  {
    assert InfoCard(BotNumber(ctx.user), BotDisplayName(ctx))[0] == INFO_HEAD[0];
    assert STICKER_NEEDS_IMAGE[2] == 'R' && "❌ Unknown command: "[2] == 'U';
    if command == "ping" then PONG
    else if command == "info" then InfoCard(BotNumber(ctx.user), BotDisplayName(ctx))
    else if command == "menu" then MENU_BODY
    else if command == "hello" then HelloText(msg.pushName, ctx.config.botName)
    else if command == "sticker" then
      if HasImage(msg.message.value) then STICKER_PENDING else STICKER_NEEDS_IMAGE
    else UnknownText(command)
  }

  // ---------------------------------------------------------------- dispatch

  /**
   The replies one `messages.upsert` event causes: none unless the event is
   accepted and its text is a command, else exactly one, sent to the chat the
   message came from and quoting it.
   */
  function Dispatch(ev: Upsert, ctx: Context): (r: seq<Reply>)
    ensures |r| <= 1
    ensures r != [] ==> Accepted(ev)
    ensures r != [] ==> && r[0].target == ev.messages[0].key.remoteJid.value
                        && r[0].quoted == Some(ev.messages[0])
                        && r[0].mentions == []
  {
    if !Accepted(ev) then []
    else
      var msg := ev.messages[0];
      match CommandName(MessageText(msg.message.value))
      case None => []
      case Some(command) => [Reply(msg.key.remoteJid.value, ReplyText(command, msg, ctx), Some(msg), [])]
  }

  /** The text the listener reads from an accepted event. */
  function TextOf(ev: Upsert): string
    requires Accepted(ev)
  {
    MessageText(ev.messages[0].message.value)
  }

  /** Only `messages[0]` is looked at: whatever follows it in the batch makes no difference. */
  lemma DispatchReadsOnlyFirst(ev: Upsert, rest: seq<WebMessage>, ctx: Context)
    requires |ev.messages| > 0
    ensures Dispatch(ev.(messages := [ev.messages[0]] + rest), ctx) == Dispatch(ev, ctx)
  {
  }

  /** A message whose text does not start with `!` gets no reply. */
  lemma PlainTextNoReply(ev: Upsert, ctx: Context)
    requires Accepted(ev) && !StartsWith(TextOf(ev), "!")
    ensures Dispatch(ev, ctx) == []
  {
  }

  /**
   Every accepted message whose text starts with `!` gets exactly one reply:
   to its own chat, quoting it, with the text the command calls for.
   */
  lemma CommandGetsOneReply(ev: Upsert, ctx: Context)
    requires Accepted(ev) && StartsWith(TextOf(ev), "!")
    ensures var msg := ev.messages[0];
            var command := Lower(FirstField(TextOf(ev)[1..], ' '));
            Dispatch(ev, ctx) == [Reply(msg.key.remoteJid.value, ReplyText(command, msg, ctx), Some(msg), [])]
  {
  }

  /** `!ping`, with or without arguments and in any case, is answered with exactly `🏓 Pong!`. */
  lemma PingReply(ev: Upsert, ctx: Context)
    requires Accepted(ev) && CommandName(TextOf(ev)) == Some("ping")
    ensures Dispatch(ev, ctx) == [Reply(ev.messages[0].key.remoteJid.value, PONG, Some(ev.messages[0]), [])]
  {
  }

  /** An accepted `"!ping"` from chat `123@s.whatsapp.net` is answered there with `🏓 Pong!`. */
  lemma PingScenario(ev: Upsert, ctx: Context)
    requires Accepted(ev) && ev.messages[0].key.remoteJid == Some("123@s.whatsapp.net")
    requires ev.messages[0].message.value.conversation == Some("!ping")
    ensures Dispatch(ev, ctx) == [Reply("123@s.whatsapp.net", "🏓 Pong!", Some(ev.messages[0]), [])]
  {
    assert TextOf(ev) == "!" + "ping";
    CommandNameLowerCase("ping");
    PingReply(ev, ctx);
  }

  /** A text of `!` and an already lower-case name without spaces names exactly that command. */
  lemma CommandNameLowerCase(name: string)
    requires ' ' !in name
    requires forall i :: 0 <= i < |name| ==> !('A' <= name[i] <= 'Z') && name[i] != KELVIN
    ensures CommandName("!" + name) == Some(name)
  {
    CommandNameBare(name);
    LowerIdentity(name);
  }

  /** `!info` gets the trimmed information card with the bot's number and name. */
  lemma InfoReply(ev: Upsert, ctx: Context)
    requires Accepted(ev) && CommandName(TextOf(ev)) == Some("info")
    ensures |Dispatch(ev, ctx)| == 1
    ensures Dispatch(ev, ctx)[0].text == INFO_HEAD + BotNumber(ctx.user) + INFO_NAME + BotDisplayName(ctx) + INFO_TAIL
  {
  }

  /** `!menu` gets the fixed list of commands. */
  lemma MenuReply(ev: Upsert, ctx: Context)
    requires Accepted(ev) && CommandName(TextOf(ev)) == Some("menu")
    ensures |Dispatch(ev, ctx)| == 1
    ensures Dispatch(ev, ctx)[0].text == MENU_BODY
  {
  }

  /** `!hello` greets the sender by display name (`User` when there is none) and names the bot. */
  lemma HelloReply(ev: Upsert, ctx: Context)
    requires Accepted(ev) && CommandName(TextOf(ev)) == Some("hello")
    ensures Dispatch(ev, ctx) == [Reply(ev.messages[0].key.remoteJid.value, HelloText(ev.messages[0].pushName, ctx.config.botName),
                                        Some(ev.messages[0]), [])]
    ensures var pushName := ev.messages[0].pushName;
            var t := Dispatch(ev, ctx)[0].text;
            && (pushName.Some? && pushName.value != "" ==> Contains(t, "Hello " + pushName.value + "!"))
            && (pushName.None? || pushName == Some("") ==> Contains(t, "Hello User!"))
            && Contains(t, ctx.config.botName)
  {
    HelloTextGreets(ev.messages[0].pushName, ctx.config.botName);
  }

  /** An accepted `"!hello"` from a sender called Alex contains `Hello Alex!`. */
  lemma HelloScenario(ev: Upsert, ctx: Context)
    requires Accepted(ev) && ev.messages[0].pushName == Some("Alex")
    requires ev.messages[0].message.value.conversation == Some("!hello")
    ensures |Dispatch(ev, ctx)| == 1 && Contains(Dispatch(ev, ctx)[0].text, "Hello Alex!")
    ensures ctx.config == CONFIG ==> Contains(Dispatch(ev, ctx)[0].text, "MyBot")
  {
    assert TextOf(ev) == "!" + "hello";
    CommandNameLowerCase("hello");
    HelloReply(ev, ctx);
    HelloAlex(ctx.config.botName);
  }

  /** The greeting for the display name Alex says `Hello Alex!`. */
  lemma HelloAlex(botName: string)
    ensures Contains(HelloText(Some("Alex"), botName), "Hello Alex!")
  {
    HelloTextGreets(Some("Alex"), botName);
    assert "Hello " + "Alex" + "!" == "Hello Alex!";
  }

  /**
   `!sticker` without an image in the message or in the message it quotes is
   answered with the instruction to reply to an image; with one, with the
   progress note only.
   */
  lemma StickerReply(ev: Upsert, ctx: Context)
    requires Accepted(ev) && CommandName(TextOf(ev)) == Some("sticker")
    ensures |Dispatch(ev, ctx)| == 1
    ensures Dispatch(ev, ctx)[0].text
         == if HasImage(ev.messages[0].message.value) then STICKER_PENDING else STICKER_NEEDS_IMAGE
  {
  }

  /**
   `!sticker` sent as a reply that quotes an image (what the instruction text
   asks for) is answered with the progress note.
   */
  lemma StickerOnQuotedImage(ev: Upsert, ctx: Context, text: string, quoted: Message)
    requires Accepted(ev) && CommandName(text) == Some("sticker")
    requires quoted.imageMessage.Some?
    requires ev.messages[0].message.value
          == Message(None, Some(ExtendedText(Some(text), Some(ContextInfo(Some(quoted))))), None)
    ensures Dispatch(ev, ctx) == [Reply(ev.messages[0].key.remoteJid.value, STICKER_PENDING, Some(ev.messages[0]), [])]
  {
    assert TextOf(ev) == text;
  }

  /**
   Any other command, the empty one included, is answered with the
   unknown-command text, which names it and points to `!menu`.
   */
  lemma UnknownReply(ev: Upsert, ctx: Context, command: string)
    requires Accepted(ev) && CommandName(TextOf(ev)) == Some(command) && !IsKnown(command)
    ensures |Dispatch(ev, ctx)| == 1
    ensures Dispatch(ev, ctx)[0].text == UnknownText(command)
    ensures Contains(Dispatch(ev, ctx)[0].text, command) && Contains(Dispatch(ev, ctx)[0].text, MENU_HINT)
  {
    UnknownTextMentions(command);
  }

  /**
   The caption of an image is never read: an image whose caption is
   `!sticker`, with no text part, gets no reply.
   */
  lemma ImageCaptionIsNotRead(ev: Upsert, ctx: Context)
    requires Accepted(ev)
    requires ev.messages[0].message.value == Message(None, None, Some(ImageMessage(Some("!sticker"))))
    ensures Dispatch(ev, ctx) == []
  {
  }
}
