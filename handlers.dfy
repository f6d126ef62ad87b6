/**
 The two listeners that send messages, written as the statements they are:
 `sock.sendMessage` appends to the outbox, and each listener is proved to
 send exactly what its specification function says.
 */
module Handlers {
  import opened Wrappers
  import opened Strings
  import opened Events
  import opened Commands
  import opened Notifier

  class Bot {
    /** Every message sent so far, in the order of the `sendMessage` calls. */
    var outbox: seq<Reply>

    constructor ()
      ensures outbox == []
    {
      outbox := [];
    }

    /** `await sock.sendMessage(...)`, taken to succeed. */
    method Send(reply: Reply)
      modifies this
      ensures outbox == old(outbox) + [reply]
    {
      outbox := outbox + [reply];
    }

    /** The `messages.upsert` listener. */
    method OnMessagesUpsert(ev: Upsert, ctx: Context)
      modifies this
      ensures outbox == old(outbox) + Dispatch(ev, ctx)
    {
      if ev.kind != "notify" {
        return;
      }
      if |ev.messages| == 0 {
        // `messages[0]` is undefined and reading `.message` from it throws
        return;
      }
      var msg := ev.messages[0];
      if msg.message.None? || msg.key.fromMe {
        return;
      }
      if msg.key.remoteJid.None? {
        // `from.endsWith` throws on an undefined chat id
        return;
      }
      var from := msg.key.remoteJid.value;
      var text := MessageText(msg.message.value);
      if StartsWith(text, "!") {
        var command := FirstField(Lower(text[1..]), ' ');
        ghost var reply := Reply(from, ReplyText(command, msg, ctx), Some(msg), []);
        assert Dispatch(ev, ctx) == [reply];
        match command {
          case "ping" =>
            Send(Reply(from, PONG, Some(msg), []));
          case "info" =>
            var info := Trim(InfoTemplate(BotNumber(ctx.user), BotDisplayName(ctx)));
            InfoTemplateTrims(BotNumber(ctx.user), BotDisplayName(ctx));
            Send(Reply(from, info, Some(msg), []));
          case "menu" =>
            var menu := Trim(MenuTemplate());
            MenuTemplateTrims();
            Send(Reply(from, menu, Some(msg), []));
          case "hello" =>
            var name := OrElse(msg.pushName, "User");
            var greeting := "👋 Hello " + name + "! Welcome to " + ctx.config.botName;
            assert greeting == HelloText(msg.pushName, ctx.config.botName);
            Send(Reply(from, greeting, Some(msg), []));
          case "sticker" =>
            if !HasImage(msg.message.value) {
              Send(Reply(from, STICKER_NEEDS_IMAGE, Some(msg), []));
              return;
            }
            Send(Reply(from, STICKER_PENDING, Some(msg), []));
          case _ =>
            Send(Reply(from, UnknownText(command), Some(msg), []));
        }
      }
    }

    /** One iteration of the membership loop: a welcome for `add`, a goodbye for `remove`, nothing otherwise. */
    method Announce(id: string, participant: string, action: string)
      modifies this
      ensures outbox == old(outbox) + NoticeFor(id, participant, action)
    {
      if action == "add" {
        Send(Reply(id, WelcomeText(participant), None, [participant]));
      } else if action == "remove" {
        Send(Reply(id, GoodbyeText(participant), None, [participant]));
      }
    }

    /** The `group-participants.update` listener: one iteration per participant, in order. */
    method OnGroupParticipantsUpdate(update: GroupUpdate)
      modifies this
      ensures outbox == old(outbox) + GroupNotices(update.id, update.participants, update.action)
    {
      var participants := update.participants;
      for i := 0 to |participants|
        invariant outbox == old(outbox) + GroupNotices(update.id, participants[..i], update.action)
      {
        ghost var sent := GroupNotices(update.id, participants[..i], update.action);
        GroupNoticesStep(update.id, participants, update.action, i);
        Announce(update.id, participants[i], update.action);
        assert outbox == old(outbox) + (sent + NoticeFor(update.id, participants[i], update.action));
      }
      assert participants[..|participants|] == participants;
    }
  }
}
