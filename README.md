# WhatsApp command bot: a Dafny model of its listeners

The bot is one JavaScript file, `text.js`, on top of a WhatsApp Web client
library. The library does pairing, encryption and transport. The bot adds
three listeners on the library's socket, and this project models them:

1. **`messages.upsert`**, the command dispatcher. It ignores events that are
   not `notify` and ignores messages without a body or sent by the bot. It
   reads the text (`conversation`, else `extendedTextMessage.text`, else `''`).
   For a text starting with `!` it takes the command name: the lower-cased
   text after `!`, up to the first space. It then sends one reply: `ping`,
   `info`, `menu`, `hello`, `sticker`, or the unknown-command text.
2. **`connection.update`**, the reconnect supervisor. After a close it
   schedules one new `connectToWhatsApp()` three seconds later, unless the
   close was a Boom error carrying the library's logged-out status code. In
   that case the process exits.
3. **`group-participants.update`**, the membership notifier. It sends one
   welcome (for `add`) or goodbye (for `remove`) per participant, in order.
   Each message mentions that participant.

Layout:

- `wrappers.dfy`: `Option`, for JavaScript properties that may be `undefined`.
- `strings.dfy` (module `Strings`): the JavaScript string operations used.
  These are `split(sep)[0]` (`FirstField`), `toLowerCase` (`Lower`, on the
  characters that lower-case to ASCII), `trim` (`Trim`, with the ECMAScript white-space set), `startsWith`,
  `endsWith`, and `a || b` on strings (`OrElse`, where `''` is falsy).
- `events.dfy` (module `Events`): the event payloads the listeners read, the
  `Reply` record for one `sendMessage` call, and the compiled-in `CONFIG`.
- `commands.dfy` (module `Commands`): the dispatcher as a specification
  function, `Dispatch(event, context)`. It returns the replies one event
  causes. Lemmas cover the filter, the parse and each reply.
- `notifier.dfy` (module `Notifier`): `GroupNotices`, the messages one
  membership event causes, with lemmas.
- `supervisor.dfy` (module `Supervisor`): `ShouldReconnect`, and the class
  `Lifecycle`. It holds the process phase (`Connecting | Open | Closed |
  Exited`), the reconnect timers pending, the reconnects scheduled so far and
  the sockets created so far.
- `handlers.dfy` (module `Handlers`): the class `Bot`, whose `outbox` stands
  for the socket's `sendMessage`. `OnMessagesUpsert` is the listener's
  `switch`, with its early returns. `OnGroupParticipantsUpdate` is its `for`
  loop, whose body is `Announce`. Each is proved to append exactly what `Dispatch` or `GroupNotices`
  says.

Modelling choices:

- When `messages` is empty, `messages[0].message` throws inside the async
  listener. When `remoteJid` is missing, `from.endsWith` throws. Either way
  no reply is sent, and the model sends none.
- `sock.user` belongs to the library. It is an input of the dispatcher
  (`Context.user`), and so is the configuration. When there is no user,
  `sock.user?.id.split(':')[0]` renders as the text `undefined`.
- The logged-out status code lives in the library. It is the constructor
  parameter `loggedOutCode` of `Lifecycle`.
- The 3-second `setTimeout` becomes a pending timer, counted in `pending`,
  that `FireReconnect` consumes. `process.exit` becomes the terminal phase
  `Exited`. Exiting drops all pending timers.

One observation the lemmas make visible: the text is never read from an
image's caption. So an image captioned `!sticker`, with no text part, gets no
reply at all (`ImageCaptionIsNotRead`). The `imageMessage` test in the
`sticker` branch fires only for a message that has both a text part and an
image.

Behaviour of the code the model keeps:

- The command name ends at the first `' '` only. Any other white space stays
  part of the name, so `"!ping\nx"` is an unknown command.
- Whatever follows the command name is dropped; no command reads arguments.
- A message counts as the bot's own exactly when `key.fromMe` is set.
- A logged-out close calls `process.exit(0)`: the process ends with status zero.
- The code records no phase and enforces no order of transitions. The phase
  in `Lifecycle` is simply the last one reported, and any update is accepted
  in any phase except `Exited`.
- Mentions are the one-element list `[participant]`.

## Model

| member | source | states |
|---|---|---|
| `Strings.FirstField` | text.js:119 | `split(sep)[0]` is the prefix of the string up to, and not including, the first `sep`, or the whole string when it has none |
| `Strings.FirstFieldUnique` | text.js:119 | that description determines the result: any prefix without `sep` that ends at a `sep` or at the end is the first field |
| `Strings.FirstFieldOfJoin` | text.js:119 | for `head + sep + tail` with no `sep` in `head`, the first field is `head` |
| `Strings.FirstFieldOfPlain` | text.js:119 | a string without `sep` is its own first field |
| `Strings.Lower` | text.js:119 | lower-casing keeps the length and maps every character through the case mapping of `A`–`Z` and the KELVIN SIGN |
| `Strings.LowerIdentity` | text.js:119 | a string with no upper-case ASCII letter and no KELVIN SIGN is unchanged by lower-casing |
| `Strings.LowerFirstField` | text.js:119 | lower-casing before or after `split(' ')[0]` gives the same command name |
| `Strings.TrimStart` | text.js:127-134 | the result is a suffix of the input, only white space was removed, and it starts with a visible character |
| `Strings.TrimEnd` | text.js:127-134 | the result is a prefix of the input, only white space was removed, and it ends with a visible character |
| `Strings.TrimStartPadded` | text.js:127-134 | removing leading white space from `lead + rest` gives `rest` when `rest` starts visibly |
| `Strings.TrimEndPadded` | text.js:139-147 | removing trailing white space from `body + trail` gives `body` when `body` ends visibly |
| `Strings.Trim` | text.js:134 | `trim` gives a contiguous piece of the string with only white space before and after it, and that piece starts and ends with a visible character |
| `Strings.TrimPadded` | text.js:139-147 | `trim` of a visible body wrapped in white space is exactly that body |
| `Strings.OrElse` | text.js:107-108 | the logical-or fallback on strings yields `a` when it is present and non-empty, and otherwise the fallback |
| `Commands.Accepted` | text.js:101-110 | each early stop rejects the event: a type other than `notify`, no first message, no message body, a message the bot sent, or a missing chat id (on which `from.endsWith` throws) |
| `Commands.MessageText` | text.js:107-108 | the text is `conversation` if non-empty, else `extendedTextMessage.text` if non-empty, else `''` |
| `Commands.Sender` | text.js:109 | the sender is the `participant` when that is present and non-empty, and otherwise the chat id |
| `Commands.IsGroup` | text.js:110 | a chat is a group exactly when its id is some prefix followed by `@g.us` |
| `Commands.HasImage` | text.js:159 | there is an image exactly in the cases of the two optional chains: an image on the message, or a text part whose context quotes a message with an image, is enough; without an own image, a message with no text part, no context, no quoted message, or a quoted message without an image has none |
| `Commands.IsGroupOfJid` | text.js:110 | group ids (`…@g.us`) are groups, private ids (`…@s.whatsapp.net`) are not |
| `Commands.CommandName` | text.js:118-119 | there is a command exactly when the text starts with `!`; its name has no space and is the lower case of the text after `!` up to the first space |
| `Commands.CommandNameIgnoresArguments` | text.js:119 | `!name args` names `lower(name)`: arguments are ignored |
| `Commands.CommandNameBare` | text.js:119 | `!name` with no space names `lower(name)` |
| `Commands.CommandNameKelvin` | text.js:119 | `!STIC` + KELVIN SIGN + `ER` names `sticker`, since `toLowerCase` turns the KELVIN SIGN into `k` |
| `Commands.LowerKelvinName` | text.js:119 | `toLowerCase` of `STIC` + KELVIN SIGN + `ER` is `sticker` |
| `Commands.CommandNameExamples` | text.js:119 | `"!PING now"` names `ping`, and `"!"` names the empty command |
| `Commands.BotNumber` | text.js:130 | the number is `undefined` without a socket user, and otherwise the prefix of the user id that stops at its first `:` or at its end |
| `Commands.BotDisplayName` | text.js:131 | the name is the socket user's name when that is present and non-empty, and otherwise the configured bot name |
| `Commands.InfoTemplateTrims` | text.js:127-134 | trimming the info template leaves exactly its five lines with the number and name filled in |
| `Commands.IndentIsSpace` | text.js:134 | the line break and indentation closing each template are white space under `trim` |
| `Commands.MenuTemplateTrims` | text.js:139-147 | trimming the menu template leaves exactly the heading and the five command lines |
| `Commands.HelloText` | text.js:152-154 | the greeting starts with `👋 Hello ` and ends with `! Welcome to ` and the bot name |
| `Commands.HelloTextGreets` | text.js:152-155 | the greeting contains `Hello <pushName>!`, or `Hello User!` when the name is absent or empty, and contains the bot name |
| `Commands.UnknownText` | text.js:174 | the unknown-command text starts with `❌ Unknown command: ` and the command, and ends with a line break and `Type !menu for available commands` |
| `Commands.UnknownTextMentions` | text.js:173-175 | the unknown-command text contains the parsed command and `Type !menu for available commands` |
| `Commands.ReplyText` | text.js:121-176 | a command outside the five gets the unknown-command text and none of the five does; `sticker` announces a sticker exactly when the message or its quoted message has an image |
| `Commands.Dispatch` | text.js:100-178 | one event causes at most one reply; a reply exists only for an accepted event, goes to `messages[0]`'s chat, quotes that message and mentions nobody |
| `Commands.DispatchReadsOnlyFirst` | text.js:103 | only `messages[0]` is examined: the later messages of the batch make no difference |
| `Commands.PlainTextNoReply` | text.js:118 | an accepted message whose text does not start with `!` gets no reply |
| `Commands.CommandGetsOneReply` | text.js:118-176 | an accepted message whose text starts with `!` gets exactly one reply: to its chat, quoting it, with the text for its command |
| `Commands.PingReply` | text.js:122-124 | the `ping` command is answered with exactly `🏓 Pong!` |
| `Commands.CommandNameLowerCase` | text.js:119 | `!name`, for a lower-case name without spaces, names exactly `name` |
| `Commands.PingScenario` | text.js:122-124 | `"!ping"` from `123@s.whatsapp.net` gives exactly one reply, `🏓 Pong!`, to `123@s.whatsapp.net` |
| `Commands.InfoReply` | text.js:126-136 | `info` gets one reply: the info card with the socket user's number and the display name |
| `Commands.MenuReply` | text.js:138-149 | `menu` is answered with the fixed list of commands |
| `Commands.HelloReply` | text.js:151-156 | `hello` gets exactly one reply, to the chat and quoting the message; it greets the sender by display name, falling back to `User`, and names the bot |
| `Commands.HelloAlex` | text.js:152-154 | the greeting for the display name Alex contains `Hello Alex!` |
| `Commands.HelloScenario` | text.js:151-156 | `"!hello"` from a sender named Alex gets a reply containing `Hello Alex!`, which under the compiled-in configuration also contains `MyBot` |
| `Commands.StickerReply` | text.js:158-170 | `sticker` is answered with `❌ Reply to an image with !sticker` when neither the message nor its quoted message has an image, and otherwise with `⏳ Creating sticker...` |
| `Commands.StickerOnQuotedImage` | text.js:158-168 | `!sticker` sent as a reply quoting an image gets exactly one reply, `⏳ Creating sticker...`, to its chat, quoting it |
| `Commands.UnknownReply` | text.js:172-175 | any other command, the empty one included, gets the unknown-command text, which contains the command and the `!menu` hint |
| `Commands.ImageCaptionIsNotRead` | text.js:107-118 | an image captioned `!sticker` with no text part gets no reply |
| `Notifier.UserPart` | text.js:187 | the part of a participant id shown is its prefix that stops at the first `@` or at the end |
| `Notifier.NoticeFor` | text.js:185-195 | one iteration sends one message for `add` or `remove` and none otherwise; the message goes to the group, quotes nothing, mentions the participant, and is the welcome for `add` and the goodbye for `remove` |
| `Notifier.GroupNotices` | text.js:184-196 | there are as many messages as participants for `add` and `remove`, and none for any other action |
| `Notifier.GroupNoticesStep` | text.js:184-196 | one more participant appends exactly that participant's messages |
| `Notifier.GroupNoticeAt` | text.js:184-196 | message k goes to the group id, mentions exactly participant k, and has the welcome or goodbye text for participant k |
| `Notifier.GroupNoticesAppend` | text.js:184-196 | the messages for a concatenation of participant lists are those of the first list followed by those of the second: order is input order |
| `Notifier.NoticeTextMentions` | text.js:185-194 | the text contains the participant id up to its first `@`, and starts with `👋 Welcome @` for `add` and `👋 Goodbye @` for `remove` |
| `Notifier.AddTwoScenario` | text.js:184-189 | adding `A@g.us` and `B@g.us` to group G gives two welcomes to G, first mentioning A and then B |
| `Supervisor.ShouldReconnect` | text.js:73-75 | reconnect exactly when the close is not a Boom error whose status code equals the logged-out code |
| `Supervisor.NonBoomCloseReconnects` | text.js:73-75 | a missing error, or an error that is not a Boom error, always reconnects |
| `Supervisor.OtherStatusReconnects` | text.js:74 | a Boom error with no status, or another status, reconnects |
| `Supervisor.Lifecycle.constructor` | text.js:209-210 | the process starts with one socket, connecting, with nothing scheduled |
| `Supervisor.Lifecycle.OnConnectionUpdate` | text.js:69-94 | a close schedules exactly one reconnect when `ShouldReconnect` holds, and otherwise exits with no timer left; `open` and `connecting` only record the phase; nothing changes after an exit; no update opens a socket |
| `Supervisor.Lifecycle.FireReconnect` | text.js:80-82 | only a scheduled timer fires (so never after an exit); firing uses one timer and opens exactly one new socket |
| `Handlers.Bot.Send` | text.js:123 | a send appends exactly one reply to the outbox |
| `Handlers.Bot.OnMessagesUpsert` | text.js:100-178 | the listener with its early returns and `switch` sends exactly `Dispatch(event, context)` |
| `Handlers.Bot.Announce` | text.js:185-195 | one iteration of the membership loop appends exactly that participant's notice, or nothing for another action |
| `Handlers.Bot.OnGroupParticipantsUpdate` | text.js:181-197 | the loop over participants sends exactly `GroupNotices(id, participants, action)`, in order |

## Left out

- Socket creation and session loading (`useMultiFileAuthState`, `fetchLatestBaileysVersion`, `makeWASocket`, the signal key store) and the `creds.update` save: calls into the client library, whose behaviour is not visible.
- Pairing-code request and display: a library call followed by console output.
- Logging (`console.log`, `chalk`, `pino`): output only. The sender and group flag feed nothing but the log. They are modelled (`Sender`, `IsGroup`) but do not affect the replies.
- The 3-second delay: no clock is modelled, only the pending timer.
- The process-level `uncaughtException` and `unhandledRejection` handlers, and the exit status: process I/O. The initial `connectToWhatsApp().catch(... process.exit(1))` is not modelled either. `Lifecycle` assumes the first socket is created.
- A `connectToWhatsApp()` fired by a timer that fails before creating a socket ends in an unhandled rejection. The model assumes every fired reconnect creates a socket.
- A `sendMessage` that rejects: `Send` always succeeds. In the source, a rejected send in the membership loop would stop the remaining sends.
- Ordering and acknowledgement of concurrent async sends: the outbox records the order of the calls.
- Listeners of earlier sockets remain attached after a reconnect. All updates are treated as one stream.
- Values of unexpected JavaScript types, such as a non-string `conversation` or a non-boolean `fromMe`: every property has the type its datatype field gives it.
- The sticker conversion itself: the source does not implement it.
- Strings.Lower: maps only `A`–`Z` and the KELVIN SIGN (to `k`), whereas `toLowerCase` applies the full Unicode case mapping, which can also change the length of a string (U+0130 becomes `i` followed by U+0307). In the Unicode case tables these are the only characters whose lower case is plain ASCII; every other character that `toLowerCase` changes lower-cases to text containing a non-ASCII character. So the model picks the same known command as the code, or none in both; for text that contains other upper-case non-ASCII letters, only the command quoted in the unknown-command reply can differ.
