# Gate bot verification core in Dafny

This project models the core of the Gate Matrix bot, a chat-room moderation bot. The bot holds back new members of a "main" room until they solve an image captcha in a private verification room. The model covers:

- **The verification documents** (`verifying.dfy`): the `verifyingData` collection as a sequence of documents. The order is the model's choice; under the handler's invariants each filter the handler uses matches at most one document, so which order is taken does not change what `findOne` finds. A document has a required `userId` and `mainRoomId`, and an optional `verificationRoomId` and `captchaAnswer`. `save` checks the required fields and the unique index on `verificationRoomId`. `findOne` returns the first match, and `deleteOne` removes one document.
- **The power and prefix rules** (`handler_rules.dfy`):
  - the level needed to post in the main room
  - when a joining user's level is lowered and when it is restored
  - the four command prefixes, the choice of the first matching prefix, and the splitting of a command's arguments
- **The room-event handler** as pure transition functions (`session.dfy`). `CommandHandler.onRoomEvent` is a function from the stored documents, the event and the chat server's replies to the new documents and the calls the bot makes, branch by branch:
  - a leave
  - a join into a verification room
  - a join into a main room
  - an answer in a verification room
  - the gate on main-room messages

  Every call into the chat client becomes one of two things. A reply that the handler awaits becomes a field of `Replies`; a call that changes the server becomes an `Effect` appended to a log.
- **The invariants the handler keeps** (`session_invariant.dfy`): every document satisfies the schema, no two documents share a verification room, and at most one document exists per user and main room. Each branch preserves all three.
- **What each branch guarantees** (`session_properties.dfy`), and one user's whole verification worked through event by event (`scenario.dfy`).
- **The handler as a class** (`handler.dfy`). `CommandHandler` keeps the bot's cached profile (`userId`, `localpart`, `displayName`) in fields. It holds a `Store` whose document sequence its methods change and a `Client` whose log of sent calls they extend. Each method is proved against the transition functions above. `OnMessage` is proved against `MessageCommand`, the command a message selects.
- **The `help` command** (`help.dfy`): `escapeHtml`'s loop, proved equal to a per-character escaping function that `Unescape` inverts. Also `runHelpCommand`'s choice between a threaded reply and a typed HTML reply.
- **`format` from `timeFormatter.ts`** (`time_formatter.dfy`). It is exact over integer milliseconds and proved against a parser that reads the text back.
- **The JavaScript string built-ins these use** (`strings.dfy`): number-to-string, `trim` and `split`/`join`. `Option` and `Result` live in `wrappers.dfy`.

## Model

| member | source | states |
|---|---|---|
| Verifying.Validate | src/lib/schemas/verifying.ts:10-18 | a document validates iff `userId` and `mainRoomId` are present and non-empty; the model reports the first failing field, `userId` before `mainRoomId`; a validated document is schema-valid and unchanged |
| Verifying.ValidateStored | src/lib/schemas/verifying.ts:3-18 | every schema-valid record validates to itself |
| Verifying.Save | src/lib/schemas/verifying.ts:10-22 | saving succeeds iff the document validates and no other document holds its verification room; on success it overwrites that position or appends; a successful save keeps every document schema-valid and verification rooms unique |
| Verifying.DeleteOne | src/handler.ts:178 | removes exactly the i-th document and keeps the others in order; schema validity and unique verification rooms are kept |
| Verifying.FindOne | src/handler.ts:111-113 | the result is the first matching document; none exactly when no document matches |
| Verifying.FindByVerificationRoomIsUnique | src/lib/schemas/verifying.ts:19-22 | with the unique index, a lookup by verification room finds exactly the document that holds it |
| HandlerRules.RequiredPower | src/handler.ts:197-200 | the required level is the `m.room.message` level if set, else `events_default` if set, else 0 |
| HandlerRules.SuspendTo | src/handler.ts:202-205 | a joining user's level is changed iff the bot can modify it and the user can post; the new level is one below what posting needs |
| HandlerRules.RestoreTo | src/handler.ts:281-284 | after a right answer the level is changed iff the bot can modify it and the user cannot post; the new level is the lowest that may post |
| HandlerRules.RestoreUndoesSuspend | src/handler.ts:264-284 | a user suspended on join is restored on a right answer, back to the required level |
| HandlerRules.FindPrefix | src/handler.ts:81-83 | the first prefix the body starts with; none iff no prefix matches |
| HandlerRules.CommandArgs | src/handler.ts:86 | the arguments contain no spaces, and joined with spaces they give back the trimmed rest of the body |
| HandlerRules.CommandFor | src/handler.ts:89-95 | `ping`, `space`/`support`/`room` and `help` are selected exactly by their words, and only when the bot may post |
| HandlerRules.ParseCommand | src/handler.ts:80-86 | the arguments of a message: none when no prefix matches or the first match is the empty prefix, else the trimmed, space-split rest after that prefix; its properties are stated by `FindPrefix`, `CommandArgs`, `Handler.WordArgs` and `Handler.EmptyPrefixDisablesCommands` |
| Strings.NatToString | src/lib/utils/timeFormatter.ts:13 | the text is non-empty decimal digits with no leading zero |
| Strings.NatToStringValue | src/lib/utils/timeFormatter.ts:13 | the digits read back as the number |
| Strings.IntToString | src/lib/utils/timeFormatter.ts:19 | a minus sign exactly for negative numbers, followed by the digits of the magnitude |
| Strings.Trim | src/handler.ts:86 | the result neither starts nor ends with whitespace |
| Strings.TrimOnlyRemovesWhitespace | src/handler.ts:86 | the input is whitespace, then the trimmed text, then whitespace |
| Strings.TrimAfterWhitespace | src/handler.ts:86 | leading whitespace before a word with no outer whitespace is trimmed away to give exactly that word |
| Strings.Split | src/handler.ts:86 | at least one piece, and no piece holds the separator |
| Strings.JoinSplit | src/handler.ts:86 | joining the pieces of a split gives the text back |
| Strings.SplitJoin | src/handler.ts:86 | splitting the join of separator-free pieces gives the pieces back |
| TimeFormatter.UnitMs | src/lib/utils/timeFormatter.ts:5-9 | every unit is at least a second |
| TimeFormatter.UnitName | src/lib/utils/timeFormatter.ts:20-24 | unit names are single words of at least three letters |
| TimeFormatter.UnitFor | src/lib/utils/timeFormatter.ts:20-24 | the chosen unit is the largest one the duration reaches |
| TimeFormatter.DisplayNumber | src/lib/utils/timeFormatter.ts:12 | the number `fmt` shows for a quotient; `DisplayRoundsHalfUp`, `ShownAtLeastOne` and `ShownFitsInt32` state what it is |
| TimeFormatter.Fmt | src/lib/utils/timeFormatter.ts:11-14 | sign, shown number, then the unit's first letter or a space, its name and a plural "s" unless the number is 1; read back by `ShortRoundTrip` and `LongRoundTrip` |
| TimeFormatter.Format | src/lib/utils/timeFormatter.ts:16-25 | the formatted duration; `FormatRoundTrip` reads it back as `Meaning` (exact milliseconds below a second, else the largest unit reached and the number rounded half up), and `MillisecondsExact`, `RoundsUpWithinUnit` and `RoundsHalfAwayFromZero` pin concrete cases |
| TimeFormatter.DisplayRoundsHalfUp | src/lib/utils/timeFormatter.ts:12 | a whole quotient is shown as it is; otherwise the shown number is the quotient rounded half up |
| TimeFormatter.ShortRoundTrip | src/lib/utils/timeFormatter.ts:16-25 | the short form reads back as the duration's sign, shown number and unit (or exact milliseconds) |
| TimeFormatter.LongRoundTrip | src/lib/utils/timeFormatter.ts:13 | the long form (number, space, unit name, "s" unless the number is 1) reads back the same way |
| TimeFormatter.FormatRoundTrip | src/lib/utils/timeFormatter.ts:16-25 | both forms read back as the duration's sign, shown number and unit |
| TimeFormatter.ShownAtLeastOne | src/lib/utils/timeFormatter.ts:20-24 | from one second up, the shown number is at least 1 |
| TimeFormatter.ShownFitsInt32 | src/lib/utils/timeFormatter.ts:12 | for every safe integer the shown number fits in 32 bits, so `\|0` and `~~` do not wrap |
| TimeFormatter.RoundsUpWithinUnit | src/lib/utils/timeFormatter.ts:12 | 59 999 ms is shown as "60s" and does not move up to minutes |
| TimeFormatter.RoundsHalfAwayFromZero | src/lib/utils/timeFormatter.ts:17-18 | negative durations round their magnitude, so -1 500 ms is "-2 seconds" and 1 499 ms is "1 second" |
| TimeFormatter.MillisecondsExact | src/lib/utils/timeFormatter.ts:19 | below a second the number is written unrounded with its sign and "ms" |
| Help.EscapeChar | src/commands/help.ts:28-45 | exactly the five special characters are replaced, each by an entity `&...;`; no replacement holds markup |
| Help.Escaped | src/commands/help.ts:27-56 | the per-character escape that `EscapeHtml` is proved equal to; `EscapedConcat`, `EscapedPlain`, `EscapedHasNoMarkup` and `UnescapeEscaped` state its properties |
| Help.EscapedPlain | src/commands/help.ts:16-20 | text without special characters is returned unchanged |
| Help.EscapedConcat | src/commands/help.ts:27-56 | escaping is per character: the escape of a concatenation is the concatenation of the escapes |
| Help.EscapedHasNoMarkup | src/commands/help.ts:27-56 | escaped text holds no raw `<`, `>`, `"` or `'` |
| Help.UnescapeEscaped | src/commands/help.ts:28-43 | decoding the entities gives the original text back |
| Help.FirstSpecial | src/commands/help.ts:16 | the position of the first special character; none iff there is none |
| Help.EscapeHtml | src/commands/help.ts:14-57 | the loop's output is the per-character escape of the input |
| Help.RunHelpCommand | src/commands/help.ts:59-85 | a threaded message gets one threaded notice; otherwise typing starts, the escaped help text is replied, and typing stops; typing is toggled iff the message is not in a thread |
| Help.ReplyShowsHelpText | src/commands/help.ts:77-83 | the escaped help reply decodes to the help text and holds no markup |
| SessionInvariant.DeleteOnlySession | src/handler.ts:168-178 | deleting the user's document for a main room leaves none for that pair |
| Session.OnRoomEvent | src/handler.ts:106-312 | one room event's new documents and calls, with the branch chosen by `content.membership`; stated by `SessionInvariant.RoomEventPreservesValid`, `SessionProperties.NoRedactionInOwnVerificationRoom`, `SessionProperties.RoomRecordedOnlyAfterInvite` and the lemmas on each branch below |
| Session.OnLeave | src/handler.ts:107-118 | the leave branch; stated by `SessionProperties.LeaveClearsVerificationRoom`, `SessionInvariant.LeavePreservesValid` and `SessionProperties.LeaveAddsNoRoom` |
| Session.OnJoin | src/handler.ts:119-244 | a non-bot join, and whether the handler stops; stated by `SessionInvariant.JoinPreservesValid`, `SessionProperties.OwnRoomJoin` and `SessionProperties.MainRoomJoinDispatch` |
| Session.JoinVerificationRoom | src/handler.ts:125-165 | the captcha branch; stated by `SessionProperties.CaptchaJoinStoresAnswer` and `SessionInvariant.JoinVerificationRoomPreservesValid` |
| Session.JoinMainRoom | src/handler.ts:166-241 | the main-room branch; stated by `SessionProperties.MainRoomJoinRecords`, `MainRoomJoinOneSession`, `MainRoomJoinUnfold` and `SessionInvariant.JoinMainRoomPreservesValid` |
| Session.EarlierRoomLeave | src/handler.ts:172-177 | only leave calls; `SessionProperties.MainRoomJoinLeavesEarlierRoom` states which room is left and when |
| Session.SetUpVerificationRoom | src/handler.ts:186-241 | suspend, name lookup and room creation; stated by `SessionProperties.SetUpSuspends`, `SetUpCreatesAndInvites`, `SetUpRecords`, `SetUpAnnounces`, `SetUpPostsNoCaptcha` and `SessionInvariant.SetUpPreservesValid` |
| Session.OpenVerificationRoom | src/handler.ts:213-241 | invite, leave on a failed invite, save and notice; stated through set-up by `SessionProperties.SetUpCreatesAndInvites`, `SetUpRecords` and `SetUpAnnounces` |
| Session.AcceptAnswer | src/handler.ts:256-288 | a correct answer; stated by `SessionProperties.AcceptedAnswerEffects` |
| Session.Gate | src/handler.ts:292-310 | the message gate; stated by `SessionProperties.GateRedactsPendingUsers` |
| Session.OnMessageEvent | src/handler.ts:246-311 | the message part; stated by `SessionProperties.AnswerOutcome`, `AnswerDispatch`, `MessageInOwnRoomNotRedacted`, `MessageAddsNoRoom` and `SessionInvariant.MessagePreservesValid` |
| SessionInvariant.LeavePreservesValid | src/handler.ts:107-118 | a leave keeps the documents valid |
| SessionInvariant.JoinVerificationRoomPreservesValid | src/handler.ts:119-165 | storing a captcha solution keeps the documents valid |
| SessionInvariant.SetUpPreservesValid | src/handler.ts:186-241 | setting up the verification room keeps the documents valid |
| SessionInvariant.JoinMainRoomPreservesValid | src/handler.ts:166-241 | a main-room join keeps the documents valid, including one document per user and main room |
| SessionInvariant.JoinPreservesValid | src/handler.ts:119-244 | any join keeps the documents valid |
| SessionInvariant.MessagePreservesValid | src/handler.ts:246-310 | a message keeps the documents valid |
| SessionInvariant.RoomEventPreservesValid | src/handler.ts:106-312 | every room event keeps the documents valid |
| SessionProperties.KeptIsOthers | src/handler.ts:168-179 | after the earlier document is dropped, exactly the other users' and rooms' documents remain |
| SessionProperties.SetUpRecords | src/handler.ts:184-239 | after set-up the new document holds the created room iff the main room has power levels and a name, the room was created, the invite succeeded, and no other document already holds that room |
| SessionProperties.MainRoomJoinDispatch | src/handler.ts:119-166 | a non-bot join into a room that is no document's verification room takes the main-room branch |
| SessionProperties.MainRoomJoinRecords | src/handler.ts:166-239 | a main-room join leaves the other documents, then one fresh document for the joiner with no answer and the room only if set-up succeeded |
| SessionProperties.MainRoomJoinOneSession | src/handler.ts:166-184 | after a main-room join there is exactly one document for the joiner and room, and it has no answer |
| SessionProperties.SetUpSuspends | src/handler.ts:186-205 | set-up sets a power level iff the room has power levels, the bot can modify and the user can post; that level is one below the required one |
| SessionProperties.SetUpCreatesAndInvites | src/handler.ts:207-236 | the user is invited iff power levels exist, a room name was found and creation succeeded; the room is named after the main room; on a failed invite the bot leaves the new room last |
| SessionProperties.SetUpPostsNoCaptcha | src/handler.ts:186-241 | set-up never redacts, sends receipts or posts a captcha |
| SessionProperties.MainRoomJoinUnfold | src/handler.ts:166-241 | a main-room join is: leave the earlier room, keep the others, store the fresh document, set up |
| SessionProperties.SetUpAnnounces | src/handler.ts:238-241 | a successful set-up ends with the "Generating Captcha" notice in the new room |
| SessionProperties.MainRoomJoinSuspends | src/handler.ts:186-205 | a main-room join lowers the joiner to one below the required level iff power levels exist, the bot can modify and the user can post |
| SessionProperties.MainRoomJoinCreatesRoom | src/handler.ts:207-241 | a main-room join invites the joiner iff power levels exist, a name was found and the room was created; a failed invite ends with leaving the room; success ends with the announcement |
| SessionProperties.MainRoomJoinLeavesEarlierRoom | src/handler.ts:172-177 | the bot first leaves the earlier document's verification room if it is still joined to it; a main-room join never redacts or posts a captcha |
| SessionProperties.CaptchaJoinStoresAnswer | src/handler.ts:119-165 | a join into a verification room stores the generated solution on that document, keeps its other fields and all other documents, and posts the notice and image |
| SessionProperties.AnswerOutcome | src/handler.ts:246-290 | an answer is marked read; the exact solution, when the main room has a power-levels event, deletes the document, frees the room, posts the completion notice, restores the level iff the bot can modify it and the user cannot post, and leaves last; without that event, or with any other body, the answer is only marked read and nothing else changes; nothing is redacted |
| SessionProperties.AnswerDispatch | src/handler.ts:252-255 | an answer takes the accepting branch iff the body equals the stored solution exactly |
| SessionProperties.AcceptedAnswerEffects | src/handler.ts:255-288 | with the main room's power-levels event present, accepting marks read, deletes the document, posts the completion notice, restores only a user who cannot post, and ends by leaving with "Verification Complete" |
| SessionProperties.ResubmitAfterVerification | src/handler.ts:246-292 | sending the solution again after verifying has no effect |
| SessionProperties.GateRedactsPendingUsers | src/handler.ts:292-310 | a message is redacted iff the sender has no document for this verification room, has one for this main room, the bot's own id is non-empty, and the bot may redact; the redaction has the fixed reason; without a verification document the documents are unchanged |
| SessionProperties.MessageInOwnRoomNotRedacted | src/handler.ts:246-310 | a message in the sender's own verification room is never redacted |
| SessionProperties.OwnRoomJoin | src/handler.ts:119-165 | a join into the joiner's own verification room redacts nothing and keeps that document's user and room |
| SessionProperties.NoRedactionInOwnVerificationRoom | src/handler.ts:106-312 | no event in a user's own verification room leads to redacting that user's message |
| SessionProperties.DeleteAddsNoRoom | src/handler.ts:178 | deleting a document records no new verification room |
| SessionProperties.MessageAddsNoRoom | src/handler.ts:246-310 | a message records no new verification room |
| SessionProperties.LeaveAddsNoRoom | src/handler.ts:107-118 | a leave records no new verification room |
| SessionProperties.CaptchaJoinAddsNoRoom | src/handler.ts:119-165 | a join into a verification room records no new verification room |
| SessionProperties.RecordedRoomOfMainJoin | src/handler.ts:231-239 | a room newly recorded by a main-room join is the created room, and the joiner was invited to it |
| SessionProperties.RoomRecordedOnlyAfterInvite | src/handler.ts:213-239 | any event that records a new verification room is a main-room join whose created room was invited to successfully |
| SessionProperties.LeaveClearsVerificationRoom | src/handler.ts:107-118 | a leave clears the verification room of the document that holds it and changes nothing else; the bot leaves iff at most two members are listed |
| Scenario.JoinMainStep | src/handler.ts:166-241 | the first join into the main room stores the document with the new room, lowers the user to 9, creates the room, invites and announces |
| Scenario.JoinVerificationStep | src/handler.ts:119-165 | joining the verification room stores the solution and posts the captcha |
| Scenario.WrongAnswerStep | src/handler.ts:246-290 | a wrong answer is only marked read |
| Scenario.RightAnswerStep | src/handler.ts:246-290 | the right answer marks read, announces completion, restores level 10, leaves and deletes the document |
| Scenario.LeaveMainRoomStep | src/handler.ts:107-118 | leaving the main room keeps the document and, with five members, the bot stays |
| Handler.Store.constructor | src/lib/schemas/verifying.ts:28 | the collection starts with the given documents |
| Handler.Store.Find | src/handler.ts:111-113 | the lookup returns the first matching document |
| Handler.Store.Store | src/lib/schemas/verifying.ts:10-22 | the collection changes exactly as a successful save says, and not at all on failure |
| Handler.Store.Delete | src/handler.ts:287 | the collection loses exactly that document |
| Handler.Client.Call | src/handler.ts:106-312 | a call is appended to the log of calls sent |
| Handler.MessageCommand | src/handler.ts:69-95 | the command a message selects; stated by `CommandNeedsPrefix`, `PrefixedCommand`, `MissingDisplayNameAnswersUndefined` and `EmptyPrefixDisablesCommands` |
| Handler.CommandNeedsPrefix | src/handler.ts:69-83 | a command is selected only for an unredacted text message from someone other than the bot, when the bot may post and a non-empty prefix matches |
| Handler.PrefixedCommand | src/handler.ts:80-95 | the prefix, any whitespace, then one word selects the word's command |
| Handler.WordArgs | src/handler.ts:86 | after the prefix and whitespace, a single word is the only argument |
| Handler.MissingDisplayNameAnswersUndefined | src/handler.ts:80-81 | without a display name, a message starting "undefined:" is taken as addressed to the bot |
| Handler.EmptyPrefixDisablesCommands | src/handler.ts:81-83 | an empty configured prefix matches every body and then fails the truthiness test, so no command runs |
| Handler.CommandHandler.constructor | src/handler.ts:27-34 | the prefix is the configured one or "!gate", and no profile is cached yet |
| Handler.CommandHandler.PrepareProfile | src/handler.ts:46-57 | caches the bot's id and localpart, and the display name only when the profile has a non-empty one |
| Handler.CommandHandler.OnMessage | src/handler.ts:69-95 | the command run is the one `MessageCommand` selects |
| Handler.CommandHandler.OnRoomEvent | src/handler.ts:106-312 | the documents and sent calls change as the transition function says, and the documents stay valid |
| Handler.CommandHandler.Dispatch | src/handler.ts:106-312 | the branches are chosen by the event's membership and type as the transition function says |
| Handler.CommandHandler.Join | src/handler.ts:119-244 | a join changes the documents and calls as `OnJoin` says, and says whether handling stopped |
| Handler.CommandHandler.Leave | src/handler.ts:107-118 | a leave changes the documents and calls as `OnLeave` says |
| Handler.CommandHandler.IssueCaptcha | src/handler.ts:125-165 | the captcha branch changes the documents and calls as `JoinVerificationRoom` says |
| Handler.CommandHandler.Welcome | src/handler.ts:166-241 | the main-room branch changes the documents and calls as `JoinMainRoom` says |
| Handler.CommandHandler.DropEarlier | src/handler.ts:168-179 | the earlier document is dropped and its room left as `EarlierRoomLeave` says |
| Handler.CommandHandler.SetUpRoom | src/handler.ts:186-241 | set-up changes the documents and calls as `SetUpVerificationRoom` says |
| Handler.CommandHandler.OpenRoom | src/handler.ts:213-241 | room creation, invite, save and notice happen as `OpenVerificationRoom` says |
| Handler.CommandHandler.HandleMessage | src/handler.ts:246-310 | the message part changes the documents and calls as `OnMessageEvent` says |
| Handler.CommandHandler.Accept | src/handler.ts:255-288 | accepting changes the documents and calls as `AcceptAnswer` says |

## Left out

- Verifying.Validate: reports only the first failing required field, where Mongoose's `ValidationError` lists every failing path.
- Chat client calls (`getRoomMembers`, `getJoinedRooms`, `userHasPowerLevelFor`, `calculatePowerLevelChangeBoundsOn`, `userHasPowerLevelForAction`, `getRoomStateEvent`, `getPublishedAlias`, `getRoomState`, `createRoom`, `inviteUser`, `uploadContent`, `sendHtmlNotice`, `redactEvent`, `MentionPill`) are network I/O. Their answers are fields of `Replies` and the changing calls are `Effect`s. An uncaught failure of any call other than the captcha, room-name, `createRoom` and power-levels lookups is not modelled. For example, a throw from `getRoomMembers` (src/handler.ts:108) would end the leave branch before the document's room is cleared; the model goes on to clear it.
- `new UserID(userId).localpart` is library parsing: `PrepareProfile` takes the localpart as a parameter.
- The MongoDB connection, durability of `save`/`deleteOne`, and the unique index's treatment of several documents without a `verificationRoomId` are library behaviour. Only a present room is checked for uniqueness.
- The `deleteOne()` at src/handler.ts:178 is not awaited. The model treats it as done before the following save, one event at a time.
- Concurrency between handlers is left out, as is the un-awaited `setTyping` at src/commands/help.ts:63. Events are handled one at a time.
- Captcha image generation and upload (src/handler.ts:131-162) are image rendering. The solution string is a reply and the image one `SendCaptchaImage` call.
- `onRoomJoin` (src/handler.ts:59-67) only leaves spaces on the bot's own join. It is I/O with no state and is not part of this model.
- `start` and `mongoose.connect` are process start-up. `src/commands/ping.ts` and `src/commands/space.ts` only send messages and are not part of this model.
- Handler.CommandHandler.OnMessage: it returns the selected command rather than running it. The try/catch around the commands and its error notice (src/handler.ts:96-103) are not modelled. The help command's calls are modelled by `Help.RunHelpCommand`.
- TimeFormatter.Format: durations are integer milliseconds, and the division is exact. Floating-point rounding of `abs / unit` at a half is not modelled, and the 32-bit truncation of `|0` and `~~` is covered only up to 2^53 - 1 (`ShownFitsInt32`).
- A main-room join has no check on the room's member count: every non-bot join into a room that is no document's verification room starts a verification. Leaving the main room keeps the user's document: only a leave in the verification room clears its room field (`Scenario.LeaveMainRoomStep`).
