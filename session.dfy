/** What `CommandHandler.onRoomEvent` (src/handler.ts:106-312) does with one
    room event, as a function from the stored documents, the event and the
    chat server's replies to the new documents and the calls the bot makes.

    Every call into the chat client is either a reply (a field of `Replies`,
    read where the handler awaits it) or an `Effect` appended in the order
    the handler issues it. A call that throws ends the handler: the model
    stops there and keeps what was already saved. */
module Session {
  import opened Wrappers
  import opened Verifying
  import opened HandlerRules

  /** The parts of an event's `content` the handler looks at. */
  datatype Content = Content(
    membership: Option<string>,  // `content.membership`
    body: Option<string>,        // `content.body`
    msgtype: Option<string>)     // `content.msgtype`

  datatype Event = Event(
    eventType: string,           // `type`
    sender: string,
    eventId: string,
    content: Content,
    redacted: bool)

  /** What the chat server (and the captcha generator) answer while one
      event is handled. */
  datatype Replies = Replies(
    memberCount: nat,                  // `getRoomMembers(roomId).length`
    joinedRooms: set<string>,          // `getJoinedRooms()`
    userCanSend: bool,                 // `userHasPowerLevelFor(user, mainRoom, 'm.room.message')`
    canModify: bool,                   // `calculatePowerLevelChangeBoundsOn(user, mainRoom).canModify`
    powerLevels: Option<PowerLevels>,  // the main room's `m.room.power_levels`, if it has one
    mainRoomLabel: Option<string>,     // its published alias, else its `m.room.name`; none: the lookup threw
    createdRoom: Option<string>,       // what `createRoom` resolved to; none: it failed
    inviteOk: bool,                    // `inviteUser` succeeded
    captcha: Option<string>,           // the solution of a generated and uploaded captcha; none: that threw
    botCanRedact: bool)                // `userHasPowerLevelForAction(bot, mainRoom, RedactEvents)`

  datatype Notice =
    | GeneratingCaptcha                       // "Generating Captcha..."
    | SolveCaptcha(mainRoomId: string)        // "Please solve the following captcha to gain access to ..."
    | VerificationComplete(mainRoomId: string)

  /** A call the bot makes that changes something on the chat server. */
  datatype Effect =
    | LeaveRoom(roomId: string, reason: Option<string>)
    | SetPowerLevel(userId: string, roomId: string, level: int)
    | CreateRoom(name: string)
    | Invite(userId: string, roomId: string)
    | SendNotice(roomId: string, notice: Notice)
    | SendCaptchaImage(roomId: string)
    | ReadReceipt(roomId: string, eventId: string)
    | Redact(roomId: string, eventId: string, why: string)

  datatype Outcome = Outcome(records: seq<Verifying>, effects: seq<Effect>)

  const RedactReason := "User has not yet completed verification"
  const CompleteReason := "Verification Complete"

  /** JavaScript truthiness of an optional string. */
  predicate Truthy(v: Option<string>) {
    v.Some? && v.value != ""
  }

  /** `sender === this.userId`, where the bot's id may not be known yet. */
  predicate IsBot(bot: Option<string>, sender: string) {
    bot == Some(sender)
  }

  /** The handler's table invariant: every document passes the schema, no
      two share a verification room, and no two belong to the same user and
      main room. */
  ghost predicate Valid(recs: seq<Verifying>) {
    && AllSchemaValid(recs)
    && UniqueVerificationRooms(recs)
    && UniqueSessions(recs)
  }

  predicate UniqueSessions(recs: seq<Verifying>) {
    forall i, j :: 0 <= i < |recs| && 0 <= j < |recs| && i != j ==>
      !(recs[i].userId == recs[j].userId && recs[i].mainRoomId == recs[j].mainRoomId)
  }

  /** A leave (lines 107-118): leave the room when at most two members are
      listed, and forget the room on the document whose verification room
      it is. */
  function OnLeave(recs: seq<Verifying>, room: string, rep: Replies): Outcome {
    var left := if rep.memberCount <= 2 then [LeaveRoom(room, None)] else [];
    match FindOne(recs, ByVerificationRoom(room))
    case None => Outcome(recs, left)
    case Some(i) =>
      match Save(recs, Some(i), recs[i].(verificationRoomId := None))
      case Success(saved) => Outcome(saved, left)
      case Failure(_) => Outcome(recs, left)
  }

  /** A non-bot join into a document's verification room (lines 125-165):
      post the captcha and store its solution on that document. The flag
      says whether the handler stopped because a call threw. */
  function JoinVerificationRoom(recs: seq<Verifying>, i: nat, rep: Replies): (Outcome, bool)
    requires i < |recs| && recs[i].verificationRoomId.Some?
  {
    match rep.captcha
    case None => (Outcome(recs, []), true)
    case Some(solution) =>
      var data := recs[i];
      var room := data.verificationRoomId.value;
      var sent := [SendNotice(room, SolveCaptcha(data.mainRoomId)), SendCaptchaImage(room)];
      match Save(recs, Some(i), data.(captchaAnswer := Some(solution)))
      case Success(saved) => (Outcome(saved, sent), false)
      case Failure(_) => (Outcome(recs, sent), true)
  }

  /** A non-bot join into a room that is no document's verification room
      (lines 166-241): drop any earlier document of this user for this room
      (leaving its verification room if the bot is still in it), store a
      fresh one, then set up the verification room. There is no check on the
      room's member count. */
  function JoinMainRoom(recs: seq<Verifying>, room: string, sender: string, rep: Replies): Outcome {
    var pre := FindOne(recs, ByUserAndMainRoom(sender, room));
    var leaveOld := EarlierRoomLeave(recs, sender, room, rep);
    var kept := if pre.Some? then DeleteOne(recs, pre.value) else recs;
    var data := Verifying(sender, room, None, None);
    match Save(kept, None, data)
    case Failure(_) => Outcome(kept, leaveOld)
    case Success(stored) => SetUpVerificationRoom(stored, data, leaveOld, rep)
  }

  /** Lines 172-177: the bot leaves the verification room of the user's
      earlier document for this main room, if it is still in it. */
  function EarlierRoomLeave(recs: seq<Verifying>, sender: string, room: string, rep: Replies): (r: seq<Effect>)
    ensures forall e :: e in r ==> e.LeaveRoom?
  {
    var pre := FindOne(recs, ByUserAndMainRoom(sender, room));
    if pre.Some? && Truthy(recs[pre.value].verificationRoomId)
       && recs[pre.value].verificationRoomId.value in rep.joinedRooms
    then [LeaveRoom(recs[pre.value].verificationRoomId.value, None)]
    else []
  }

  /** Lines 186-241, with the fresh document `data` stored last: lower the
      user's level, create the room, invite the user, and only then record
      the room on the document. */
  function SetUpVerificationRoom(recs: seq<Verifying>, data: Verifying, before: seq<Effect>, rep: Replies): Outcome
    requires |recs| > 0 && recs[|recs| - 1] == data
  {
    match rep.powerLevels
    case None => Outcome(recs, before)
    case Some(pl) =>
      var suspend :=
        (match SuspendTo(pl, rep.canModify, rep.userCanSend)
         case None => []
         case Some(level) => [SetPowerLevel(data.userId, data.mainRoomId, level)]);
      var suspended := before + suspend;
      match rep.mainRoomLabel
      case None => Outcome(recs, suspended)
      case Some(name) => OpenVerificationRoom(recs, data, suspended + [CreateRoom("Verification | " + name)], rep)
  }

  /** Lines 213-241, after the call that creates the room: with a room
      created, invite the user (leaving the room when that fails), then
      record the room on the document and announce the captcha. */
  function OpenVerificationRoom(recs: seq<Verifying>, data: Verifying, creating: seq<Effect>, rep: Replies): Outcome
    requires |recs| > 0 && recs[|recs| - 1] == data
  {
    if !Truthy(rep.createdRoom) then Outcome(recs, creating)
    else
      var v := rep.createdRoom.value;
      var inviting := creating + [Invite(data.userId, v)];
      if !rep.inviteOk then Outcome(recs, inviting + [LeaveRoom(v, None)])
      else
        match Save(recs, Some(|recs| - 1), data.(verificationRoomId := Some(v)))
        case Failure(_) => Outcome(recs, inviting)
        case Success(saved) => Outcome(saved, inviting + [SendNotice(v, GeneratingCaptcha)])
  }

  /** A non-bot join (lines 119-243). The flag says whether the handler has
      returned or thrown; otherwise it goes on to the message check. */
  function OnJoin(recs: seq<Verifying>, room: string, sender: string, rep: Replies): (Outcome, bool) {
    match FindOne(recs, ByVerificationRoom(room))
    case Some(i) =>
      if Truthy(recs[i].verificationRoomId) then JoinVerificationRoom(recs, i, rep)
      else (Outcome(recs, []), false)
    case None => (JoinMainRoom(recs, room, sender, rep), true)
  }

  /** A correct answer (lines 256-288): with the main room's power levels
      known, announce success, restore the user's level if needed, leave
      the verification room and delete the document. */
  function AcceptAnswer(recs: seq<Verifying>, i: nat, room: string, rep: Replies, before: seq<Effect>): Outcome
    requires i < |recs|
  {
    var data := recs[i];
    match rep.powerLevels
    case None => Outcome(recs, before)
    case Some(pl) =>
      var restore :=
        (match RestoreTo(pl, rep.canModify, rep.userCanSend)
         case None => []
         case Some(level) => [SetPowerLevel(data.userId, data.mainRoomId, level)]);
      Outcome(
        DeleteOne(recs, i),
        before + [SendNotice(room, VerificationComplete(data.mainRoomId))] + restore
          + [LeaveRoom(room, Some(CompleteReason))])
  }

  /** The message gate (lines 292-310): a message from a user who has a
      document for this room as main room is redacted, if the bot knows a
      non-empty id of its own (`if (!userId) return`) and may redact. */
  function Gate(bot: Option<string>, recs: seq<Verifying>, room: string, ev: Event, rep: Replies): Outcome {
    match FindOne(recs, ByUserAndMainRoom(ev.sender, room))
    case None => Outcome(recs, [])
    case Some(_) =>
      if Truthy(bot) && rep.botCanRedact then Outcome(recs, [Redact(room, ev.eventId, RedactReason)])
      else Outcome(recs, [])
  }

  /** Lines 246-311: a non-empty message from someone other than the bot is
      either a captcha answer in the sender's verification room, or goes
      through the message gate. A wrong answer changes nothing. */
  function OnMessageEvent(bot: Option<string>, recs: seq<Verifying>, room: string, ev: Event, rep: Replies): Outcome {
    if !(ev.eventType == "m.room.message" && Truthy(ev.content.body) && !IsBot(bot, ev.sender)) then
      Outcome(recs, [])
    else
      match FindOne(recs, ByUserAndVerificationRoom(ev.sender, room))
      case None => Gate(bot, recs, room, ev, rep)
      case Some(i) =>
        if !Truthy(recs[i].captchaAnswer) then Outcome(recs, [])
        else
          var receipt := [ReadReceipt(room, ev.eventId)];
          if recs[i].captchaAnswer.value == ev.content.body.value then AcceptAnswer(recs, i, room, rep, receipt)
          else Outcome(recs, receipt)
  }

  /** `onRoomEvent` for one event in `room`. The branches are chosen by
      `content.membership`, whatever the event's type. */
  function OnRoomEvent(bot: Option<string>, recs: seq<Verifying>, room: string, ev: Event, rep: Replies): Outcome {
    if ev.content.membership == Some("leave") then OnLeave(recs, room, rep)
    else
      var joined :=
        if ev.content.membership == Some("join") && !IsBot(bot, ev.sender) then OnJoin(recs, room, ev.sender, rep)
        else (Outcome(recs, []), false);
      if joined.1 then joined.0
      else
        var after := OnMessageEvent(bot, joined.0.records, room, ev, rep);
        Outcome(after.records, joined.0.effects + after.effects)
  }
}
