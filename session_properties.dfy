/** What each branch of `onRoomEvent` (src/handler.ts:106-312) does to the
    stored documents and which calls it makes, stated against the model in
    `Session` for every input that reaches the branch. */
module SessionProperties {
  import opened Wrappers
  import opened Verifying
  import opened HandlerRules
  import opened Session
  import opened SessionInvariant

  /** Some document has `room` as its verification room. */
  predicate RoomInUse(recs: seq<Verifying>, room: string) {
    exists j :: 0 <= j < |recs| && recs[j].verificationRoomId == Some(room)
  }

  /** The documents that do not belong to `user` in main room `room`, in
      their stored order. */
  function Others(recs: seq<Verifying>, user: string, room: string): (r: seq<Verifying>)
    ensures NoSession(r, user, room) && |r| <= |recs|
  {
    if recs == [] then []
    else (if SameSession(recs[0], user, room) then [] else [recs[0]]) + Others(recs[1..], user, room)
  }

  lemma {:induction false} OthersConcat(a: seq<Verifying>, b: seq<Verifying>, user: string, room: string)
    ensures Others(a + b, user, room) == Others(a, user, room) + Others(b, user, room)
  {
    if a == [] {
      assert a + b == b;
    } else {
      var head := if SameSession(a[0], user, room) then [] else [a[0]];
      var rest, tail := Others(a[1..], user, room), Others(b, user, room);
      assert Others(a + b, user, room) == head + Others(a[1..] + b, user, room) by {
        assert (a + b)[0] == a[0] && (a + b)[1..] == a[1..] + b;
      }
      OthersConcat(a[1..], b, user, room);
      assert head + (rest + tail) == (head + rest) + tail;
    }
  }

  lemma {:induction false} OthersOfNoSession(a: seq<Verifying>, user: string, room: string)
    requires NoSession(a, user, room)
    ensures Others(a, user, room) == a
  {
    if a != [] {
      assert NoSession(a[1..], user, room) by {
        forall j | 0 <= j < |a[1..]| ensures !SameSession(a[1..][j], user, room) {
          assert a[1..][j] == a[j + 1];
        }
      }
      OthersOfNoSession(a[1..], user, room);
      assert a == [a[0]] + a[1..];
    }
  }

  lemma OthersOfSession(d: Verifying, user: string, room: string)
    requires SameSession(d, user, room)
    ensures Others([d], user, room) == []
  {
    assert [d][1..] == [];
  }

  lemma NoSessionAround(recs: seq<Verifying>, p: nat, user: string, room: string)
    requires UniqueSessions(recs) && p < |recs| && SameSession(recs[p], user, room)
    ensures NoSession(recs[..p], user, room) && NoSession(recs[p + 1..], user, room)
  {
    forall j | 0 <= j < p ensures !SameSession(recs[..p][j], user, room) {
      assert recs[..p][j] == recs[j];
    }
    var after := recs[p + 1..];
    forall j | 0 <= j < |after| ensures !SameSession(after[j], user, room) {
      assert after[j] == recs[p + 1 + j];
    }
  }

  /** Removing the only document of a session is filtering the session
      out. */
  lemma OthersAroundSession(recs: seq<Verifying>, p: nat, user: string, room: string)
    requires p < |recs| && SameSession(recs[p], user, room)
    requires NoSession(recs[..p], user, room) && NoSession(recs[p + 1..], user, room)
    ensures Others(recs, user, room) == recs[..p] + recs[p + 1..]
  {
    var before, after := recs[..p], recs[p + 1..];
    var rest := [recs[p]] + after;
    assert recs == before + rest;
    assert Others(rest, user, room) == after by {
      OthersConcat([recs[p]], after, user, room);
      OthersOfSession(recs[p], user, room);
      OthersOfNoSession(after, user, room);
      assert [] + after == after;
    }
    OthersConcat(before, rest, user, room);
    OthersOfNoSession(before, user, room);
  }

  /** What a main-room join keeps of the earlier documents: exactly the
      ones of other users or other rooms. */
  lemma KeptIsOthers(recs: seq<Verifying>, room: string, sender: string)
    requires UniqueSessions(recs)
    ensures var pre := FindOne(recs, ByUserAndMainRoom(sender, room));
            (if pre.Some? then DeleteOne(recs, pre.value) else recs) == Others(recs, sender, room)
  {
    match FindOne(recs, ByUserAndMainRoom(sender, room))
    case None =>
      OthersOfNoSession(recs, sender, room);
    case Some(p) =>
      NoSessionAround(recs, p, sender, room);
      OthersAroundSession(recs, p, sender, room);
  }

  /** All four steps of setting up a verification room succeeded, and the
      created room is not already some other document's. */
  predicate SetUpSucceeds(others: seq<Verifying>, rep: Replies) {
    && rep.powerLevels.Some?
    && rep.mainRoomLabel.Some?
    && Truthy(rep.createdRoom)
    && rep.inviteOk
    && !RoomInUse(others, rep.createdRoom.value)
  }

  lemma SetUpRecords(kept: seq<Verifying>, data: Verifying, before: seq<Effect>, rep: Replies)
    requires SchemaValid(data) && data.verificationRoomId.None?
    ensures SetUpVerificationRoom(kept + [data], data, before, rep).records
         == kept + [data.(verificationRoomId := if SetUpSucceeds(kept, rep) then rep.createdRoom else None)]
  {
    var stored := kept + [data];
    if rep.powerLevels.Some? && rep.mainRoomLabel.Some? && Truthy(rep.createdRoom) && rep.inviteOk {
      var v := rep.createdRoom.value;
      assert RoomTaken(stored, v, Some(|stored| - 1)) <==> RoomInUse(kept, v) by {
        if RoomInUse(kept, v) {
          var j :| 0 <= j < |kept| && kept[j].verificationRoomId == Some(v);
          assert stored[j] == kept[j];
        }
        if RoomTaken(stored, v, Some(|stored| - 1)) {
          var j :| 0 <= j < |stored| && Some(j) != Some(|stored| - 1) && stored[j].verificationRoomId == Some(v);
          assert kept[j] == stored[j];
        }
      }
      assert stored[|stored| - 1 := data.(verificationRoomId := Some(v))]
          == kept + [data.(verificationRoomId := Some(v))];
    }
  }

  /** An event that reaches the main-room branch: a join by someone other
      than the bot into a room that is no document's verification room. */
  predicate MainRoomJoin(bot: Option<string>, recs: seq<Verifying>, room: string, ev: Event) {
    ev.content.membership == Some("join") && !IsBot(bot, ev.sender) && !RoomInUse(recs, room)
  }

  lemma MainRoomJoinDispatch(bot: Option<string>, recs: seq<Verifying>, room: string, ev: Event, rep: Replies)
    requires MainRoomJoin(bot, recs, room, ev)
    ensures OnRoomEvent(bot, recs, room, ev, rep) == JoinMainRoom(recs, room, ev.sender, rep)
  {
    assert FindOne(recs, ByVerificationRoom(room)).None?;
  }

  /** A main-room join replaces whatever document the user had for the room
      by exactly one fresh document, stored last, with no captcha answer;
      every other document stays, in order. The fresh document names the
      created room exactly when power levels were read, the room's label
      was found, the room was created, the user was invited, and no other
      document already uses that room. There is no member-count guard. */
  lemma MainRoomJoinRecords(bot: Option<string>, recs: seq<Verifying>, room: string, ev: Event, rep: Replies)
    requires Valid(recs) && MainRoomJoin(bot, recs, room, ev)
    requires ev.sender != "" && room != ""  // Matrix user and room ids are never empty
    ensures var others := Others(recs, ev.sender, room);
            OnRoomEvent(bot, recs, room, ev, rep).records
            == others + [Verifying(ev.sender, room, if SetUpSucceeds(others, rep) then rep.createdRoom else None, None)]
  {
    MainRoomJoinDispatch(bot, recs, room, ev, rep);
    var sender := ev.sender;
    KeptIsOthers(recs, room, sender);
    var kept := Others(recs, sender, room);
    var data := Verifying(sender, room, None, None);
    assert Save(kept, None, data) == Success(kept + [data]);
    var pre := FindOne(recs, ByUserAndMainRoom(sender, room));
    var leaveOld :=
      if pre.Some? && Truthy(recs[pre.value].verificationRoomId)
         && recs[pre.value].verificationRoomId.value in rep.joinedRooms
      then [LeaveRoom(recs[pre.value].verificationRoomId.value, None)]
      else [];
    SetUpRecords(kept, data, leaveOld, rep);
  }

  /** After a main-room join, the joining user has exactly one document for
      that room. */
  lemma MainRoomJoinOneSession(bot: Option<string>, recs: seq<Verifying>, room: string, ev: Event, rep: Replies)
    returns (k: nat)
    requires Valid(recs) && MainRoomJoin(bot, recs, room, ev)
    requires ev.sender != "" && room != ""  // Matrix user and room ids are never empty
    ensures var out := OnRoomEvent(bot, recs, room, ev, rep).records;
            && k < |out| && SameSession(out[k], ev.sender, room) && out[k].captchaAnswer.None?
            && forall j :: 0 <= j < |out| && j != k ==> !SameSession(out[j], ev.sender, room)
  {
    MainRoomJoinRecords(bot, recs, room, ev, rep);
    k := |Others(recs, ev.sender, room)|;
  }

  /** The calls that lower the user's level, as set up by
      `SetUpVerificationRoom` after the calls in `before`. */
  lemma SetUpSuspends(stored: seq<Verifying>, data: Verifying, before: seq<Effect>, rep: Replies)
    requires |stored| > 0 && stored[|stored| - 1] == data
    requires forall e :: e in before ==> e.LeaveRoom?
    ensures var effs := SetUpVerificationRoom(stored, data, before, rep).effects;
      && before <= effs
      && ((exists e :: e in effs && e.SetPowerLevel?) <==> rep.powerLevels.Some? && rep.canModify && rep.userCanSend)
      && (rep.powerLevels.Some? && rep.canModify && rep.userCanSend ==>
            SetPowerLevel(data.userId, data.mainRoomId, RequiredPower(rep.powerLevels.value) - 1) in effs)
  {
    match rep.powerLevels
    case None =>
    case Some(pl) =>
      var suspend :=
        (match SuspendTo(pl, rep.canModify, rep.userCanSend)
         case None => []
         case Some(level) => [SetPowerLevel(data.userId, data.mainRoomId, level)]);
      var suspended := before + suspend;
      var effs := SetUpVerificationRoom(stored, data, before, rep).effects;
      assert suspended <= effs && forall k :: |suspended| <= k < |effs| ==> !effs[k].SetPowerLevel? by {
        if rep.mainRoomLabel.Some? {
          var creating := suspended + [CreateRoom("Verification | " + rep.mainRoomLabel.value)];
          OpenAppends(stored, data, creating, rep);
        }
      }
      if rep.canModify && rep.userCanSend {
        assert effs[|before|] == suspended[|before|];
      } else {
        assert suspended == before;
        assert forall e :: e in effs ==> !e.SetPowerLevel? by {
          forall e | e in effs ensures !e.SetPowerLevel? {
            var k :| 0 <= k < |effs| && effs[k] == e;
            if k < |before| {
              assert before[k] == e;
            }
          }
        }
      }
  }

  /** Opening the verification room only appends calls, and none of them
      changes a power level. */
  lemma OpenAppends(recs: seq<Verifying>, data: Verifying, creating: seq<Effect>, rep: Replies)
    requires |recs| > 0 && recs[|recs| - 1] == data
    ensures var effs := OpenVerificationRoom(recs, data, creating, rep).effects;
      creating <= effs && forall k :: |creating| <= k < |effs| ==> !effs[k].SetPowerLevel?
  {
  }

  /** The room is created and the user invited only once the power levels
      and the main room's label are known; a failed invite is followed by
      leaving the new room. */
  lemma SetUpCreatesAndInvites(stored: seq<Verifying>, data: Verifying, before: seq<Effect>, rep: Replies)
    requires |stored| > 0 && stored[|stored| - 1] == data
    requires forall e :: e in before ==> e.LeaveRoom?
    ensures var effs := SetUpVerificationRoom(stored, data, before, rep).effects;
      && ((exists e :: e in effs && e.Invite?) <==>
            rep.powerLevels.Some? && rep.mainRoomLabel.Some? && Truthy(rep.createdRoom))
      && (rep.powerLevels.Some? && rep.mainRoomLabel.Some? && Truthy(rep.createdRoom) ==>
            && CreateRoom("Verification | " + rep.mainRoomLabel.value) in effs
            && Invite(data.userId, rep.createdRoom.value) in effs)
      && (rep.powerLevels.Some? && rep.mainRoomLabel.Some? && Truthy(rep.createdRoom) && !rep.inviteOk ==>
            effs[|effs| - 1] == LeaveRoom(rep.createdRoom.value, None))
  {
    match rep.powerLevels
    case None =>
    case Some(pl) =>
      var suspend :=
        (match SuspendTo(pl, rep.canModify, rep.userCanSend)
         case None => []
         case Some(level) => [SetPowerLevel(data.userId, data.mainRoomId, level)]);
      var suspended := before + suspend;
      assert forall e :: e in suspended ==> !e.Invite?;
      match rep.mainRoomLabel
      case None =>
      case Some(name) =>
        var creating := suspended + [CreateRoom("Verification | " + name)];
        var effs := SetUpVerificationRoom(stored, data, before, rep).effects;
        assert creating <= effs;
        assert creating[|suspended|] in effs;
        if Truthy(rep.createdRoom) {
          var inviting := creating + [Invite(data.userId, rep.createdRoom.value)];
          assert inviting <= effs;
          assert inviting[|creating|] in effs;
        } else {
          assert effs == creating;
        }
  }

  /** Setting up a verification room redacts nothing and posts no captcha. */
  lemma SetUpPostsNoCaptcha(stored: seq<Verifying>, data: Verifying, before: seq<Effect>, rep: Replies)
    requires |stored| > 0 && stored[|stored| - 1] == data
    requires forall e :: e in before ==> e.LeaveRoom?
    ensures forall e :: e in SetUpVerificationRoom(stored, data, before, rep).effects ==>
              !e.Redact? && !e.ReadReceipt? && !e.SendCaptchaImage?
  {
  }

  lemma MainRoomJoinUnfold(bot: Option<string>, recs: seq<Verifying>, room: string, ev: Event, rep: Replies)
    requires Valid(recs) && MainRoomJoin(bot, recs, room, ev)
    requires ev.sender != "" && room != ""  // Matrix user and room ids are never empty
    ensures var data := Verifying(ev.sender, room, None, None);
            OnRoomEvent(bot, recs, room, ev, rep)
            == SetUpVerificationRoom(Others(recs, ev.sender, room) + [data], data,
                                     EarlierRoomLeave(recs, ev.sender, room, rep), rep)
  {
    MainRoomJoinDispatch(bot, recs, room, ev, rep);
    KeptIsOthers(recs, room, ev.sender);
    var data := Verifying(ev.sender, room, None, None);
    assert Save(Others(recs, ev.sender, room), None, data) == Success(Others(recs, ev.sender, room) + [data]);
  }

  /** When setting up succeeds, announcing the captcha is the last call. */
  lemma SetUpAnnounces(kept: seq<Verifying>, data: Verifying, before: seq<Effect>, rep: Replies)
    requires SchemaValid(data) && data.verificationRoomId.None?
    requires SetUpSucceeds(kept, rep)
    ensures var effs := SetUpVerificationRoom(kept + [data], data, before, rep).effects;
            |effs| > 0 && effs[|effs| - 1] == SendNotice(rep.createdRoom.value, GeneratingCaptcha)
  {
    var stored := kept + [data];
    assert forall j :: 0 <= j < |kept| ==> stored[j] == kept[j];
  }

  /** A main-room join lowers the user's level (to one below the
      requirement) exactly when the power levels were read, the bot may
      change the user's level and the user can post. */
  lemma MainRoomJoinSuspends(bot: Option<string>, recs: seq<Verifying>, room: string, ev: Event, rep: Replies)
    requires Valid(recs) && MainRoomJoin(bot, recs, room, ev)
    requires ev.sender != "" && room != ""  // Matrix user and room ids are never empty
    ensures var effs := OnRoomEvent(bot, recs, room, ev, rep).effects;
      && ((exists e :: e in effs && e.SetPowerLevel?) <==> rep.powerLevels.Some? && rep.canModify && rep.userCanSend)
      && (rep.powerLevels.Some? && rep.canModify && rep.userCanSend ==>
            SetPowerLevel(ev.sender, room, RequiredPower(rep.powerLevels.value) - 1) in effs)
  {
    MainRoomJoinUnfold(bot, recs, room, ev, rep);
    var data := Verifying(ev.sender, room, None, None);
    SetUpSuspends(Others(recs, ev.sender, room) + [data], data, EarlierRoomLeave(recs, ev.sender, room, rep), rep);
  }

  /** A main-room join creates a verification room and invites the user
      only once the power levels and the main room's label are known. When
      the invite fails the bot's last call leaves the new room; when all
      succeeds its last call announces the captcha. */
  lemma MainRoomJoinCreatesRoom(bot: Option<string>, recs: seq<Verifying>, room: string, ev: Event, rep: Replies)
    requires Valid(recs) && MainRoomJoin(bot, recs, room, ev)
    requires ev.sender != "" && room != ""  // Matrix user and room ids are never empty
    ensures var effs := OnRoomEvent(bot, recs, room, ev, rep).effects;
      && ((exists e :: e in effs && e.Invite?) <==>
            rep.powerLevels.Some? && rep.mainRoomLabel.Some? && Truthy(rep.createdRoom))
      && (rep.powerLevels.Some? && rep.mainRoomLabel.Some? && Truthy(rep.createdRoom) ==>
            && CreateRoom("Verification | " + rep.mainRoomLabel.value) in effs
            && Invite(ev.sender, rep.createdRoom.value) in effs)
      && (rep.powerLevels.Some? && rep.mainRoomLabel.Some? && Truthy(rep.createdRoom) && !rep.inviteOk ==>
            effs[|effs| - 1] == LeaveRoom(rep.createdRoom.value, None))
      && (SetUpSucceeds(Others(recs, ev.sender, room), rep) ==>
            |effs| > 0 && effs[|effs| - 1] == SendNotice(rep.createdRoom.value, GeneratingCaptcha))
  {
    MainRoomJoinUnfold(bot, recs, room, ev, rep);
    var data := Verifying(ev.sender, room, None, None);
    var kept, before := Others(recs, ev.sender, room), EarlierRoomLeave(recs, ev.sender, room, rep);
    SetUpCreatesAndInvites(kept + [data], data, before, rep);
    if SetUpSucceeds(kept, rep) {
      SetUpAnnounces(kept, data, before, rep);
    }
  }

  /** A main-room join first leaves the verification room of the user's
      earlier document for the room, if the bot is still in it. It redacts
      nothing and posts no captcha. */
  lemma MainRoomJoinLeavesEarlierRoom(bot: Option<string>, recs: seq<Verifying>, room: string, ev: Event, rep: Replies)
    requires Valid(recs) && MainRoomJoin(bot, recs, room, ev)
    requires ev.sender != "" && room != ""  // Matrix user and room ids are never empty
    ensures var effs := OnRoomEvent(bot, recs, room, ev, rep).effects;
      && (forall p :: 0 <= p < |recs| && SameSession(recs[p], ev.sender, room)
            && Truthy(recs[p].verificationRoomId) && recs[p].verificationRoomId.value in rep.joinedRooms
            ==> |effs| > 0 && effs[0] == LeaveRoom(recs[p].verificationRoomId.value, None))
      && (forall e :: e in effs ==> !e.Redact? && !e.ReadReceipt? && !e.SendCaptchaImage?)
  {
    MainRoomJoinUnfold(bot, recs, room, ev, rep);
    var data := Verifying(ev.sender, room, None, None);
    var kept, before := Others(recs, ev.sender, room), EarlierRoomLeave(recs, ev.sender, room, rep);
    SetUpSuspends(kept + [data], data, before, rep);
    SetUpPostsNoCaptcha(kept + [data], data, before, rep);
    forall p | 0 <= p < |recs| && SameSession(recs[p], ev.sender, room)
      ensures FindOne(recs, ByUserAndMainRoom(ev.sender, room)) == Some(p)
    {
    }
  }

  /** An event that reaches the captcha branch: a join by someone other
      than the bot into document `i`'s verification room. The membership
      event itself is not a message, so nothing else happens after it. */
  predicate CaptchaJoin(bot: Option<string>, recs: seq<Verifying>, room: string, ev: Event, i: nat) {
    && i < |recs| && recs[i].verificationRoomId == Some(room) && room != ""
    && ev.content.membership == Some("join") && !IsBot(bot, ev.sender)
    && ev.eventType != "m.room.message"
  }

  /** Joining a verification room stores the generated solution on that
      room's document and changes nothing else: the user, the main room and
      the verification room stay, and every other document stays. The bot
      posts the instructions and then the image. Whoever joins triggers
      this, not only the document's user. When generating or uploading the
      captcha fails, nothing is sent or stored. */
  lemma CaptchaJoinStoresAnswer(bot: Option<string>, recs: seq<Verifying>, room: string, ev: Event, rep: Replies, i: nat)
    requires Valid(recs) && CaptchaJoin(bot, recs, room, ev, i)
    ensures var out := OnRoomEvent(bot, recs, room, ev, rep);
      && |out.records| == |recs|
      && (forall j :: 0 <= j < |recs| && j != i ==> out.records[j] == recs[j])
      && out.records[i].userId == recs[i].userId
      && out.records[i].mainRoomId == recs[i].mainRoomId
      && out.records[i].verificationRoomId == recs[i].verificationRoomId
      && out.records[i].captchaAnswer == (if rep.captcha.Some? then rep.captcha else recs[i].captchaAnswer)
      && out.effects == (if rep.captcha.Some?
                         then [SendNotice(room, SolveCaptcha(recs[i].mainRoomId)), SendCaptchaImage(room)]
                         else [])
  {
    FindByVerificationRoomIsUnique(recs, ByVerificationRoom(room), i);
  }

  /** An event that is a plain text message with a body, sent by someone
      other than the bot, carrying no membership. */
  predicate PlainMessage(bot: Option<string>, ev: Event) {
    && ev.eventType == "m.room.message" && ev.content.membership.None?
    && Truthy(ev.content.body) && !IsBot(bot, ev.sender)
  }

  /** A message from the user of document `i` in its verification room,
      after the captcha was posted. */
  predicate AnswerMessage(bot: Option<string>, recs: seq<Verifying>, room: string, ev: Event, i: nat) {
    && PlainMessage(bot, ev)
    && i < |recs| && recs[i].userId == ev.sender && recs[i].verificationRoomId == Some(room)
    && Truthy(recs[i].captchaAnswer)
  }

  /** The answer is accepted exactly when it equals the stored solution
      (case-sensitively) and the main room's power levels can be read. An
      accepted answer deletes the document, so no document uses the room
      any more; the bot marks the message read, announces completion,
      restores the user's level when it may and the user cannot post, and
      leaves the room as its last call. Any other answer is only marked
      read: no document changes and nothing is redacted. */
  lemma AnswerOutcome(bot: Option<string>, recs: seq<Verifying>, room: string, ev: Event, rep: Replies, i: nat)
    requires Valid(recs) && AnswerMessage(bot, recs, room, ev, i)
    ensures var out := OnRoomEvent(bot, recs, room, ev, rep);
      var accepted := ev.content.body.value == recs[i].captchaAnswer.value && rep.powerLevels.Some?;
      && (accepted ==> out.records == DeleteOne(recs, i) && !RoomInUse(out.records, room))
      && (accepted ==> out.effects[0] == ReadReceipt(room, ev.eventId)
                       && SendNotice(room, VerificationComplete(recs[i].mainRoomId)) in out.effects
                       && out.effects[|out.effects| - 1] == LeaveRoom(room, Some(CompleteReason)))
      && (accepted ==>
            (SetPowerLevel(ev.sender, recs[i].mainRoomId, RequiredPower(rep.powerLevels.value)) in out.effects
             <==> rep.canModify && !rep.userCanSend))
      && (accepted ==> forall e :: e in out.effects && e.SetPowerLevel? ==> !rep.userCanSend)
      && (!accepted ==> out == Outcome(recs, [ReadReceipt(room, ev.eventId)]))
      && (forall e :: e in out.effects ==> !e.Redact?)
  {
    var receipt := [ReadReceipt(room, ev.eventId)];
    AnswerDispatch(bot, recs, room, ev, rep, i);
    if ev.content.body.value == recs[i].captchaAnswer.value && rep.powerLevels.Some? {
      AcceptedAnswerEffects(recs, i, room, rep, ev.eventId);
      var r := DeleteOne(recs, i);
      forall j | 0 <= j < |r| ensures r[j].verificationRoomId != Some(room) {
        var j' := if j < i then j else j + 1;
        assert r[j] == recs[j'] && j' != i;
      }
    }
  }

  /** A captcha answer takes the answer branch of `onRoomEvent` for its
      document: it is marked read, then accepted or left alone. */
  lemma AnswerDispatch(bot: Option<string>, recs: seq<Verifying>, room: string, ev: Event, rep: Replies, i: nat)
    requires Valid(recs) && AnswerMessage(bot, recs, room, ev, i)
    ensures var receipt := [ReadReceipt(room, ev.eventId)];
      OnRoomEvent(bot, recs, room, ev, rep)
      == if ev.content.body.value == recs[i].captchaAnswer.value then AcceptAnswer(recs, i, room, rep, receipt)
         else Outcome(recs, receipt)
  {
    FindByVerificationRoomIsUnique(recs, ByUserAndVerificationRoom(ev.sender, room), i);
    var after := OnMessageEvent(bot, recs, room, ev, rep);
    assert [] + after.effects == after.effects;
  }

  /** The calls of an accepted answer: the read receipt first, the
      completion notice, the level restore exactly when the bot may and the
      user cannot post, and leaving the room last. */
  lemma AcceptedAnswerEffects(recs: seq<Verifying>, i: nat, room: string, rep: Replies, eventId: string)
    requires i < |recs| && rep.powerLevels.Some?
    ensures var out := AcceptAnswer(recs, i, room, rep, [ReadReceipt(room, eventId)]);
      && out.records == DeleteOne(recs, i)
      && out.effects[0] == ReadReceipt(room, eventId)
      && SendNotice(room, VerificationComplete(recs[i].mainRoomId)) in out.effects
      && out.effects[|out.effects| - 1] == LeaveRoom(room, Some(CompleteReason))
      && (SetPowerLevel(recs[i].userId, recs[i].mainRoomId, RequiredPower(rep.powerLevels.value)) in out.effects
          <==> rep.canModify && !rep.userCanSend)
      && (forall e :: e in out.effects && e.SetPowerLevel? ==> !rep.userCanSend)
      && (forall e :: e in out.effects ==> !e.Redact?)
  {
    var out := AcceptAnswer(recs, i, room, rep, [ReadReceipt(room, eventId)]);
    var fixed := [ReadReceipt(room, eventId), SendNotice(room, VerificationComplete(recs[i].mainRoomId))];
    var leave := LeaveRoom(room, Some(CompleteReason));
    if rep.canModify && !rep.userCanSend {
      var restore := SetPowerLevel(recs[i].userId, recs[i].mainRoomId, RequiredPower(rep.powerLevels.value));
      assert out.effects == fixed + [restore] + [leave];
      assert out.effects[2] == restore;
    } else {
      assert out.effects == fixed + [] + [leave];
      assert out.effects == fixed + [leave];
    }
  }

  /** Sending the accepted answer again has no effect: the document is gone,
      so the message is neither an answer nor gated (as long as the user has
      no document naming the verification room as a main room). */
  lemma ResubmitAfterVerification(bot: Option<string>, recs: seq<Verifying>, room: string, ev: Event, rep: Replies, rep2: Replies, i: nat)
    requires Valid(recs) && AnswerMessage(bot, recs, room, ev, i)
    requires ev.content.body.value == recs[i].captchaAnswer.value && rep.powerLevels.Some?
    requires NoSession(recs, ev.sender, room)
    ensures var after := OnRoomEvent(bot, recs, room, ev, rep).records;
            OnRoomEvent(bot, after, room, ev, rep2) == Outcome(after, [])
  {
    AnswerOutcome(bot, recs, room, ev, rep, i);
    var after := DeleteOne(recs, i);
    assert FindOne(after, ByUserAndVerificationRoom(ev.sender, room)).None? by {
      assert !RoomInUse(after, room);
    }
    assert FindOne(after, ByUserAndMainRoom(ev.sender, room)).None? by {
      forall j | 0 <= j < |after| ensures !SameSession(after[j], ev.sender, room) {
        var j' := if j < i then j else j + 1;
        assert after[j] == recs[j'];
      }
    }
  }

  /** The message gate: a plain message is redacted exactly when the sender
      has no document naming this room as verification room, has one naming
      it as main room, and the bot's id is known and it may redact. The
      redaction is of that message, with the fixed reason, and no document
      changes. */
  lemma GateRedactsPendingUsers(bot: Option<string>, recs: seq<Verifying>, room: string, ev: Event, rep: Replies)
    requires PlainMessage(bot, ev)
    ensures var out := OnRoomEvent(bot, recs, room, ev, rep);
      && ((exists e :: e in out.effects && e.Redact?) <==>
            && (forall j :: 0 <= j < |recs| ==>
                  !(recs[j].userId == ev.sender && recs[j].verificationRoomId == Some(room)))
            && (exists j :: 0 <= j < |recs| && SameSession(recs[j], ev.sender, room))
            && Truthy(bot) && rep.botCanRedact)
      && (forall e :: e in out.effects && e.Redact? ==> e == Redact(room, ev.eventId, RedactReason))
      && ((forall j :: 0 <= j < |recs| ==>
             !(recs[j].userId == ev.sender && recs[j].verificationRoomId == Some(room))) ==> out.records == recs)
  {
    var out := OnRoomEvent(bot, recs, room, ev, rep);
    match FindOne(recs, ByUserAndVerificationRoom(ev.sender, room))
    case Some(i) =>
      assert recs[i].userId == ev.sender && recs[i].verificationRoomId == Some(room);
      assert !(exists e :: e in out.effects && e.Redact?);
    case None =>
      match FindOne(recs, ByUserAndMainRoom(ev.sender, room))
      case None =>
      case Some(p) =>
        assert SameSession(recs[p], ev.sender, room);
        if Truthy(bot) && rep.botCanRedact {
          assert out.effects[0] in out.effects && out.effects[0].Redact?;
        }
  }

  predicate NoRedaction(effs: seq<Effect>) {
    forall e :: e in effs ==> !e.Redact?
  }

  lemma MessageInOwnRoomNotRedacted(bot: Option<string>, recs: seq<Verifying>, room: string, ev: Event, rep: Replies, i: nat)
    requires i < |recs| && recs[i].userId == ev.sender && recs[i].verificationRoomId == Some(room)
    ensures NoRedaction(OnMessageEvent(bot, recs, room, ev, rep).effects)
  {
    assert Matches(ByUserAndVerificationRoom(ev.sender, room), recs[i]);
  }

  /** A join into the user's own verification room redacts nothing and
      keeps the user's document where it was. */
  lemma OwnRoomJoin(recs: seq<Verifying>, room: string, sender: string, rep: Replies, i: nat)
    requires Valid(recs)
    requires i < |recs| && recs[i].userId == sender && recs[i].verificationRoomId == Some(room)
    ensures var joined := OnJoin(recs, room, sender, rep);
      && NoRedaction(joined.0.effects)
      && |joined.0.records| == |recs|
      && joined.0.records[i].userId == sender && joined.0.records[i].verificationRoomId == Some(room)
  {
    FindByVerificationRoomIsUnique(recs, ByVerificationRoom(room), i);
  }

  /** Whatever the event, nothing a user sends in their own verification
      room is redacted. */
  lemma NoRedactionInOwnVerificationRoom(bot: Option<string>, recs: seq<Verifying>, room: string, ev: Event, rep: Replies, i: nat)
    requires Valid(recs)
    requires i < |recs| && recs[i].userId == ev.sender && recs[i].verificationRoomId == Some(room)
    ensures NoRedaction(OnRoomEvent(bot, recs, room, ev, rep).effects)
  {
    if ev.content.membership != Some("leave") {
      if ev.content.membership == Some("join") && !IsBot(bot, ev.sender) {
        OwnRoomJoin(recs, room, ev.sender, rep, i);
        var joined := OnJoin(recs, room, ev.sender, rep);
        if !joined.1 {
          MessageInOwnRoomNotRedacted(bot, joined.0.records, room, ev, rep, i);
        }
      } else {
        MessageInOwnRoomNotRedacted(bot, recs, room, ev, rep, i);
      }
    }
  }

  /** Every verification room named by `after` was already named by
      `before`. */
  ghost predicate NoNewRooms(before: seq<Verifying>, after: seq<Verifying>) {
    forall v :: RoomInUse(after, v) ==> RoomInUse(before, v)
  }

  lemma DeleteAddsNoRoom(recs: seq<Verifying>, i: nat)
    requires i < |recs|
    ensures NoNewRooms(recs, DeleteOne(recs, i))
  {
    var r := DeleteOne(recs, i);
    forall v | RoomInUse(r, v) ensures RoomInUse(recs, v) {
      var j :| 0 <= j < |r| && r[j].verificationRoomId == Some(v);
      assert r[j] == recs[if j < i then j else j + 1];
    }
  }

  lemma MessageAddsNoRoom(bot: Option<string>, recs: seq<Verifying>, room: string, ev: Event, rep: Replies)
    ensures NoNewRooms(recs, OnMessageEvent(bot, recs, room, ev, rep).records)
  {
    if ev.eventType == "m.room.message" && Truthy(ev.content.body) && !IsBot(bot, ev.sender) {
      match FindOne(recs, ByUserAndVerificationRoom(ev.sender, room))
      case None =>
      case Some(i) =>
        DeleteAddsNoRoom(recs, i);
    }
  }

  lemma LeaveAddsNoRoom(recs: seq<Verifying>, room: string, rep: Replies)
    ensures NoNewRooms(recs, OnLeave(recs, room, rep).records)
  {
    var r := OnLeave(recs, room, rep).records;
    forall v | RoomInUse(r, v) ensures RoomInUse(recs, v) {
      var j :| 0 <= j < |r| && r[j].verificationRoomId == Some(v);
      assert recs[j].verificationRoomId == Some(v);
    }
  }

  /** A verification room is recorded on a document only by a main-room
      join in which the room was created and the user successfully invited
      to it (the invite being one of the calls made); no other event
      introduces a verification room. */
  lemma RoomRecordedOnlyAfterInvite(bot: Option<string>, recs: seq<Verifying>, room: string, ev: Event, rep: Replies, v: string)
    requires Valid(recs)
    requires var out := OnRoomEvent(bot, recs, room, ev, rep);
             RoomInUse(out.records, v) && !RoomInUse(recs, v)
    ensures MainRoomJoin(bot, recs, room, ev)
    ensures rep.createdRoom == Some(v) && rep.inviteOk
    ensures Invite(ev.sender, v) in OnRoomEvent(bot, recs, room, ev, rep).effects
  {
    var out := OnRoomEvent(bot, recs, room, ev, rep);
    if ev.content.membership == Some("leave") {
      LeaveAddsNoRoom(recs, room, rep);
      assert false;
    }
    if !(ev.content.membership == Some("join") && !IsBot(bot, ev.sender)) {
      MessageAddsNoRoom(bot, recs, room, ev, rep);
      assert false;
    }
    match FindOne(recs, ByVerificationRoom(room))
    case Some(i) =>
      CaptchaJoinAddsNoRoom(bot, recs, room, ev, rep);
      assert false;
    case None =>
      assert MainRoomJoin(bot, recs, room, ev);
      RecordedRoomOfMainJoin(bot, recs, room, ev, rep, v);
  }

  /** A join into a verification room only stores a captcha answer, and a
      message after it only deletes: no room is added. */
  lemma CaptchaJoinAddsNoRoom(bot: Option<string>, recs: seq<Verifying>, room: string, ev: Event, rep: Replies)
    requires ev.content.membership == Some("join") && !IsBot(bot, ev.sender)
    requires FindOne(recs, ByVerificationRoom(room)).Some?
    ensures NoNewRooms(recs, OnRoomEvent(bot, recs, room, ev, rep).records)
  {
    var joined := OnJoin(recs, room, ev.sender, rep);
    assert NoNewRooms(recs, joined.0.records) by {
      forall w | RoomInUse(joined.0.records, w) ensures RoomInUse(recs, w) {
        var j :| 0 <= j < |joined.0.records| && joined.0.records[j].verificationRoomId == Some(w);
        assert recs[j].verificationRoomId == Some(w);
      }
    }
    if !joined.1 {
      MessageAddsNoRoom(bot, joined.0.records, room, ev, rep);
    }
  }

  lemma RecordedRoomOfMainJoin(bot: Option<string>, recs: seq<Verifying>, room: string, ev: Event, rep: Replies, v: string)
    requires Valid(recs) && MainRoomJoin(bot, recs, room, ev)
    requires var out := OnRoomEvent(bot, recs, room, ev, rep);
             RoomInUse(out.records, v) && !RoomInUse(recs, v)
    ensures rep.createdRoom == Some(v) && rep.inviteOk
    ensures Invite(ev.sender, v) in OnRoomEvent(bot, recs, room, ev, rep).effects
  {
    MainRoomJoinDispatch(bot, recs, room, ev, rep);
    var pre := FindOne(recs, ByUserAndMainRoom(ev.sender, room));
    if pre.Some? {
      DeleteAddsNoRoom(recs, pre.value);
    }
    KeptIsOthers(recs, room, ev.sender);
    var kept := Others(recs, ev.sender, room);
    assert NoNewRooms(recs, kept);
    if ev.sender != "" && room != "" {
      var created := Verifying(ev.sender, room, if SetUpSucceeds(kept, rep) then rep.createdRoom else None, None);
      MainRoomJoinRecords(bot, recs, room, ev, rep);
      LastHoldsNewRoom(kept, created, v);
      MainRoomJoinCreatesRoom(bot, recs, room, ev, rep);
    }
  }

  /** A room used after appending one document, and not before, is that
      document's. */
  lemma LastHoldsNewRoom(kept: seq<Verifying>, created: Verifying, v: string)
    requires RoomInUse(kept + [created], v) && !RoomInUse(kept, v)
    ensures created.verificationRoomId == Some(v)
  {
    var out := kept + [created];
    var j :| 0 <= j < |out| && out[j].verificationRoomId == Some(v);
    assert j == |kept|;
  }

  /** A leave in `room` never deletes a document: only the document whose
      verification room it is loses that room, every field of every other
      document stays, and the bot leaves the room when at most two members
      are listed. After it no document names the room. */
  lemma LeaveClearsVerificationRoom(bot: Option<string>, recs: seq<Verifying>, room: string, ev: Event, rep: Replies)
    requires Valid(recs) && ev.content.membership == Some("leave")
    ensures var out := OnRoomEvent(bot, recs, room, ev, rep);
      && |out.records| == |recs|
      && (forall j :: 0 <= j < |recs| ==>
            && out.records[j].userId == recs[j].userId
            && out.records[j].mainRoomId == recs[j].mainRoomId
            && out.records[j].captchaAnswer == recs[j].captchaAnswer
            && out.records[j].verificationRoomId
               == (if recs[j].verificationRoomId == Some(room) then None else recs[j].verificationRoomId))
      && !RoomInUse(out.records, room)
      && (LeaveRoom(room, None) in out.effects <==> rep.memberCount <= 2)
      && (forall e :: e in out.effects ==> e == LeaveRoom(room, None))
  {
    match FindOne(recs, ByVerificationRoom(room))
    case None =>
    case Some(i) =>
      FindByVerificationRoomIsUnique(recs, ByVerificationRoom(room), i);
      var out := OnRoomEvent(bot, recs, room, ev, rep);
      forall j | 0 <= j < |recs| && j != i ensures recs[j].verificationRoomId != Some(room) {
      }
  }
}
