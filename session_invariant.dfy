/** Every branch of `onRoomEvent` keeps the table invariant `Session.Valid`:
    documents pass the schema, verification rooms are unique, and there is
    at most one document per user and main room. The last of these is not
    in the schema; it holds because a main-room join deletes the user's
    earlier document before it creates a new one (src/handler.ts:168-184). */
module SessionInvariant {
  import opened Wrappers
  import opened Verifying
  import opened HandlerRules
  import opened Session

  predicate SameSession(a: Verifying, user: string, room: string) {
    a.userId == user && a.mainRoomId == room
  }

  /** No document belongs to `user` in main room `room`. */
  predicate NoSession(recs: seq<Verifying>, user: string, room: string) {
    forall j :: 0 <= j < |recs| ==> !SameSession(recs[j], user, room)
  }

  lemma UpdateKeepsSessionsUnique(recs: seq<Verifying>, i: nat, d: Verifying)
    requires UniqueSessions(recs) && i < |recs|
    requires SameSession(d, recs[i].userId, recs[i].mainRoomId)
    ensures UniqueSessions(recs[i := d])
  {
    var r := recs[i := d];
    forall a, b | 0 <= a < |r| && 0 <= b < |r| && a != b
      ensures !SameSession(r[a], r[b].userId, r[b].mainRoomId)
    {
      assert SameSession(r[a], r[b].userId, r[b].mainRoomId) ==> SameSession(recs[a], recs[b].userId, recs[b].mainRoomId);
    }
  }

  lemma DeleteKeepsSessionsUnique(recs: seq<Verifying>, i: nat)
    requires UniqueSessions(recs) && i < |recs|
    ensures UniqueSessions(DeleteOne(recs, i))
  {
    var r := DeleteOne(recs, i);
    forall a, b | 0 <= a < |r| && 0 <= b < |r| && a != b
      ensures !SameSession(r[a], r[b].userId, r[b].mainRoomId)
    {
      var a', b' := if a < i then a else a + 1, if b < i then b else b + 1;
      assert r[a] == recs[a'] && r[b] == recs[b'] && a' != b';
    }
  }

  lemma AppendKeepsSessionsUnique(recs: seq<Verifying>, d: Verifying)
    requires UniqueSessions(recs) && NoSession(recs, d.userId, d.mainRoomId)
    ensures UniqueSessions(recs + [d])
  {
  }

  /** Deleting the one document of a user and main room leaves none. */
  lemma DeleteOnlySession(recs: seq<Verifying>, p: nat, user: string, room: string)
    requires UniqueSessions(recs) && p < |recs| && SameSession(recs[p], user, room)
    ensures NoSession(DeleteOne(recs, p), user, room)
  {
    var r := DeleteOne(recs, p);
    forall j | 0 <= j < |r| ensures !SameSession(r[j], user, room) {
      var j' := if j < p then j else j + 1;
      assert r[j] == recs[j'] && j' != p;
    }
  }

  /** The documents left after a main-room join's delete step hold no
      session of the joining user for that room. */
  lemma KeptHasNoSession(recs: seq<Verifying>, room: string, sender: string)
    requires UniqueSessions(recs)
    ensures var pre := FindOne(recs, ByUserAndMainRoom(sender, room));
            NoSession(if pre.Some? then DeleteOne(recs, pre.value) else recs, sender, room)
  {
    var pre := FindOne(recs, ByUserAndMainRoom(sender, room));
    if pre.Some? {
      DeleteOnlySession(recs, pre.value, sender, room);
    }
  }

  lemma LeavePreservesValid(recs: seq<Verifying>, room: string, rep: Replies)
    requires Valid(recs)
    ensures Valid(OnLeave(recs, room, rep).records)
  {
    match FindOne(recs, ByVerificationRoom(room))
    case None =>
    case Some(i) =>
      UpdateKeepsSessionsUnique(recs, i, recs[i].(verificationRoomId := None));
  }

  lemma JoinVerificationRoomPreservesValid(recs: seq<Verifying>, i: nat, rep: Replies)
    requires Valid(recs) && i < |recs| && recs[i].verificationRoomId.Some?
    ensures Valid(JoinVerificationRoom(recs, i, rep).0.records)
  {
    if rep.captcha.Some? {
      UpdateKeepsSessionsUnique(recs, i, recs[i].(captchaAnswer := rep.captcha));
    }
  }

  lemma SetUpPreservesValid(recs: seq<Verifying>, data: Verifying, before: seq<Effect>, rep: Replies)
    requires Valid(recs) && |recs| > 0 && recs[|recs| - 1] == data
    ensures Valid(SetUpVerificationRoom(recs, data, before, rep).records)
  {
    if rep.createdRoom.Some? {
      UpdateKeepsSessionsUnique(recs, |recs| - 1, data.(verificationRoomId := rep.createdRoom));
    }
  }

  lemma JoinMainRoomPreservesValid(recs: seq<Verifying>, room: string, sender: string, rep: Replies)
    requires Valid(recs)
    ensures Valid(JoinMainRoom(recs, room, sender, rep).records)
  {
    var pre := FindOne(recs, ByUserAndMainRoom(sender, room));
    var kept := if pre.Some? then DeleteOne(recs, pre.value) else recs;
    if pre.Some? {
      DeleteKeepsSessionsUnique(recs, pre.value);
    }
    KeptHasNoSession(recs, room, sender);
    var data := Verifying(sender, room, None, None);
    var leaveOld :=
      if pre.Some? && Truthy(recs[pre.value].verificationRoomId)
         && recs[pre.value].verificationRoomId.value in rep.joinedRooms
      then [LeaveRoom(recs[pre.value].verificationRoomId.value, None)]
      else [];
    match Save(kept, None, data)
    case Failure(_) =>
    case Success(stored) =>
      AppendKeepsSessionsUnique(kept, data);
      SetUpPreservesValid(stored, data, leaveOld, rep);
  }

  lemma JoinPreservesValid(recs: seq<Verifying>, room: string, sender: string, rep: Replies)
    requires Valid(recs)
    ensures Valid(OnJoin(recs, room, sender, rep).0.records)
  {
    match FindOne(recs, ByVerificationRoom(room))
    case Some(i) =>
      if Truthy(recs[i].verificationRoomId) {
        JoinVerificationRoomPreservesValid(recs, i, rep);
      }
    case None =>
      JoinMainRoomPreservesValid(recs, room, sender, rep);
  }

  lemma MessagePreservesValid(bot: Option<string>, recs: seq<Verifying>, room: string, ev: Event, rep: Replies)
    requires Valid(recs)
    ensures Valid(OnMessageEvent(bot, recs, room, ev, rep).records)
  {
    if ev.eventType == "m.room.message" && Truthy(ev.content.body) && !IsBot(bot, ev.sender) {
      match FindOne(recs, ByUserAndVerificationRoom(ev.sender, room))
      case None =>
      case Some(i) =>
        DeleteKeepsSessionsUnique(recs, i);
    }
  }

  /** Handling any event keeps the table invariant. */
  lemma RoomEventPreservesValid(bot: Option<string>, recs: seq<Verifying>, room: string, ev: Event, rep: Replies)
    requires Valid(recs)
    ensures Valid(OnRoomEvent(bot, recs, room, ev, rep).records)
  {
    if ev.content.membership == Some("leave") {
      LeavePreservesValid(recs, room, rep);
    } else {
      var joined :=
        if ev.content.membership == Some("join") && !IsBot(bot, ev.sender) then OnJoin(recs, room, ev.sender, rep)
        else (Outcome(recs, []), false);
      if ev.content.membership == Some("join") && !IsBot(bot, ev.sender) {
        JoinPreservesValid(recs, room, ev.sender, rep);
      }
      MessagePreservesValid(bot, joined.0.records, room, ev, rep);
    }
  }
}
