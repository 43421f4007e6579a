/** One user's whole verification, event by event, as the handler runs it:
    joining the main room, joining the verification room, a wrong answer and
    the right one. */
module Scenario {
  import opened Wrappers
  import opened Verifying
  import opened HandlerRules
  import opened Session

  const Bot := "@gate:example.org"
  const User := "@u:example.org"
  const Main := "!main:example.org"
  const Room := "!verify:example.org"
  const Solution := "AB12CD9"
  const MainAlias := "#main:example.org"

  function Membership(m: string, id: string): Event {
    Event("m.room.member", User, id, Content(Some(m), None, None), false)
  }

  function Message(body: string, id: string): Event {
    Event("m.room.message", User, id, Content(None, Some(body), Some("m.text")), false)
  }

  /** The main room requires level 10 to post; the bot may change the
      user's level; the user can post before verification and cannot
      after being lowered. */
  function Server(userCanSend: bool, captcha: Option<string>): Replies {
    Replies(5, {Main, Room}, userCanSend, true, Some(PowerLevels(Some(0), Some(10))),
            Some(MainAlias), Some(Room), true, captcha, true)
  }

  /** The user joins the main room: one document, the user's level lowered
      to 9, a verification room created, the user invited, and the captcha
      announced. */
  lemma JoinMainStep()
    ensures var s := OnRoomEvent(Some(Bot), [], Main, Membership("join", "$1"), Server(true, None));
      && s.records == [Verifying(User, Main, Some(Room), None)]
      && s.effects == [SetPowerLevel(User, Main, 9), CreateRoom("Verification | " + MainAlias),
                       Invite(User, Room), SendNotice(Room, GeneratingCaptcha)]
  {
    var rep := Server(true, None);
    var created := Verifying(User, Main, None, None);
    StoreFirstDocument(rep);
    SuspendThenCreate(rep);
    OpenFirstRoom(rep);
    assert Bot[1] != User[1];
    var joined := OnRoomEvent(Some(Bot), [], Main, Membership("join", "$1"), rep);
    assert joined == JoinMainRoom([], Main, User, rep);
  }

  /** The fresh document is stored in the empty collection. */
  lemma StoreFirstDocument(rep: Replies)
    ensures JoinMainRoom([], Main, User, rep)
         == SetUpVerificationRoom([Verifying(User, Main, None, None)], Verifying(User, Main, None, None), [], rep)
  {
    var none: seq<Verifying> := [];
    var created := Verifying(User, Main, None, None);
    assert User[0] == '@' && Main[0] == '!';
    assert Save(none, None, created).Success?;
    assert none + [created] == [created];
  }

  /** The user's level is lowered to 9 and the room named after the main
      room's alias is created. */
  lemma SuspendThenCreate(rep: Replies)
    requires rep == Server(true, None)
    ensures var created := Verifying(User, Main, None, None);
      SetUpVerificationRoom([created], created, [], rep)
      == OpenVerificationRoom([created], created,
           [SetPowerLevel(User, Main, 9), CreateRoom("Verification | " + MainAlias)], rep)
  {
  }

  /** The created room is recorded after the invite, and the captcha is
      announced in it. */
  lemma OpenFirstRoom(rep: Replies)
    requires rep == Server(true, None)
    ensures var created := Verifying(User, Main, None, None);
      var creating := [SetPowerLevel(User, Main, 9), CreateRoom("Verification | " + MainAlias)];
      OpenVerificationRoom([created], created, creating, rep)
      == Outcome([Verifying(User, Main, Some(Room), None)],
                 creating + [Invite(User, Room), SendNotice(Room, GeneratingCaptcha)])
  {
    var created := Verifying(User, Main, None, None);
    assert User[0] == '@' && Main[0] == '!';
    assert !RoomTaken([created], Room, Some(0));
  }

  /** The user joins the verification room: the solution is stored and the
      captcha posted. */
  lemma JoinVerificationStep()
    ensures var s := OnRoomEvent(Some(Bot), [Verifying(User, Main, Some(Room), None)], Room,
                                 Membership("join", "$2"), Server(false, Some(Solution)));
      && s.records == [Verifying(User, Main, Some(Room), Some(Solution))]
      && s.effects == [SendNotice(Room, SolveCaptcha(Main)), SendCaptchaImage(Room)]
  {
    var pending := Verifying(User, Main, Some(Room), None);
    assert User[0] == '@' && Main[0] == '!' && Room[0] == '!';
    assert FindOne([pending], ByVerificationRoom(Room)) == Some(0);
  }

  /** A wrong answer is only marked read. */
  lemma WrongAnswerStep()
    ensures var s := OnRoomEvent(Some(Bot), [Verifying(User, Main, Some(Room), Some(Solution))], Room,
                                 Message("wrong", "$3"), Server(false, None));
      && s.records == [Verifying(User, Main, Some(Room), Some(Solution))]
      && s.effects == [ReadReceipt(Room, "$3")]
  {
    var answered := Verifying(User, Main, Some(Room), Some(Solution));
    assert FindOne([answered], ByUserAndVerificationRoom(User, Room)) == Some(0);
    assert "wrong"[0] != Solution[0];
  }

  /** The right answer completes the verification: the level is restored
      to 10, the bot leaves, and the document is gone. */
  lemma RightAnswerStep()
    ensures var s := OnRoomEvent(Some(Bot), [Verifying(User, Main, Some(Room), Some(Solution))], Room,
                                 Message(Solution, "$4"), Server(false, None));
      && s.records == []
      && s.effects == [ReadReceipt(Room, "$4"), SendNotice(Room, VerificationComplete(Main)),
                       SetPowerLevel(User, Main, 10), LeaveRoom(Room, Some(CompleteReason))]
  {
    var answered := Verifying(User, Main, Some(Room), Some(Solution));
    assert FindOne([answered], ByUserAndVerificationRoom(User, Room)) == Some(0);
  }

  /** Leaving the main room before answering does not remove the document:
      only a leave in the verification room itself touches it, so a later
      join into the verification room still gets a captcha. With five
      members listed the bot stays. */
  lemma LeaveMainRoomStep()
    ensures var s := OnRoomEvent(Some(Bot), [Verifying(User, Main, Some(Room), None)], Main,
                                 Membership("leave", "$5"), Server(true, None));
      && s.records == [Verifying(User, Main, Some(Room), None)]
      && s.effects == []
  {
    var pending := Verifying(User, Main, Some(Room), None);
    assert Main[1] != Room[1];
    assert FindOne([pending], ByVerificationRoom(Main)) == None;
  }
}
