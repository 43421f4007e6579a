/** The `CommandHandler` class (src/handler.ts): the bot's cached profile,
    the command reader `onMessage`, and `onRoomEvent` written step by step
    against the `verifyingData` collection and the chat client, each step
    proved to do what `Session.OnRoomEvent` says. */
module Handler {
  import opened Wrappers
  import opened Strings
  import opened Verifying
  import opened HandlerRules
  import opened Session
  import opened SessionInvariant

  /** `config.prefix ?? '!gate'`: an empty configured prefix is kept. */
  function CommandPrefix(configured: Option<string>): string {
    if configured.Some? then configured.value else "!gate"
  }

  /** The `verifyingData` collection as the handler sees it. */
  class Store {
    var records: seq<Verifying>

    constructor(stored: seq<Verifying>)
      ensures records == stored
    {
      records := stored;
    }

    /** `findOne(filter)`, scanning the documents in order. */
    method Find(f: Filter) returns (r: Option<nat>)
      ensures r == FindOne(records, f)
    {
      var k := 0;
      while k < |records|
        invariant k <= |records|
        invariant forall j :: 0 <= j < k ==> !Matches(f, records[j])
      {
        if Matches(f, records[k]) {
          return Some(k);
        }
        k := k + 1;
      }
      return None;
    }

    /** `save()` of a changed document (`at` is its position) or a new one.
        The result says whether the save succeeded. */
    method Store(at: Option<nat>, d: Verifying) returns (ok: bool)
      requires at.Some? ==> at.value < |records|
      modifies this
      ensures ok == Save(old(records), at, d).Success?
      ensures records == if ok then Save(old(records), at, d).value else old(records)
    {
      var r := Save(records, at, d);
      ok := r.Success?;
      if ok {
        records := r.value;
      }
    }

    /** `deleteOne()` of the document at position `i`. */
    method Delete(i: nat)
      requires i < |records|
      modifies this
      ensures records == DeleteOne(old(records), i)
    {
      records := records[..i] + records[i + 1..];
    }
  }

  /** The chat client, as the log of the calls that change something on the
      server. */
  class Client {
    var sent: seq<Effect>

    constructor()
      ensures sent == []
    {
      sent := [];
    }

    method Call(e: Effect)
      modifies this
      ensures sent == old(sent) + [e]
    {
      sent := sent + [e];
    }
  }

  /** What `onMessage` does with a message: the command it runs, if any. */
  function MessageCommand(prefix: string, bot: Option<string>, localpart: Option<string>,
                          displayName: Option<string>, ev: Event, canSend: bool): Command
  {
    if !Truthy(bot) || ev.redacted || ev.sender == bot.value
       || ev.content.msgtype != Some("m.text") || ev.content.body.None? then NoCommand
    else
      match ParseCommand(Prefixes(prefix, localpart, displayName, bot.value), ev.content.body.value)
      case None => NoCommand
      case Some(args) => CommandFor(args[0], canSend)
  }

  /** A message only selects a command when the bot knows its id, the
      message is an unredacted text message from someone else, the bot may
      post, and a non-empty prefix starts the body. */
  lemma CommandNeedsPrefix(prefix: string, bot: Option<string>, localpart: Option<string>,
                           displayName: Option<string>, ev: Event, canSend: bool)
    requires MessageCommand(prefix, bot, localpart, displayName, ev, canSend) != NoCommand
    ensures Truthy(bot) && !ev.redacted && ev.sender != bot.value && canSend
    ensures ev.content.msgtype == Some("m.text") && ev.content.body.Some?
    ensures exists k :: 0 <= k < 4 && Prefixes(prefix, localpart, displayName, bot.value)[k] != ""
                        && Prefixes(prefix, localpart, displayName, bot.value)[k] <= ev.content.body.value
  {
    var ps := Prefixes(prefix, localpart, displayName, bot.value);
    var k := FindPrefix(ps, ev.content.body.value).value;
    assert ps[k] != "" && ps[k] <= ev.content.body.value;
  }

  /** The configured prefix, any white space (possibly none), and a word:
      the word selects the command. */
  lemma PrefixedCommand(prefix: string, bot: Option<string>, localpart: Option<string>,
                        displayName: Option<string>, ev: Event, canSend: bool, ws: string, word: string)
    requires Truthy(bot) && !ev.redacted && ev.sender != bot.value && ev.content.msgtype == Some("m.text")
    requires prefix != "" && AllWhitespace(ws)
    requires word != [] && !IsWhitespace(word[0]) && !IsWhitespace(word[|word| - 1]) && ' ' !in word
    requires ev.content.body == Some(prefix + ws + word)
    ensures MessageCommand(prefix, bot, localpart, displayName, ev, canSend) == CommandFor(word, canSend)
  {
    var body := prefix + ws + word;
    var ps := Prefixes(prefix, localpart, displayName, bot.value);
    assert ps[0] == prefix && prefix <= body;
    assert FindPrefix(ps, body) == Some(0);
    WordArgs(prefix, ws, word);
    assert ParseCommand(ps, body) == Some([word]);
  }

  lemma WordArgs(prefix: string, ws: string, word: string)
    requires AllWhitespace(ws)
    requires word != [] && !IsWhitespace(word[0]) && !IsWhitespace(word[|word| - 1]) && ' ' !in word
    ensures CommandArgs(prefix + ws + word, prefix) == [word]
  {
    var body := prefix + ws + word;
    assert body[|prefix|..] == ws + word;
    TrimAfterWhitespace(ws, word);
    SplitJoin([word], ' ');
    assert Join([word], ' ') == word;
  }

  /** Without a display name the third prefix is the text "undefined:", so
      a message starting with it is read as a command addressed to the bot
      (when the earlier prefixes do not match). */
  lemma MissingDisplayNameAnswersUndefined(prefix: string, bot: Option<string>, localpart: Option<string>,
                                           ev: Event, canSend: bool, word: string)
    requires Truthy(bot) && !ev.redacted && ev.sender != bot.value && ev.content.msgtype == Some("m.text")
    requires word != [] && !IsWhitespace(word[0]) && !IsWhitespace(word[|word| - 1]) && ' ' !in word
    requires ev.content.body == Some("undefined:" + word)
    requires !(prefix <= "undefined:" + word) && !(TemplateText(localpart) + ":" <= "undefined:" + word)
    ensures MessageCommand(prefix, bot, localpart, None, ev, canSend) == CommandFor(word, canSend)
  {
    var body := "undefined:" + word;
    var ps := Prefixes(prefix, localpart, None, bot.value);
    assert ps[2] == "undefined:" && ps[2] <= body;
    assert FindPrefix(ps, body) == Some(2);
    assert "undefined:" + "" + word == body;
    WordArgs("undefined:", "", word);
    assert ParseCommand(ps, body) == Some([word]);
  }

  /** An empty configured prefix matches every body before any other
      prefix is tried, and is then read as no prefix: no message is a
      command, not even one that mentions the bot. */
  lemma EmptyPrefixDisablesCommands(bot: Option<string>, localpart: Option<string>,
                                    displayName: Option<string>, ev: Event, canSend: bool)
    ensures MessageCommand("", bot, localpart, displayName, ev, canSend) == NoCommand
  {
    if Truthy(bot) && ev.content.body.Some? {
      var ps := Prefixes("", localpart, displayName, bot.value);
      assert ps[0] <= ev.content.body.value;
    }
  }

  class CommandHandler {
    const prefix: string
    var userId: Option<string>
    var localpart: Option<string>
    var displayName: Option<string>
    const store: Store
    const client: Client

    /** The collection keeps the table invariant. */
    ghost predicate Valid()
      reads this, store
    {
      Session.Valid(store.records)
    }

    constructor(configuredPrefix: Option<string>, s: Store, c: Client)
      requires Session.Valid(s.records)
      ensures prefix == CommandPrefix(configuredPrefix)
      ensures userId == None && localpart == None && displayName == None
      ensures store == s && client == c
      ensures Valid()
    {
      prefix := CommandPrefix(configuredPrefix);
      userId := None;
      localpart := None;
      displayName := None;
      store := s;
      client := c;
    }

    /** `prepareProfile`: cache the bot's id, its localpart, and its display
        name when the profile has a non-empty one. `localpartOf` is what
        parsing the id gives (none: the parser threw, which ends the method);
        `profileName` is the profile's `displayname` (none: absent, or the
        lookup threw, which is only logged). */
    method PrepareProfile(id: string, localpartOf: Option<string>, profileName: Option<string>)
      modifies this
      ensures userId == Some(id)
      ensures localpart == if localpartOf.Some? then localpartOf else old(localpart)
      ensures displayName == if localpartOf.Some? && Truthy(profileName) then profileName else old(displayName)
    {
      userId := Some(id);
      if localpartOf.None? {
        return;
      }
      localpart := localpartOf;
      if Truthy(profileName) {
        displayName := profileName;
      }
    }

    /** `onMessage`: ignore the message unless the bot knows its id, the
        message is an unredacted `m.text` from someone else, and it starts
        with one of the prefixes (the first that matches is taken, and an
        empty one means no command); then pick the command from the first
        word. */
    method OnMessage(ev: Event, canSend: bool) returns (cmd: Command)
      ensures cmd == MessageCommand(prefix, userId, localpart, displayName, ev, canSend)
    {
      var bot := userId;
      if !Truthy(bot) || ev.redacted || ev.sender == bot.value || ev.content.msgtype != Some("m.text") {
        return NoCommand;
      }
      if ev.content.body.None? {
        return NoCommand;
      }
      var body := ev.content.body.value;
      var prefixes := Prefixes(prefix, localpart, displayName, bot.value);
      var k := 0;
      while k < |prefixes|
        invariant k <= |prefixes|
        invariant forall j :: 0 <= j < k ==> !(prefixes[j] <= body)
      {
        if prefixes[k] <= body {
          break;
        }
        k := k + 1;
      }
      if k == |prefixes| {
        assert FindPrefix(prefixes, body).None?;
        return NoCommand;
      }
      assert FindPrefix(prefixes, body) == Some(k);
      if prefixes[k] == "" {
        return NoCommand;
      }
      var args := CommandArgs(body, prefixes[k]);
      assert ParseCommand(prefixes, body) == Some(args);
      if args[0] == "ping" && canSend {
        cmd := Ping;
      } else if (args[0] == "space" || args[0] == "support" || args[0] == "room") && canSend {
        cmd := Space;
      } else if args[0] == "help" && canSend {
        cmd := Help;
      } else {
        cmd := NoCommand;
      }
      assert cmd == CommandFor(args[0], canSend);
    }

    /** `onRoomEvent`: the branch is chosen by `content.membership`; a join
        that neither returns nor throws goes on to the message part. */
    method OnRoomEvent(room: string, ev: Event, rep: Replies)
      requires Valid()
      modifies store, client
      ensures Valid()
      ensures store.records == Session.OnRoomEvent(userId, old(store.records), room, ev, rep).records
      ensures client.sent == old(client.sent) + Session.OnRoomEvent(userId, old(store.records), room, ev, rep).effects
    {
      RoomEventPreservesValid(userId, store.records, room, ev, rep);
      Dispatch(room, ev, rep);
    }

    /** The branches of `onRoomEvent`, in the order the handler takes them. */
    method Dispatch(room: string, ev: Event, rep: Replies)
      modifies store, client
      ensures store.records == Session.OnRoomEvent(userId, old(store.records), room, ev, rep).records
      ensures client.sent == old(client.sent) + Session.OnRoomEvent(userId, old(store.records), room, ev, rep).effects
    {
      ghost var recs := store.records;
      ghost var out := Session.OnRoomEvent(userId, recs, room, ev, rep);
      if ev.content.membership == Some("leave") {
        Leave(room, rep);
        assert out == OnLeave(recs, room, rep);
        return;
      }
      ghost var joined := (Outcome(recs, []), false);
      if ev.content.membership == Some("join") && !IsBot(userId, ev.sender) {
        joined := OnJoin(recs, room, ev.sender, rep);
        var done := Join(room, ev.sender, rep);
        if done {
          assert out == joined.0;
          return;
        }
      }
      assert store.records == joined.0.records;
      HandleMessage(room, ev, rep);
      ghost var after := OnMessageEvent(userId, joined.0.records, room, ev, rep);
      assert out == Outcome(after.records, joined.0.effects + after.effects);
      AppendAssoc(old(client.sent), joined.0.effects, after.effects);
    }

    /** Lines 119-243: a join by someone other than the bot, into a
        document's verification room or into a main room. The result says
        whether the handler has returned or thrown. */
    method Join(room: string, sender: string, rep: Replies) returns (done: bool)
      modifies store, client
      ensures var (out, stop) := OnJoin(old(store.records), room, sender, rep);
              && store.records == out.records
              && client.sent == old(client.sent) + out.effects
              && done == stop
    {
      var i := store.Find(ByVerificationRoom(room));
      if i.Some? && Truthy(store.records[i.value].verificationRoomId) {
        done := IssueCaptcha(i.value, rep);
      } else if i.None? {
        Welcome(room, sender, rep);
        done := true;
      } else {
        done := false;
      }
    }

    /** Lines 107-118. */
    method Leave(room: string, rep: Replies)
      modifies store, client
      ensures store.records == OnLeave(old(store.records), room, rep).records
      ensures client.sent == old(client.sent) + OnLeave(old(store.records), room, rep).effects
    {
      if rep.memberCount <= 2 {
        client.Call(LeaveRoom(room, None));
      }
      var i := store.Find(ByVerificationRoom(room));
      if i.Some? {
        var data := store.records[i.value].(verificationRoomId := None);
        var _ := store.Store(Some(i.value), data);
      }
    }

    /** Lines 125-165: post the captcha into the verification room and
        store its solution. The result says whether the handler stops. */
    method IssueCaptcha(i: nat, rep: Replies) returns (stopped: bool)
      requires i < |store.records| && store.records[i].verificationRoomId.Some?
      modifies store, client
      ensures var (out, stop) := JoinVerificationRoom(old(store.records), i, rep);
              && store.records == out.records
              && client.sent == old(client.sent) + out.effects
              && stopped == stop
    {
      var data := store.records[i];
      if rep.captcha.None? {
        return true;
      }
      var room := data.verificationRoomId.value;
      client.Call(SendNotice(room, SolveCaptcha(data.mainRoomId)));
      client.Call(SendCaptchaImage(room));
      var ok := store.Store(Some(i), data.(captchaAnswer := rep.captcha));
      stopped := !ok;
    }

    /** Lines 166-184: drop the user's earlier document for this room,
        leaving its verification room when the bot is still in it, and
        store a fresh document; then set up the verification room. */
    method Welcome(room: string, sender: string, rep: Replies)
      modifies store, client
      ensures store.records == JoinMainRoom(old(store.records), room, sender, rep).records
      ensures client.sent == old(client.sent) + JoinMainRoom(old(store.records), room, sender, rep).effects
    {
      ghost var recs := store.records;
      ghost var leaveOld := EarlierRoomLeave(recs, sender, room, rep);
      DropEarlier(room, sender, rep);
      ghost var kept := store.records;
      var data := Verifying(sender, room, None, None);
      JoinMainRoomSteps(recs, room, sender, rep, kept);
      var ok := store.Store(None, data);
      if !ok {
        return;
      }
      ghost var stored := store.records;
      ghost var before := client.sent;
      SetUpAfter(stored, data, leaveOld, rep);
      SetUpRoom(data, rep);
      ghost var rest := SetUpVerificationRoom(stored, data, [], rep).effects;
      AppendAssoc(old(client.sent), leaveOld, rest);
    }

    /** Lines 168-179: the user's earlier document for this main room is
        deleted, after leaving its verification room. */
    method DropEarlier(room: string, sender: string, rep: Replies)
      modifies store, client
      ensures var pre := FindOne(old(store.records), ByUserAndMainRoom(sender, room));
              store.records == if pre.Some? then DeleteOne(old(store.records), pre.value) else old(store.records)
      ensures client.sent == old(client.sent) + EarlierRoomLeave(old(store.records), sender, room, rep)
    {
      var pre := store.Find(ByUserAndMainRoom(sender, room));
      if pre.Some? {
        var v := store.records[pre.value].verificationRoomId;
        if Truthy(v) && v.value in rep.joinedRooms {
          client.Call(LeaveRoom(v.value, None));
        }
        store.Delete(pre.value);
      }
    }

    /** Lines 186-241: lower the user's level, create the verification
        room, invite the user, record the room on the document, announce
        the captcha. */
    method SetUpRoom(data: Verifying, rep: Replies)
      requires |store.records| > 0 && store.records[|store.records| - 1] == data
      modifies store, client
      ensures store.records == SetUpVerificationRoom(old(store.records), data, [], rep).records
      ensures client.sent == old(client.sent) + SetUpVerificationRoom(old(store.records), data, [], rep).effects
    {
      if rep.powerLevels.None? {
        return;
      }
      var pl := rep.powerLevels.value;
      var requiredPower := 0;
      if pl.eventsDefault.Some? {
        requiredPower := pl.eventsDefault.value;
      }
      if pl.messageLevel.Some? {
        requiredPower := pl.messageLevel.value;
      }
      ghost var suspend: seq<Effect> := [];
      if rep.canModify && rep.userCanSend {
        client.Call(SetPowerLevel(data.userId, data.mainRoomId, requiredPower - 1));
        suspend := [SetPowerLevel(data.userId, data.mainRoomId, requiredPower - 1)];
      }
      assert client.sent == old(client.sent) + suspend;
      if rep.mainRoomLabel.None? {
        return;
      }
      var create := CreateRoom("Verification | " + rep.mainRoomLabel.value);
      client.Call(create);
      AppendAssoc(old(client.sent), suspend, [create]);
      ghost var creating := suspend + [create];
      assert [] + suspend + [create] == creating;
      OpenAfter(store.records, data, creating, rep);
      OpenRoom(data, rep);
      AppendAssoc(old(client.sent), creating, OpenVerificationRoom(old(store.records), data, [], rep).effects);
    }

    /** Lines 213-241: invite the user into the created room, record the
        room on the document, announce the captcha. */
    method OpenRoom(data: Verifying, rep: Replies)
      requires |store.records| > 0 && store.records[|store.records| - 1] == data
      modifies store, client
      ensures store.records == OpenVerificationRoom(old(store.records), data, [], rep).records
      ensures client.sent == old(client.sent) + OpenVerificationRoom(old(store.records), data, [], rep).effects
    {
      if !Truthy(rep.createdRoom) {
        return;
      }
      var v := rep.createdRoom.value;
      client.Call(Invite(data.userId, v));
      if !rep.inviteOk {
        client.Call(LeaveRoom(v, None));
        return;
      }
      var ok := store.Store(Some(|store.records| - 1), data.(verificationRoomId := Some(v)));
      if !ok {
        return;
      }
      client.Call(SendNotice(v, GeneratingCaptcha));
    }

    /** Lines 246-311: a captcha answer in the sender's verification room,
        or a message in a main room the sender has not been verified for. */
    method HandleMessage(room: string, ev: Event, rep: Replies)
      modifies store, client
      ensures store.records == OnMessageEvent(userId, old(store.records), room, ev, rep).records
      ensures client.sent == old(client.sent) + OnMessageEvent(userId, old(store.records), room, ev, rep).effects
    {
      if !(ev.eventType == "m.room.message" && Truthy(ev.content.body) && !IsBot(userId, ev.sender)) {
        return;
      }
      var i := store.Find(ByUserAndVerificationRoom(ev.sender, room));
      if i.Some? && Truthy(store.records[i.value].captchaAnswer) {
        client.Call(ReadReceipt(room, ev.eventId));
        if store.records[i.value].captchaAnswer.value == ev.content.body.value {
          AcceptAfter(store.records, i.value, room, rep, [ReadReceipt(room, ev.eventId)]);
          Accept(i.value, room, rep);
        }
        return;
      }
      if i.None? {
        var m := store.Find(ByUserAndMainRoom(ev.sender, room));
        if m.Some? {
          if !Truthy(userId) {
            return;
          }
          if rep.botCanRedact {
            client.Call(Redact(room, ev.eventId, RedactReason));
          }
        }
      }
    }

    /** Lines 256-288: announce success, restore the user's level, leave
        the verification room and delete the document. */
    method Accept(i: nat, room: string, rep: Replies)
      requires i < |store.records|
      modifies store, client
      ensures store.records == AcceptAnswer(old(store.records), i, room, rep, []).records
      ensures client.sent == old(client.sent) + AcceptAnswer(old(store.records), i, room, rep, []).effects
    {
      var data := store.records[i];
      if rep.powerLevels.None? {
        return;
      }
      var pl := rep.powerLevels.value;
      var requiredPower := 0;
      if pl.eventsDefault.Some? {
        requiredPower := pl.eventsDefault.value;
      }
      if pl.messageLevel.Some? {
        requiredPower := pl.messageLevel.value;
      }
      client.Call(SendNotice(room, VerificationComplete(data.mainRoomId)));
      if rep.canModify && !rep.userCanSend {
        client.Call(SetPowerLevel(data.userId, data.mainRoomId, requiredPower));
      }
      client.Call(LeaveRoom(room, Some(CompleteReason)));
      store.Delete(i);
    }
  }

  lemma AppendAssoc(a: seq<Effect>, b: seq<Effect>, c: seq<Effect>)
    ensures (a + b) + c == a + (b + c)
  {
  }

  /** A main-room join in three steps: drop the earlier document, store
      the new one, set up its room. */
  lemma JoinMainRoomSteps(recs: seq<Verifying>, room: string, sender: string, rep: Replies, kept: seq<Verifying>)
    requires var pre := FindOne(recs, ByUserAndMainRoom(sender, room));
             kept == if pre.Some? then DeleteOne(recs, pre.value) else recs
    ensures var data := Verifying(sender, room, None, None);
            var leaveOld := EarlierRoomLeave(recs, sender, room, rep);
            JoinMainRoom(recs, room, sender, rep)
              == match Save(kept, None, data)
                 case Failure(_) => Outcome(kept, leaveOld)
                 case Success(stored) => SetUpVerificationRoom(stored, data, leaveOld, rep)
  {
  }

  /** Setting up the verification room after earlier calls appends its
      own calls to them. */
  lemma SetUpAfter(recs: seq<Verifying>, data: Verifying, before: seq<Effect>, rep: Replies)
    requires |recs| > 0 && recs[|recs| - 1] == data
    ensures SetUpVerificationRoom(recs, data, before, rep).records == SetUpVerificationRoom(recs, data, [], rep).records
    ensures SetUpVerificationRoom(recs, data, before, rep).effects == before + SetUpVerificationRoom(recs, data, [], rep).effects
  {
  }

  /** The steps after creating the room append their calls to the
      earlier ones. */
  lemma OpenAfter(recs: seq<Verifying>, data: Verifying, before: seq<Effect>, rep: Replies)
    requires |recs| > 0 && recs[|recs| - 1] == data
    ensures OpenVerificationRoom(recs, data, before, rep).records == OpenVerificationRoom(recs, data, [], rep).records
    ensures OpenVerificationRoom(recs, data, before, rep).effects == before + OpenVerificationRoom(recs, data, [], rep).effects
  {
  }

  /** Accepting an answer after earlier calls appends its own calls to
      them. */
  lemma AcceptAfter(recs: seq<Verifying>, i: nat, room: string, rep: Replies, before: seq<Effect>)
    requires i < |recs|
    ensures AcceptAnswer(recs, i, room, rep, before).records == AcceptAnswer(recs, i, room, rep, []).records
    ensures AcceptAnswer(recs, i, room, rep, before).effects == before + AcceptAnswer(recs, i, room, rep, []).effects
  {
  }
}
