/** The pure rules inside src/handler.ts: the power level needed to post,
    when a user's level is lowered or raised, and how a message is read as
    a command. */
module HandlerRules {
  import opened Wrappers
  import opened Strings

  /** The parts of a room's `m.room.power_levels` state that the handler
      reads: `events_default` and `events["m.room.message"]`, each present
      only when it is a finite number (`Number.isFinite`). */
  datatype PowerLevels = PowerLevels(eventsDefault: Option<int>, messageLevel: Option<int>)

  /** The level needed to send `m.room.message`: start from 0, overwrite it
      with a finite `events_default`, then with a finite `m.room.message`
      entry. So the message entry wins over the default, which wins over 0. */
  function RequiredPower(pl: PowerLevels): (required: int)
    ensures pl.messageLevel.Some? ==> required == pl.messageLevel.value
    ensures pl.messageLevel.None? && pl.eventsDefault.Some? ==> required == pl.eventsDefault.value
    ensures pl.messageLevel.None? && pl.eventsDefault.None? ==> required == 0
  {
    var initial := 0;
    var afterDefault := if pl.eventsDefault.Some? then pl.eventsDefault.value else initial;
    if pl.messageLevel.Some? then pl.messageLevel.value else afterDefault
  }

  /** The chat protocol's rule: a user may post when their level reaches the
      requirement. */
  predicate MaySend(level: int, pl: PowerLevels) {
    level >= RequiredPower(pl)
  }

  /** The level a joining user is set to, if any: one below the requirement,
      and only when the bot may change the user's level and the user can
      currently post. */
  function SuspendTo(pl: PowerLevels, canModify: bool, canSend: bool): (level: Option<int>)
    ensures level.Some? <==> canModify && canSend
    ensures level.Some? ==> !MaySend(level.value, pl) && MaySend(level.value + 1, pl)
  {
    if canModify && canSend then Some(RequiredPower(pl) - 1) else None
  }

  /** The level a user who answered correctly is set to, if any: exactly the
      requirement, and only when the bot may change the user's level and the
      user cannot currently post. */
  function RestoreTo(pl: PowerLevels, canModify: bool, canSend: bool): (level: Option<int>)
    ensures level.Some? <==> canModify && !canSend
    ensures level.Some? ==> MaySend(level.value, pl) && !MaySend(level.value - 1, pl)
  {
    if canModify && !canSend then Some(RequiredPower(pl)) else None
  }

  /** Restoring a suspended user, under unchanged power levels, gives back
      exactly the least level that may post. */
  lemma RestoreUndoesSuspend(pl: PowerLevels, canModify: bool)
    requires canModify
    ensures SuspendTo(pl, canModify, true).Some?
    ensures RestoreTo(pl, canModify, MaySend(SuspendTo(pl, canModify, true).value, pl))
         == Some(SuspendTo(pl, canModify, true).value + 1)
  {
  }

  /** How a template literal writes a string field that may be undefined. */
  function TemplateText(v: Option<string>): string {
    if v.Some? then v.value else "undefined"
  }

  /** The prefixes a command may start with, in the order they are tried:
      the configured prefix, then `<localpart>:`, `<displayName>:` and
      `<userId>:`. */
  function Prefixes(prefix: string, localpart: Option<string>, displayName: Option<string>, userId: string): (ps: seq<string>)
  {
    [prefix, TemplateText(localpart) + ":", TemplateText(displayName) + ":", userId + ":"]
  }

  /** `prefixes.find(p => body.startsWith(p))`: the position of the first
      prefix the body starts with. */
  function FindPrefix(ps: seq<string>, body: string): (r: Option<nat>)
    ensures r.Some? ==> r.value < |ps| && ps[r.value] <= body
    ensures r.Some? ==> forall j :: 0 <= j < r.value ==> !(ps[j] <= body)
    ensures r.None? <==> forall j :: 0 <= j < |ps| ==> !(ps[j] <= body)
  {
    FindPrefixFrom(ps, body, 0)
  }

  function FindPrefixFrom(ps: seq<string>, body: string, k: nat): (r: Option<nat>)
    requires k <= |ps|
    requires forall j :: 0 <= j < k ==> !(ps[j] <= body)
    ensures r.Some? ==> k <= r.value < |ps| && ps[r.value] <= body
    ensures r.Some? ==> forall j :: 0 <= j < r.value ==> !(ps[j] <= body)
    ensures r.None? <==> forall j :: 0 <= j < |ps| ==> !(ps[j] <= body)
    decreases |ps| - k
  {
    if k == |ps| then None
    else if ps[k] <= body then Some(k)
    else FindPrefixFrom(ps, body, k + 1)
  }

  /** The words of a command: the body after the prefix, trimmed, split on
      single spaces. */
  function CommandArgs(body: string, prefixUsed: string): (args: seq<string>)
    requires prefixUsed <= body
    ensures |args| >= 1 && forall k :: 0 <= k < |args| ==> ' ' !in args[k]
    ensures Join(args, ' ') == Trim(body[|prefixUsed|..])
  {
    JoinSplit(Trim(body[|prefixUsed|..]), ' ');
    Split(Trim(body[|prefixUsed|..]), ' ')
  }

  /** The arguments of a message, or none when it is not a command: no
      prefix matches, or the first prefix that matches is the empty string,
      which `if (!prefixUsed)` treats as no prefix. */
  function ParseCommand(ps: seq<string>, body: string): Option<seq<string>> {
    match FindPrefix(ps, body)
    case None => None
    case Some(k) => if ps[k] == "" then None else Some(CommandArgs(body, ps[k]))
  }

  datatype Command = NoCommand | Ping | Space | Help

  /** The command a first word selects; every command needs the bot's own
      permission to post in the room. */
  function CommandFor(word: string, canSend: bool): (c: Command)
    ensures c != NoCommand ==> canSend
    ensures c == Ping <==> canSend && word == "ping"
    ensures c == Space <==> canSend && (word == "space" || word == "support" || word == "room")
    ensures c == Help <==> canSend && word == "help"
  {
    if word == "ping" && canSend then Ping
    else if word in ["space", "support", "room"] && canSend then Space
    else if word == "help" && canSend then Help
    else NoCommand
  }
}
