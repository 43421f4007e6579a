/** The `help` command (src/commands/help.ts): the HTML escaper it runs over
    the help text, and the calls it makes to answer in a thread or as a
    reply. */
module Help {
  import opened Wrappers

  /** The characters the escaper's pattern `["'&<>]` matches. */
  predicate Special(c: char) {
    c == '"' || c == '&' || c == '\'' || c == '<' || c == '>'
  }

  predicate NoSpecial(s: string) {
    forall k :: 0 <= k < |s| ==> !Special(s[k])
  }

  /** Characters that would open a tag or close an attribute value. */
  predicate Markup(c: char) {
    c == '<' || c == '>' || c == '"' || c == '\''
  }

  predicate NoMarkup(s: string) {
    forall k :: 0 <= k < |s| ==> !Markup(s[k])
  }

  /** The replacement for one character: its entity when it is special,
      the character itself otherwise. */
  function EscapeChar(c: char): (r: string)
    ensures Special(c) <==> r != [c]
    ensures Special(c) ==> |r| >= 4 && r[0] == '&' && r[|r| - 1] == ';'
    ensures NoMarkup(r)
  {
    if c == '"' then "&quot;"
    else if c == '&' then "&amp;"
    else if c == '\'' then "&#39;"
    else if c == '<' then "&lt;"
    else if c == '>' then "&gt;"
    else [c]
  }

  /** Every character of `s` replaced by its escape, in order. */
  function Escaped(s: string): string {
    if s == [] then [] else EscapeChar(s[0]) + Escaped(s[1..])
  }

  /** Escaping distributes over concatenation. */
  lemma {:induction false} EscapedConcat(a: string, b: string)
    ensures Escaped(a + b) == Escaped(a) + Escaped(b)
  {
    if a != [] {
      assert (a + b)[0] == a[0] && (a + b)[1..] == a[1..] + b;
      EscapedConcat(a[1..], b);
    } else {
      assert a + b == b;
    }
  }

  /** A text without special characters escapes to itself. */
  lemma {:induction false} EscapedPlain(s: string)
    requires NoSpecial(s)
    ensures Escaped(s) == s
  {
    if s != [] {
      assert NoSpecial(s[1..]) by {
        forall k | 0 <= k < |s[1..]| ensures !Special(s[1..][k]) {
          assert s[1..][k] == s[k + 1];
        }
      }
      EscapedPlain(s[1..]);
      assert s == [s[0]] + s[1..];
    }
  }

  /** The escaped text has no raw `<`, `>`, `"` or `'`, so it can be put
      inside an HTML element or a quoted attribute. */
  lemma {:induction false} EscapedHasNoMarkup(s: string)
    ensures NoMarkup(Escaped(s))
  {
    if s != [] {
      EscapedHasNoMarkup(s[1..]);
      var head, tail := EscapeChar(s[0]), Escaped(s[1..]);
      forall k | 0 <= k < |head + tail| ensures !Markup((head + tail)[k]) {
        if k < |head| {
          assert (head + tail)[k] == head[k];
        } else {
          assert (head + tail)[k] == tail[k - |head|];
        }
      }
    }
  }

  /** Decoding of the five entities the escaper writes; any other
      character is kept. */
  function Unescape(t: string): string
    decreases |t|
  {
    if t == [] then []
    else if "&quot;" <= t then ['"'] + Unescape(t[6..])
    else if "&amp;" <= t then ['&'] + Unescape(t[5..])
    else if "&#39;" <= t then ['\''] + Unescape(t[5..])
    else if "&lt;" <= t then ['<'] + Unescape(t[4..])
    else if "&gt;" <= t then ['>'] + Unescape(t[4..])
    else [t[0]] + Unescape(t[1..])
  }

  /** Decoding one escape followed by any text decodes the escape and
      then the text. */
  lemma UnescapeStep(c: char, tail: string)
    ensures Unescape(EscapeChar(c) + tail) == [c] + Unescape(tail)
  {
    var head := EscapeChar(c);
    var t := head + tail;
    assert t[|head|..] == tail;
    if c == '"' {
      assert "&quot;" <= t;
    } else if c == '&' {
      assert t[1] == 'a' && "&amp;" <= t;
    } else if c == '\'' {
      assert t[1] == '#' && "&#39;" <= t;
    } else if c == '<' {
      assert t[1] == 'l' && "&lt;" <= t;
    } else if c == '>' {
      assert t[1] == 'g' && "&gt;" <= t;
    } else {
      assert t[0] == c && t[1..] == tail;
    }
  }

  /** Decoding the escaped text gives back the original. */
  lemma {:induction false} UnescapeEscaped(s: string)
    ensures Unescape(Escaped(s)) == s
  {
    if s != [] {
      UnescapeEscaped(s[1..]);
      UnescapeStep(s[0], Escaped(s[1..]));
      assert s == [s[0]] + s[1..];
    }
  }

  /** `RegExp(/["'&<>]/).exec(str)`: the position of the first special
      character, if there is one. */
  function FirstSpecial(s: string): (r: Option<nat>)
    ensures r.Some? ==> r.value < |s| && Special(s[r.value])
    ensures r.Some? ==> forall k :: 0 <= k < r.value ==> !Special(s[k])
    ensures r.None? <==> NoSpecial(s)
  {
    if s == [] then None
    else if Special(s[0]) then Some(0)
    else
      match FirstSpecial(s[1..])
      case None => None
      case Some(k) =>
        assert forall j :: 0 < j <= k ==> s[j] == s[1..][j - 1];
        Some(k + 1)
  }

  /** `escapeHtml`: when there is no special character the input is
      returned as it is; otherwise the loop copies each run of plain
      characters and the entity of each special one. */
  method EscapeHtml(str: string) returns (html: string)
    ensures html == Escaped(str)
  {
    var m := FirstSpecial(str);
    if m.None? {
      EscapedPlain(str);
      return str;
    }
    html := "";
    var index := m.value;
    var lastIndex := 0;
    while index < |str|
      invariant 0 <= lastIndex <= index <= |str|
      invariant html == Escaped(str[..lastIndex])
      invariant forall k :: lastIndex <= k < index ==> !Special(str[k])
    {
      var escape: string;
      var c := str[index];
      if c == '"' {
        escape := "&quot;";
      } else if c == '&' {
        escape := "&amp;";
      } else if c == '\'' {
        escape := "&#39;";
      } else if c == '<' {
        escape := "&lt;";
      } else if c == '>' {
        escape := "&gt;";
      } else {
        assert !Special(c);
        index := index + 1;
        continue;
      }
      ghost var grown := html + str[lastIndex..index];
      assert grown + escape == Escaped(str[..index + 1]) by {
        assert escape == EscapeChar(c);
        EscapeRun(str, lastIndex, index);
      }
      if lastIndex != index {
        html := html + str[lastIndex..index];
      } else {
        assert html == grown;
      }
      lastIndex := index + 1;
      html := html + escape;
      index := index + 1;
    }
    assert str[lastIndex..index] == str[lastIndex..];
    ghost var done := html + str[lastIndex..];
    assert done == Escaped(str) by {
      PlainRun(str, lastIndex, index);
      EscapeTail(str, lastIndex);
    }
    if lastIndex != index {
      html := html + str[lastIndex..index];
    } else {
      assert html == done;
    }
  }

  lemma PlainRun(str: string, lastIndex: nat, index: nat)
    requires lastIndex <= index <= |str|
    requires forall k :: lastIndex <= k < index ==> !Special(str[k])
    ensures NoSpecial(str[lastIndex..index])
  {
    var run := str[lastIndex..index];
    forall j | 0 <= j < |run| ensures !Special(run[j]) {
      assert run[j] == str[lastIndex + j];
    }
  }

  /** One step of the loop: the escaped prefix grows by the plain run and
      the special character's entity. */
  lemma EscapeRun(str: string, lastIndex: nat, index: nat)
    requires lastIndex <= index < |str|
    requires forall k :: lastIndex <= k < index ==> !Special(str[k])
    ensures Escaped(str[..index + 1])
         == Escaped(str[..lastIndex]) + str[lastIndex..index] + EscapeChar(str[index])
  {
    var run := str[lastIndex..index];
    PlainRun(str, lastIndex, index);
    assert str[..index + 1] == str[..lastIndex] + (run + [str[index]]);
    EscapedConcat(str[..lastIndex], run + [str[index]]);
    EscapedConcat(run, [str[index]]);
    EscapedPlain(run);
    assert Escaped([str[index]]) == EscapeChar(str[index]) + Escaped([]);
  }

  /** The end of the loop: the escaped text is the escaped prefix and the
      final plain run. */
  lemma EscapeTail(str: string, lastIndex: nat)
    requires lastIndex <= |str| && NoSpecial(str[lastIndex..])
    ensures Escaped(str) == Escaped(str[..lastIndex]) + str[lastIndex..]
  {
    assert str == str[..lastIndex] + str[lastIndex..];
    EscapedConcat(str[..lastIndex], str[lastIndex..]);
    EscapedPlain(str[lastIndex..]);
  }

  // ---------------------------------------------------------------------
  // runHelpCommand

  /** The `m.relates_to` part of the command message's content. */
  datatype Relation = Relation(relType: Option<string>, eventId: Option<string>)

  /** The client calls the help command makes. */
  datatype Call =
    | SetTyping(roomId: string, typing: bool)
    | SendThreadNotice(roomId: string, body: string, formattedBody: string, threadRoot: Option<string>)
    | ReplyHtmlNotice(roomId: string, replyTo: string, html: string)

  /** The command list, one line per command, each starting with the
      command prefix. */
  function HelpText(prefix: string): string {
    prefix + " help - Displays this menu.\n"
      + prefix + " ping - Pings the bot and gives uptime.\n"
      + prefix + " space - Provides a link to join the Gate Bot space."
  }

  function ThreadBody(prefix: string): string {
    "Commands: ```\n\n`" + prefix + " help - Displays this menu.`\n`"
      + prefix + " ping - Pings the bot and gives uptime.`\n"
      + prefix + " space - Provides a link to join the Gate Bot space.` ```"
  }

  function ThreadHtml(prefix: string): string {
    "<h3>Commands</h3> <pre><code>" + prefix + " help - Displays this menu<br>"
      + prefix + " ping - Pings the bot and gives uptime.<br>"
      + prefix + " space - Provides a link to join the Gate Bot space.</code></pre>"
  }

  predicate IsThread(relation: Option<Relation>) {
    relation.Some? && relation.value.relType == Some("m.thread")
  }

  /** `runHelpCommand`: in a thread, one notice in that thread; otherwise
      the typing indicator is switched on, the escaped command list is sent
      as a reply to the command, and the indicator is switched off. */
  method RunHelpCommand(roomId: string, eventId: string, relation: Option<Relation>, prefix: string)
    returns (calls: seq<Call>)
    ensures IsThread(relation) ==>
      calls == [SendThreadNotice(roomId, ThreadBody(prefix), ThreadHtml(prefix), relation.value.eventId)]
    ensures !IsThread(relation) ==>
      && |calls| == 3
      && calls[0] == SetTyping(roomId, true) && calls[2] == SetTyping(roomId, false)
      && calls[1].ReplyHtmlNotice? && calls[1].roomId == roomId && calls[1].replyTo == eventId
      && calls[1].html == "<h3>Commands</h3> <pre><code>" + Escaped(HelpText(prefix)) + "</code></pre>"
    ensures (exists k :: 0 <= k < |calls| && calls[k].SetTyping?) <==> !IsThread(relation)
  {
    calls := [];
    var isThread := false;
    if relation.Some? && relation.value.relType == Some("m.thread") {
      isThread := true;
    }
    if !isThread {
      calls := calls + [SetTyping(roomId, true)];
    }
    if isThread {
      calls := calls + [SendThreadNotice(roomId, ThreadBody(prefix), ThreadHtml(prefix), relation.value.eventId)];
    } else {
      var escaped := EscapeHtml(HelpText(prefix));
      calls := calls + [ReplyHtmlNotice(roomId, eventId, "<h3>Commands</h3> <pre><code>" + escaped + "</code></pre>")];
    }
    if !isThread {
      calls := calls + [SetTyping(roomId, false)];
    }
  }

  /** The reply shows the command list exactly: decoding the escaped part
      gives the text with the configured prefix, whatever characters the
      prefix holds. */
  lemma ReplyShowsHelpText(prefix: string)
    ensures Unescape(Escaped(HelpText(prefix))) == HelpText(prefix)
    ensures NoMarkup(Escaped(HelpText(prefix)))
  {
    UnescapeEscaped(HelpText(prefix));
    EscapedHasNoMarkup(HelpText(prefix));
  }
}
