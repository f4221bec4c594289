/**
 * The inbound message event as the messaging library hands it to the
 * `messages.upsert` handler, the text extraction of server.js:63 and the
 * JavaScript `String.prototype.trim` applied to it at server.js:66.
 */
module Inbound {
  import opened Wrappers

  /** `m.key`: the conversation it belongs to and whether the bot wrote it. */
  datatype MessageKey = MessageKey(remoteJid: string, fromMe: bool)

  /** `m.message.extendedTextMessage` (a quoted or link-preview text). */
  datatype ExtendedText = ExtendedText(text: Option<string>)

  /** `m.message`: only the two text-bearing fields are read. */
  datatype MessageContent = MessageContent(
    conversation: Option<string>,
    extendedTextMessage: Option<ExtendedText>)

  /** One element of the `messages` array of an upsert event. */
  datatype WebMessage = WebMessage(key: MessageKey, message: Option<MessageContent>)

  /** A message that passed the handler's filters: its conversation and its untrimmed text. */
  datatype Query = Query(jid: string, raw: string)

  /** `m.message?.extendedTextMessage?.text` */
  function ExtendedTextOf(content: MessageContent): Option<string> {
    match content.extendedTextMessage
    case None => None
    case Some(ext) => ext.text
  }

  /**
   * `conversation || extendedTextMessage?.text || ""`: the first of the two
   * fields that holds a non-empty string, or the empty string.
   */
  function ExtractText(content: MessageContent): (r: string)
    ensures Truthy(content.conversation) ==> r == content.conversation.value
    ensures !Truthy(content.conversation) && Truthy(ExtendedTextOf(content)) ==> r == ExtendedTextOf(content).value
    ensures r == "" <==> !Truthy(content.conversation) && !Truthy(ExtendedTextOf(content))
  {
    if Truthy(content.conversation) then content.conversation.value
    else if Truthy(ExtendedTextOf(content)) then ExtendedTextOf(content).value
    else ""
  }

  /**
   * The handler's filter: only `messages[0]` is looked at; it is dropped when
   * it has no `message`, when `key.fromMe` is set, or when its extracted text
   * is empty. An empty batch makes `messages[0]` undefined and the handler
   * throws before touching any state; the model treats it as ignored, and the
   * rejected promise of the listener that nothing catches is outside the model.
   */
  function Accept(messages: seq<WebMessage>): (r: Option<Query>)
    ensures r.Some? <==>
      |messages| > 0 && messages[0].message.Some? && !messages[0].key.fromMe
      && ExtractText(messages[0].message.value) != ""
    ensures r.Some? ==>
      r.value.jid == messages[0].key.remoteJid && r.value.raw == ExtractText(messages[0].message.value)
  {
    if |messages| == 0 then None
    else
      var m := messages[0];
      if m.message.None? || m.key.fromMe then None
      else
        var msg := ExtractText(m.message.value);
        if msg == "" then None else Some(Query(m.key.remoteJid, msg))
  }

  /** Only the first message of a batch decides what happens. */
  lemma OnlyFirstMessageCounts(messages: seq<WebMessage>)
    requires |messages| > 0
    ensures Accept(messages) == Accept(messages[..1])
  {
  }

  /**
   * The characters `trim` removes: ECMAScript's WhiteSpace (tab, vertical tab,
   * form feed, the byte-order mark and every space separator of Unicode
   * category Zs) and LineTerminator (line feed, carriage return, line and
   * paragraph separators). All of them lie in the Basic Multilingual Plane,
   * so a UTF-16 code unit and a scalar value agree on them; the zero-width
   * space and the next-line control are not among them.
   */
  predicate IsJsWhitespace(c: char)
    ensures IsJsWhitespace(c) ==> c <= '\U{FFFF}'
    ensures c == '\U{200B}' || c == '\U{0085}' ==> !IsJsWhitespace(c)
  {
    || c == '\t' || c == '\U{000B}' || c == '\U{000C}' || c == '\U{FEFF}'
    || c == ' ' || c == '\U{00A0}' || c == '\U{1680}'
    || ('\U{2000}' <= c <= '\U{200A}')
    || c == '\U{202F}' || c == '\U{205F}' || c == '\U{3000}'
    || c == '\n' || c == '\r' || c == '\U{2028}' || c == '\U{2029}'
  }

  predicate AllWhitespace(s: string) {
    forall i | 0 <= i < |s| :: IsJsWhitespace(s[i])
  }

  /** Drops leading whitespace: the result is the suffix of `s` after its whitespace run. */
  function TrimStart(s: string): (r: string)
    ensures |r| <= |s| && r == s[|s| - |r|..]
    ensures AllWhitespace(s[..|s| - |r|])
    ensures r == [] || !IsJsWhitespace(r[0])
  {
    if |s| > 0 && IsJsWhitespace(s[0]) then TrimStart(s[1..]) else s
  }

  /** Drops trailing whitespace: the result is the prefix of `s` before its whitespace run. */
  function TrimEnd(s: string): (r: string)
    ensures |r| <= |s| && r == s[..|r|]
    ensures AllWhitespace(s[|r|..])
    ensures r == [] || !IsJsWhitespace(r[|r| - 1])
  {
    if |s| > 0 && IsJsWhitespace(s[|s| - 1]) then TrimEnd(s[..|s| - 1]) else s
  }

  /** `String.prototype.trim`. */
  function Trim(s: string): (r: string)
    ensures |r| <= |s|
    ensures r == [] || (!IsJsWhitespace(r[0]) && !IsJsWhitespace(r[|r| - 1]))
    ensures r == [] <==> AllWhitespace(s)
  {
    var t := TrimStart(s);
    var r := TrimEnd(t);
    assert r == [] ==> AllWhitespace(s) by {
      if r == [] {
        forall i | 0 <= i < |s| ensures IsJsWhitespace(s[i]) {
          if i < |s| - |t| {
            assert s[i] == s[..|s| - |t|][i];
          }
        }
      }
    }
    r
  }

  /**
   * Trim is determined by the text between the whitespace runs: whatever
   * whitespace surrounds a core that neither starts nor ends with whitespace,
   * trimming gives back exactly that core.
   */
  lemma {:induction false} TrimOfPadded(lead: string, core: string, tail: string)
    requires AllWhitespace(lead) && AllWhitespace(tail)
    requires core == [] || (!IsJsWhitespace(core[0]) && !IsJsWhitespace(core[|core| - 1]))
    ensures Trim(lead + core + tail) == core
  {
    if core == [] {
      var s := lead + core + tail;
      assert AllWhitespace(s) by {
        forall i | 0 <= i < |s| ensures IsJsWhitespace(s[i]) {
          if i < |lead| { assert s[i] == lead[i]; } else { assert s[i] == tail[i - |lead|]; }
        }
      }
    } else {
      TrimStartOfPadded(lead, core + tail);
      assert lead + core + tail == lead + (core + tail);
      TrimEndOfPadded(core, tail);
    }
  }

  lemma {:induction false} TrimStartOfPadded(lead: string, rest: string)
    requires AllWhitespace(lead)
    requires rest != [] && !IsJsWhitespace(rest[0])
    ensures TrimStart(lead + rest) == rest
  {
    if lead != [] {
      assert (lead + rest)[1..] == lead[1..] + rest;
      TrimStartOfPadded(lead[1..], rest);
    }
  }

  lemma {:induction false} TrimEndOfPadded(rest: string, tail: string)
    requires AllWhitespace(tail)
    requires rest != [] && !IsJsWhitespace(rest[|rest| - 1])
    ensures TrimEnd(rest + tail) == rest
  {
    if tail != [] {
      var s := rest + tail;
      assert s[..|s| - 1] == rest + tail[..|tail| - 1];
      TrimEndOfPadded(rest, tail[..|tail| - 1]);
    }
  }

  /** Trimming twice is trimming once. */
  lemma TrimIdempotent(s: string)
    ensures Trim(Trim(s)) == Trim(s)
  {
    TrimOfPadded([], Trim(s), []);
    assert [] + Trim(s) + [] == Trim(s);
  }
}
