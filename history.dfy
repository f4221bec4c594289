/**
 * The per-conversation chat history (`chatHistory`, server.js:12) and what
 * one `messages.upsert` event does to it (server.js:58-103), as a function
 * of the old map, the event and the outcome of the completion request.
 */
module History {
  import opened Wrappers
  import opened Inbound
  import opened Completion

  /** The two roles the source writes; the system prompt is stored as a "user" turn. */
  datatype Role = User | Model

  /** `{ role, parts: [{ text }] }`: every turn the source builds has exactly one part. */
  datatype Turn = Turn(role: Role, text: string)

  type Histories = map<string, seq<Turn>>

  /** The length above which the two entries after the prompt are spliced out. */
  const MaxTurns: nat := 10

  /** The text sent when the completion request fails (server.js:99). */
  const Sleeping: string := "Veda is sleeping..."

  /** What the handler sends back: nothing, or a text to a conversation, optionally quoting the inbound message. */
  datatype Outbound = NoSend | Send(jid: string, text: string, quoted: Option<WebMessage>)

  /** The new map, the turns submitted to the completion service (if any), and the send. */
  datatype Effect = Effect(history: Histories, request: Option<seq<Turn>>, out: Outbound)

  /** The seed of a new conversation: the system prompt as a "user" turn (server.js:70). */
  function SeedTurn(prompt: string): Turn {
    Turn(User, prompt)
  }

  /** The history the new user turn is appended to: the stored one, or a fresh seed. */
  function Prior(prompt: string, h: Histories, jid: string): seq<Turn> {
    if jid in h then h[jid] else [SeedTurn(prompt)]
  }

  /**
   * `if (length > 10) splice(1, 2)`: above the bound exactly the entries at
   * indices 1 and 2 go; index 0 and the order of the rest are kept.
   */
  function Evict(s: seq<Turn>): (r: seq<Turn>)
    ensures |s| > 0 ==> |r| > 0 && r[0] == s[0]
    ensures |s| <= MaxTurns + 2 ==> |r| <= MaxTurns
    ensures |s| <= MaxTurns ==> r == s
    ensures |s| > MaxTurns ==> |r| == |s| - 2 && r[1..] == s[3..]
  {
    if |s| > MaxTurns then s[..1] + s[3..] else s
  }

  /**
   * One `messages.upsert` event. `completion` is what the POST of the
   * history (with the new user turn) resolved or rejected with. A filtered
   * event changes nothing and sends nothing; a handled one always submits
   * the history ending in the trimmed user turn, always answers its own
   * conversation, and stores a history for it.
   */
  function Step(prompt: string, h: Histories, messages: seq<WebMessage>, completion: Outcome): (r: Effect)
    ensures Accept(messages).None? <==> r.out.NoSend?
    ensures Accept(messages).None? ==> r.history == h && r.request.None?
    ensures Accept(messages).Some? ==>
      var q := Accept(messages).value;
      && r.request.Some? && |r.request.value| >= 1
      && r.request.value[|r.request.value| - 1] == Turn(User, Trim(q.raw))
      && r.out.Send? && r.out.jid == q.jid
      && q.jid in r.history
  {
    match Accept(messages)
    case None => Effect(h, None, NoSend)
    case Some(q) =>
      var withUser := Prior(prompt, h, q.jid) + [Turn(User, Trim(q.raw))];
      match completion
      case Failed =>
        Effect(h[q.jid := withUser], Some(withUser), Send(q.jid, Sleeping, None))
      case Succeeded(data) =>
        var reply := ExtractReply(data);
        Effect(h[q.jid := Evict(withUser + [Turn(Model, reply)])], Some(withUser),
               Send(q.jid, reply, Some(messages[0])))
  }
}
