/**
 * What the `messages.upsert` handler guarantees about `chatHistory`, for one
 * event and for any sequence of events handled one after the other.
 */
module HistoryProperties {
  import opened Wrappers
  import opened Inbound
  import opened Completion
  import opened History

  /** One upsert event together with how its completion request ended. */
  datatype Event = Event(messages: seq<WebMessage>, completion: Outcome)

  /** The map after handling `events` in order, each one to completion before the next. */
  function Run(prompt: string, h: Histories, events: seq<Event>): Histories
    decreases |events|
  {
    if events == [] then h
    else Run(prompt, Step(prompt, h, events[0].messages, events[0].completion).history, events[1..])
  }

  /** Every stored conversation starts with the system-prompt turn. */
  predicate Pinned(prompt: string, h: Histories) {
    forall k | k in h :: |h[k]| > 0 && h[k][0] == SeedTurn(prompt)
  }

  /** The event was accepted and belongs to conversation `jid`. */
  predicate AddressedTo(e: Event, jid: string) {
    Accept(e.messages).Some? && Accept(e.messages).value.jid == jid
  }

  // ---------------------------------------------------------------------------
  // One event
  // ---------------------------------------------------------------------------

  /** An ignored event changes nothing and sends nothing; an accepted one always sends. */
  lemma IgnoredEventsChangeNothing(prompt: string, h: Histories, messages: seq<WebMessage>, completion: Outcome)
    ensures Step(prompt, h, messages, completion).out == NoSend <==> Accept(messages).None?
    ensures Accept(messages).None? ==> Step(prompt, h, messages, completion) == Effect(h, None, NoSend)
    ensures Step(prompt, h, messages, completion).request.Some? <==> Accept(messages).Some?
  {
  }

  /** Seeding puts the prompt at index 0, appends never move it and the splice starts at 1. */
  lemma StepKeepsPinned(prompt: string, h: Histories, messages: seq<WebMessage>, completion: Outcome)
    requires Pinned(prompt, h)
    ensures Pinned(prompt, Step(prompt, h, messages, completion).history)
  {
    match Accept(messages)
    case None =>
    case Some(q) =>
      var withUser := Prior(prompt, h, q.jid) + [Turn(User, Trim(q.raw))];
      assert withUser[0] == SeedTurn(prompt);
      var stored := if completion.Failed? then withUser
                    else Evict(withUser + [Turn(Model, ExtractReply(completion.data))]);
      assert |stored| > 0 && stored[0] == SeedTurn(prompt);
      assert Step(prompt, h, messages, completion).history == h[q.jid := stored];
  }

  /**
   * The request carries the stored history (or the fresh seed) followed by
   * the trimmed user turn; the model turn and the splice come after it.
   */
  lemma RequestCarriesNewUserTurn(prompt: string, h: Histories, messages: seq<WebMessage>, completion: Outcome, q: Query)
    requires Accept(messages) == Some(q)
    ensures var e := Step(prompt, h, messages, completion);
      && e.request.Some?
      && |e.request.value| == |Prior(prompt, h, q.jid)| + 1
      && e.request.value[..|e.request.value| - 1] == Prior(prompt, h, q.jid)
      && e.request.value[|e.request.value| - 1] == Turn(User, Trim(q.raw))
      && q.jid in e.history
      && (completion.Failed? ==> e.history[q.jid] == e.request.value)
      && (completion.Succeeded? ==>
            e.history[q.jid] == Evict(e.request.value + [Turn(Model, ExtractReply(completion.data))]))
  {
    var e := Step(prompt, h, messages, completion);
    var withUser := Prior(prompt, h, q.jid) + [Turn(User, Trim(q.raw))];
    assert e.request == Some(withUser);
    assert withUser[..|withUser| - 1] == Prior(prompt, h, q.jid);
  }

  /**
   * On success the history becomes old ++ [user, model]; when that is longer
   * than the bound, the two entries after the prompt are the ones dropped.
   * The reply is sent quoting the inbound message.
   */
  lemma SuccessShape(prompt: string, h: Histories, messages: seq<WebMessage>, data: ResponseBody, q: Query)
    requires Accept(messages) == Some(q)
    ensures var e := Step(prompt, h, messages, Succeeded(data));
      var p := Prior(prompt, h, q.jid);
      var pair := [Turn(User, Trim(q.raw)), Turn(Model, ExtractReply(data))];
      && q.jid in e.history
      && (|p| + 2 <= MaxTurns ==> e.history[q.jid] == p + pair)
      && (|p| + 2 > MaxTurns ==> e.history[q.jid] == [p[0]] + p[3..] + pair)
      && e.out == Send(q.jid, ExtractReply(data), Some(messages[0]))
  {
    var p := Prior(prompt, h, q.jid);
    var pair := [Turn(User, Trim(q.raw)), Turn(Model, ExtractReply(data))];
    var full := p + [Turn(User, Trim(q.raw))] + [Turn(Model, ExtractReply(data))];
    assert full == p + pair;
    if |p| + 2 > MaxTurns {
      assert Evict(full) == [p[0]] + p[3..] + pair by {
        assert Evict(full)[1..] == full[3..] == p[3..] + pair;
      }
    }
  }

  /**
   * On success a history within the bound stays within it, and one that is
   * already full keeps its length: the splice never brings it below where it was.
   */
  lemma SuccessLength(prompt: string, h: Histories, messages: seq<WebMessage>, data: ResponseBody, q: Query)
    requires Accept(messages) == Some(q)
    ensures var e := Step(prompt, h, messages, Succeeded(data));
      var p := Prior(prompt, h, q.jid);
      && q.jid in e.history
      && (|p| <= MaxTurns ==> |e.history[q.jid]| <= MaxTurns)
      && (|p| + 2 <= MaxTurns ==> |e.history[q.jid]| == |p| + 2)
      && (|p| + 2 > MaxTurns ==> |e.history[q.jid]| == |p|)
  {
    SuccessShape(prompt, h, messages, data, q);
  }

  /** On failure the user turn stays, no model turn is added, nothing is spliced, and the apology is sent unquoted. */
  lemma FailureShape(prompt: string, h: Histories, messages: seq<WebMessage>, q: Query)
    requires Accept(messages) == Some(q)
    ensures var e := Step(prompt, h, messages, Failed);
      && q.jid in e.history
      && e.history[q.jid] == Prior(prompt, h, q.jid) + [Turn(User, Trim(q.raw))]
      && |e.history[q.jid]| == |Prior(prompt, h, q.jid)| + 1
      && e.out == Send(q.jid, Sleeping, None)
  {
  }

  /** Handling one conversation's message leaves every other conversation as it was. */
  lemma StepIsolation(prompt: string, h: Histories, messages: seq<WebMessage>, completion: Outcome, k: string)
    requires Accept(messages).None? || Accept(messages).value.jid != k
    ensures var h' := Step(prompt, h, messages, completion).history;
      && (k in h' <==> k in h)
      && (k in h ==> h'[k] == h[k])
  {
  }

  /** The only key an event can add is its own conversation. */
  lemma StepKeys(prompt: string, h: Histories, messages: seq<WebMessage>, completion: Outcome)
    ensures var h' := Step(prompt, h, messages, completion).history;
      h'.Keys == if Accept(messages).Some? then h.Keys + {Accept(messages).value.jid} else h.Keys
  {
  }

  // ---------------------------------------------------------------------------
  // Sequences of events
  // ---------------------------------------------------------------------------

  /** Index 0 of every history is the system prompt after any sequence of events. */
  lemma {:induction false} RunKeepsPinned(prompt: string, h: Histories, events: seq<Event>)
    requires Pinned(prompt, h)
    ensures Pinned(prompt, Run(prompt, h, events))
    decreases |events|
  {
    if events != [] {
      StepKeepsPinned(prompt, h, events[0].messages, events[0].completion);
      RunKeepsPinned(prompt, Step(prompt, h, events[0].messages, events[0].completion).history, events[1..]);
    }
  }

  /** Starting from the empty map of server.js:12, the prompt is always pinned. */
  lemma PromptAlwaysPinned(prompt: string, events: seq<Event>, k: string)
    requires k in Run(prompt, map[], events)
    ensures |Run(prompt, map[], events)[k]| > 0 && Run(prompt, map[], events)[k][0] == SeedTurn(prompt)
  {
    RunKeepsPinned(prompt, map[], events);
  }

  /** A conversation no event is addressed to is never touched. */
  lemma {:induction false} RunIsolation(prompt: string, h: Histories, events: seq<Event>, k: string)
    requires forall i | 0 <= i < |events| :: !AddressedTo(events[i], k)
    ensures var h' := Run(prompt, h, events);
      && (k in h' <==> k in h)
      && (k in h ==> h'[k] == h[k])
    decreases |events|
  {
    if events != [] {
      assert !AddressedTo(events[0], k);
      StepIsolation(prompt, h, events[0].messages, events[0].completion, k);
      var h1 := Step(prompt, h, events[0].messages, events[0].completion).history;
      forall i | 0 <= i < |events[1..]| ensures !AddressedTo(events[1..][i], k) {
        assert events[1..][i] == events[i + 1];
      }
      RunIsolation(prompt, h1, events[1..], k);
    }
  }

  /**
   * A history that only ever saw successes: the prompt, then user/model pairs,
   * so its length is odd and at most 9.
   */
  predicate Paired(prompt: string, s: seq<Turn>) {
    && |s| % 2 == 1
    && |s| < MaxTurns
    && s[0] == SeedTurn(prompt)
    && forall i | 1 <= i < |s| :: s[i].role == (if i % 2 == 1 then User else Model)
  }

  predicate AllPaired(prompt: string, h: Histories) {
    forall k | k in h :: Paired(prompt, h[k])
  }

  /** Appending a question and its answer to a paired history, then splicing, keeps it paired. */
  lemma AppendPairKeepsPaired(prompt: string, p: seq<Turn>, u: Turn, m: Turn)
    requires Paired(prompt, p) && u.role == User && m.role == Model
    ensures Paired(prompt, Evict(p + [u, m]))
  {
    var s := p + [u, m];
    var r := Evict(s);
    if |s| > MaxTurns {
      assert r == [p[0]] + p[3..] + [u, m] by {
        assert r[1..] == s[3..] == p[3..] + [u, m];
      }
      forall i | 1 <= i < |r| ensures r[i].role == (if i % 2 == 1 then User else Model) {
        if i < |p| - 2 { assert r[i] == p[i + 2]; }
      }
    } else {
      forall i | 1 <= i < |r| ensures r[i].role == (if i % 2 == 1 then User else Model) {
        if i < |p| { assert r[i] == p[i]; }
      }
    }
  }

  /** One successful exchange keeps a paired history paired. */
  lemma SuccessKeepsPaired(prompt: string, h: Histories, messages: seq<WebMessage>, data: ResponseBody)
    requires AllPaired(prompt, h)
    ensures AllPaired(prompt, Step(prompt, h, messages, Succeeded(data)).history)
  {
    var h' := Step(prompt, h, messages, Succeeded(data)).history;
    if Accept(messages).Some? {
      var q := Accept(messages).value;
      var p := Prior(prompt, h, q.jid);
      assert Paired(prompt, p) by {
        if q.jid !in h {
          assert p == [SeedTurn(prompt)];
        }
      }
      var u, m := Turn(User, Trim(q.raw)), Turn(Model, ExtractReply(data));
      assert h'[q.jid] == Evict(p + [u] + [m]);
      assert p + [u] + [m] == p + [u, m];
      AppendPairKeepsPaired(prompt, p, u, m);
      forall k | k in h' ensures Paired(prompt, h'[k]) {
        if k != q.jid { StepIsolation(prompt, h, messages, Succeeded(data), k); }
      }
    }
  }

  /**
   * Histories that only ever see successful completions have length 1, 3, 5,
   * 7 or 9 and alternate user and model turns after the prompt.
   */
  lemma {:induction false} SuccessOnlyRunsStayPaired(prompt: string, h: Histories, events: seq<Event>)
    requires AllPaired(prompt, h)
    requires forall i | 0 <= i < |events| :: events[i].completion.Succeeded?
    ensures AllPaired(prompt, Run(prompt, h, events))
    decreases |events|
  {
    if events != [] {
      var e0, rest := events[0], events[1..];
      SuccessKeepsPaired(prompt, h, e0.messages, e0.completion.data);
      var h1 := Step(prompt, h, e0.messages, e0.completion).history;
      assert Run(prompt, h, events) == Run(prompt, h1, rest);
      forall i | 0 <= i < |rest| ensures rest[i].completion.Succeeded? {
        assert rest[i] == events[i + 1];
      }
      SuccessOnlyRunsStayPaired(prompt, h1, rest);
    }
  }

  /** The lengths a paired history can have. */
  lemma PairedLengths(prompt: string, s: seq<Turn>)
    requires Paired(prompt, s)
    ensures |s| == 1 || |s| == 3 || |s| == 5 || |s| == 7 || |s| == 9
  {
  }

  /** From the empty map, success-only histories never exceed 9 entries and have odd length. */
  lemma SuccessOnlyLengths(prompt: string, events: seq<Event>, k: string)
    requires forall i | 0 <= i < |events| :: events[i].completion.Succeeded?
    requires k in Run(prompt, map[], events)
    ensures var n := |Run(prompt, map[], events)[k]|; n == 1 || n == 3 || n == 5 || n == 7 || n == 9
  {
    SuccessOnlyRunsStayPaired(prompt, map[], events);
    PairedLengths(prompt, Run(prompt, map[], events)[k]);
  }

  /** A failed exchange for `k` appends exactly the user turn to what `k` had. */
  lemma FailureExtendsPrior(prompt: string, h: Histories, messages: seq<WebMessage>, k: string)
    requires AddressedTo(Event(messages, Failed), k)
    ensures var h1 := Step(prompt, h, messages, Failed).history;
      && k in h1
      && Prior(prompt, h1, k) == Prior(prompt, h, k) + [Turn(User, Trim(Accept(messages).value.raw))]
  {
  }

  /**
   * Each failed exchange for a conversation adds exactly one turn and keeps
   * everything before it, so repeated failures grow the history without bound.
   */
  lemma {:induction false} FailuresAccumulate(prompt: string, h: Histories, events: seq<Event>, k: string)
    requires forall i | 0 <= i < |events| :: events[i].completion == Failed && AddressedTo(events[i], k)
    requires k in h || events != []
    ensures var h' := Run(prompt, h, events);
      && k in h'
      && |h'[k]| == |Prior(prompt, h, k)| + |events|
      && h'[k][..|Prior(prompt, h, k)|] == Prior(prompt, h, k)
    decreases |events|
  {
    if events != [] {
      var e0, rest := events[0], events[1..];
      var h1 := Step(prompt, h, e0.messages, Failed).history;
      assert Run(prompt, h, events) == Run(prompt, h1, rest) by {
        assert e0.completion == Failed;
      }
      assert k in h1 && |Prior(prompt, h1, k)| == |Prior(prompt, h, k)| + 1
          && Prior(prompt, h1, k)[..|Prior(prompt, h, k)|] == Prior(prompt, h, k) by {
        assert e0 == Event(e0.messages, Failed);
        FailureExtendsPrior(prompt, h, e0.messages, k);
      }
      assert forall i | 0 <= i < |rest| :: rest[i].completion == Failed && AddressedTo(rest[i], k) by {
        forall i | 0 <= i < |rest| ensures rest[i].completion == Failed && AddressedTo(rest[i], k) {
          assert rest[i] == events[i + 1];
        }
      }
      FailuresAccumulate(prompt, h1, rest, k);
      PrefixOfExtension(Prior(prompt, h, k), Prior(prompt, h1, k), Run(prompt, h1, rest)[k]);
    }
  }

  lemma PrefixOfExtension(p: seq<Turn>, p1: seq<Turn>, r: seq<Turn>)
    requires |p1| == |p| + 1 && p1[..|p|] == p
    requires |p1| <= |r| && r[..|p1|] == p1
    ensures r[..|p|] == p
  {
    assert r[..|p|] == r[..|p1|][..|p|];
  }

  /** Two failures in a row take a conversation of 9 entries past the bound of 10. */
  lemma RepeatedFailuresExceedBound(prompt: string, h: Histories, e1: Event, e2: Event, k: string)
    requires e1.completion == Failed && AddressedTo(e1, k)
    requires e2.completion == Failed && AddressedTo(e2, k)
    requires |Prior(prompt, h, k)| == MaxTurns - 1
    ensures k in Run(prompt, h, [e1, e2]) && |Run(prompt, h, [e1, e2])[k]| == MaxTurns + 1
  {
    FailuresAccumulate(prompt, h, [e1, e2], k);
  }

  // ---------------------------------------------------------------------------
  // Particular messages and responses
  // ---------------------------------------------------------------------------

  /** A plain text message from someone else in conversation `jid`. */
  function TextMessage(jid: string, text: string): WebMessage {
    WebMessage(MessageKey(jid, false), Some(MessageContent(Some(text), None)))
  }

  /** A response whose only candidate has the single text part `t`. */
  function SingleReply(t: string): ResponseBody {
    ResponseBody(Some([Candidate(Some(Content(Some([Part(Some(t))]))))]))
  }

  /**
   * A response without candidates is still a success: the fallback text is
   * stored as the model turn and sent quoting the inbound message.
   */
  lemma NoCandidatesStillSucceeds(prompt: string, h: Histories, messages: seq<WebMessage>, q: Query)
    requires Accept(messages) == Some(q)
    ensures var e := Step(prompt, h, messages, Succeeded(ResponseBody(None)));
      && q.jid in e.history
      && |e.history[q.jid]| > 1
      && e.history[q.jid][|e.history[q.jid]| - 1] == Turn(Model, NoResponse)
      && e.out == Send(q.jid, NoResponse, Some(messages[0]))
  {
    SuccessShape(prompt, h, messages, ResponseBody(None), q);
  }

  /**
   * A whitespace-only text passes the emptiness check before it is trimmed,
   * so it is stored and submitted as an empty user turn and gets a reply.
   */
  lemma WhitespaceOnlyMessage(prompt: string, h: Histories, jid: string, ws: string, completion: Outcome)
    requires ws != [] && AllWhitespace(ws)
    ensures var e := Step(prompt, h, [TextMessage(jid, ws)], completion);
      && e.request.Some?
      && e.request.value == Prior(prompt, h, jid) + [Turn(User, "")]
      && e.out.Send? && e.out.jid == jid
      && jid in e.history
      && (completion.Failed? ==> e.history[jid][|e.history[jid]| - 1] == Turn(User, ""))
      && (completion.Succeeded? ==> e.history[jid][|e.history[jid]| - 2] == Turn(User, ""))
  {
    assert Accept([TextMessage(jid, ws)]) == Some(Query(jid, ws));
    if completion.Succeeded? {
      SuccessShape(prompt, h, [TextMessage(jid, ws)], completion.data, Query(jid, ws));
    }
  }

  /**
   * A first question answered on a fresh map (for instance "Hello" answered
   * with "Hi!"): the request holds the prompt and the question, the history
   * then holds prompt, question and answer, and the answer goes back quoting
   * the question.
   */
  lemma FirstExchange(prompt: string, jid: string, question: string, answer: string)
    requires question != [] && !IsJsWhitespace(question[0]) && !IsJsWhitespace(question[|question| - 1])
    requires answer != []
    ensures Step(prompt, map[], [TextMessage(jid, question)], Succeeded(SingleReply(answer)))
         == Effect(map[jid := [SeedTurn(prompt), Turn(User, question), Turn(Model, answer)]],
                   Some([SeedTurn(prompt), Turn(User, question)]),
                   Send(jid, answer, Some(TextMessage(jid, question))))
  {
    var messages := [TextMessage(jid, question)];
    var q := Query(jid, question);
    assert Accept(messages) == Some(q);
    assert Trim(question) == question by {
      TrimOfPadded([], question, []);
      assert [] + question + [] == question;
    }
    var withUser := Prior(prompt, map[], jid) + [Turn(User, Trim(q.raw))];
    assert withUser == [SeedTurn(prompt), Turn(User, question)];
    assert withUser + [Turn(Model, answer)] == [SeedTurn(prompt), Turn(User, question), Turn(Model, answer)];
  }

  /**
   * A paired history of 9 entries that gets one more exchange: the 11
   * entries are cut back to 9 by dropping the oldest question and its answer.
   */
  lemma FullHistoryDropsOldestPair(prompt: string, h: Histories, messages: seq<WebMessage>, data: ResponseBody, q: Query)
    requires Accept(messages) == Some(q)
    requires q.jid in h && Paired(prompt, h[q.jid]) && |h[q.jid]| == MaxTurns - 1
    ensures var p, s := h[q.jid], Step(prompt, h, messages, Succeeded(data)).history[q.jid];
      && p[1].role == User && p[2].role == Model
      && s == [p[0]] + p[3..] + [Turn(User, Trim(q.raw)), Turn(Model, ExtractReply(data))]
      && |s| == MaxTurns - 1
  {
    SuccessShape(prompt, h, messages, data, q);
  }

  /**
   * After a failure has left an unanswered question at index 1, the splice
   * at indices 1 and 2 removes two questions rather than a question and its
   * answer, and the answer that followed them ends up right after the prompt
   * with its question gone.
   */
  lemma EvictionAfterFailureSplitsPair(prompt: string, h: Histories, messages: seq<WebMessage>, data: ResponseBody, q: Query)
    requires Accept(messages) == Some(q)
    requires q.jid in h && |h[q.jid]| == MaxTurns
    requires h[q.jid][1].role == User && h[q.jid][2].role == User && h[q.jid][3].role == Model
    ensures var p, s := h[q.jid], Step(prompt, h, messages, Succeeded(data)).history[q.jid];
      && |s| == MaxTurns
      && s == [p[0]] + p[3..] + [Turn(User, Trim(q.raw)), Turn(Model, ExtractReply(data))]
      && s[1] == p[3] && s[1].role == Model
  {
    SuccessShape(prompt, h, messages, data, q);
  }
}
