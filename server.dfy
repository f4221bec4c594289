/**
 * The process-wide `chatHistory` object (server.js:12) and the
 * `messages.upsert` handler that updates it in place (server.js:58-103).
 * The POST to the completion service is replaced by its outcome, passed in;
 * the turns it would carry are returned as `request`, and the message the
 * handler would send is returned as `out`.
 */
module Server {
  import opened Wrappers
  import opened Inbound
  import opened Completion
  import opened History
  import opened HistoryProperties

  class ChatStore {
    /** The persona text seeded into every new conversation; its wording is not modelled. */
    const systemPrompt: string
    /** Conversation id to its ordered turns. */
    var chatHistory: Histories

    /** Every stored conversation starts with the system prompt. */
    ghost predicate Valid()
      reads this
    {
      Pinned(systemPrompt, chatHistory)
    }

    constructor (systemPrompt: string)
      ensures this.systemPrompt == systemPrompt && chatHistory == map[]
      ensures Valid()
    {
      this.systemPrompt := systemPrompt;
      chatHistory := map[];
    }

    /**
     * Handles one upsert event whose completion request ends with `completion`.
     * The new map, the submitted turns and the send are those of `Step`, and
     * the prompt stays pinned at index 0 of every conversation.
     */
    method OnMessagesUpsert(messages: seq<WebMessage>, completion: Outcome)
      returns (request: Option<seq<Turn>>, out: Outbound)
      requires Valid()
      modifies this
      ensures Valid()
      ensures var e := Step(systemPrompt, old(chatHistory), messages, completion);
        chatHistory == e.history && request == e.request && out == e.out
    {
      request, out := None, NoSend;
      // `messages[0]` of an empty batch is undefined and the handler throws
      // before it reads or writes anything.
      if |messages| == 0 {
        return;
      }
      var m := messages[0];
      if m.message.None? || m.key.fromMe {
        return;
      }
      var remoteJid := m.key.remoteJid;
      var msg := ExtractText(m.message.value);
      if msg != "" {
        assert Accept(messages) == Some(Query(remoteJid, msg));
        ghost var before := chatHistory;
        request, out := Exchange(remoteJid, Trim(msg), m, completion);
        StepKeepsPinned(systemPrompt, before, messages, completion);
      }
    }

    /**
     * The body of `if (msg)`: seed on first contact, append the user turn,
     * submit, then either append the model turn and splice, or leave the user
     * turn alone; only `remoteJid`'s entry changes.
     */
    method Exchange(remoteJid: string, query: string, inbound: WebMessage, completion: Outcome)
      returns (request: Option<seq<Turn>>, out: Outbound)
      modifies this
      ensures request == Some(Prior(systemPrompt, old(chatHistory), remoteJid) + [Turn(User, query)])
      ensures completion.Failed? ==>
        chatHistory == old(chatHistory)[remoteJid := request.value] && out == Send(remoteJid, Sleeping, None)
      ensures completion.Succeeded? ==>
        var reply := ExtractReply(completion.data);
        chatHistory == old(chatHistory)[remoteJid := Evict(request.value + [Turn(Model, reply)])]
        && out == Send(remoteJid, reply, Some(inbound))
    {
      if remoteJid !in chatHistory {
        chatHistory := chatHistory[remoteJid := [SeedTurn(systemPrompt)]];
      }
      chatHistory := chatHistory[remoteJid := chatHistory[remoteJid] + [Turn(User, query)]];
      request := Some(chatHistory[remoteJid]);
      match completion {
        case Succeeded(data) =>
          var reply := ExtractReply(data);
          chatHistory := chatHistory[remoteJid := chatHistory[remoteJid] + [Turn(Model, reply)]];
          if |chatHistory[remoteJid]| > MaxTurns {
            var turns := chatHistory[remoteJid];
            chatHistory := chatHistory[remoteJid := turns[..1] + turns[3..]];
          }
          out := Send(remoteJid, reply, Some(inbound));
        case Failed =>
          out := Send(remoteJid, Sleeping, None);
      }
    }
  }
}
