/** The two in-memory stores of the memory module: error contexts that are
    handed out once (`pop`), and one chat history object per session,
    created on first use. */
module Memory {
  import opened Common
  import opened Chunks

  /** A stored error context (a dictionary). */
  type ErrorContext = map<string, Value>

  datatype ChatMessage = ChatMessage(role: string, content: string)

  /** A `ChatMessageHistory`: a message list changed in place. */
  class ChatHistory {
    var messages: seq<ChatMessage>

    constructor ()
      ensures messages == []
    {
      messages := [];
    }

    /** `add_message` of the history library, used by its callers. */
    method AddMessage(m: ChatMessage)
      modifies this
      ensures messages == old(messages) + [m]
    {
      messages := messages + [m];
    }

    /** `clear()`. */
    method Clear()
      modifies this
      ensures messages == []
    {
      messages := [];
    }
  }

  class MemoryStore {
    var errorContexts: map<string, ErrorContext>
    var histories: map<string, ChatHistory>

    /** Every session has its own history object. */
    ghost predicate Valid()
      reads this
    {
      forall a, b :: a in histories && b in histories && a != b ==> histories[a] != histories[b]
    }

    constructor ()
      ensures Valid() && errorContexts == map[] && histories == map[]
    {
      errorContexts := map[];
      histories := map[];
    }

    /** `store_error_context`: replaces any earlier context of the session. */
    method StoreErrorContext(sessionId: string, context: ErrorContext)
      modifies this
      ensures errorContexts == old(errorContexts)[sessionId := context]
      ensures histories == old(histories)
    {
      errorContexts := errorContexts[sessionId := context];
    }

    /** `pop_error_context`: hands the context out and forgets it. */
    method PopErrorContext(sessionId: string) returns (context: Option<ErrorContext>)
      modifies this
      ensures context == if sessionId in old(errorContexts) then Some(old(errorContexts)[sessionId]) else None
      ensures errorContexts == old(errorContexts) - {sessionId}
      ensures histories == old(histories)
    {
      if sessionId in errorContexts {
        context := Some(errorContexts[sessionId]);
        errorContexts := errorContexts - {sessionId};
      } else {
        context := None;
      }
    }

    /** `get_session_history`: the session's history, created empty when absent. */
    method GetSessionHistory(sessionId: string) returns (h: ChatHistory)
      requires Valid()
      modifies this
      ensures Valid()
      ensures sessionId in old(histories) ==> h == old(histories)[sessionId] && histories == old(histories)
      ensures sessionId !in old(histories) ==> fresh(h) && h.messages == [] && histories == old(histories)[sessionId := h]
      ensures errorContexts == old(errorContexts)
    {
      if sessionId !in histories {
        h := new ChatHistory();
        histories := histories[sessionId := h];
      } else {
        h := histories[sessionId];
      }
    }

    /** `get_active_sessions`: each session's message count. */
    function ActiveSessions(): (r: map<string, nat>)
      reads this, histories.Values
      ensures r.Keys == histories.Keys
      ensures forall k :: k in r ==> r[k] == |histories[k].messages|
    {
      map k | k in histories :: |histories[k].messages|
    }

    /** `clear_session_history`: empties that session's history, if any,
        and touches nothing else. */
    method ClearSessionHistory(sessionId: string)
      requires Valid()
      modifies if sessionId in histories then {histories[sessionId]} else {}
      ensures sessionId in histories ==> histories[sessionId].messages == []
      ensures forall k :: k in histories && k != sessionId ==> histories[k].messages == old(histories[k].messages)
    {
      if sessionId in histories {
        histories[sessionId].Clear();
      }
    }
  }

  /** Popping twice: the second pop finds nothing. */
  method PopTwice(m: MemoryStore, sessionId: string) returns (first: Option<ErrorContext>, second: Option<ErrorContext>)
    modifies m
    ensures first == if sessionId in old(m.errorContexts) then Some(old(m.errorContexts)[sessionId]) else None
    ensures second == None
  {
    first := m.PopErrorContext(sessionId);
    second := m.PopErrorContext(sessionId);
  }

  /** Asking twice for a session's history gives the same object. */
  method HistoryTwice(m: MemoryStore, sessionId: string) returns (h1: ChatHistory, h2: ChatHistory)
    requires m.Valid()
    modifies m
    ensures h1 == h2 && sessionId in m.histories && m.histories[sessionId] == h1 && m.Valid()
  {
    h1 := m.GetSessionHistory(sessionId);
    h2 := m.GetSessionHistory(sessionId);
  }
}
