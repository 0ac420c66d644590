/** The in-memory `sessions_db` of the sessions router: a dictionary from
    session id to a record with its messages and two timestamps. The clock
    (`datetime.now().isoformat()`) is one `now` value per request. */
module SessionsRouter {
  import opened Common

  datatype Message = Message(role: string, content: string, timestamp: Option<string>)

  datatype Session = Session(sessionId: string, messages: seq<Message>, createdAt: string, updatedAt: string)

  /** One row of `list_sessions`. */
  datatype SessionSummary = SessionSummary(sessionId: string, messageCount: nat, createdAt: string, updatedAt: string)

  /** The acknowledgement the mutating routes return. */
  datatype Ack = Ack(status: string, message: string, sessionId: string)

  /** A fresh, empty session record. */
  function NewSession(sessionId: string, now: string): Session {
    Session(sessionId, [], now, now)
  }

  /** `if not message.timestamp: message.timestamp = now`. */
  function Stamped(m: Message, now: string): (r: Message)
    ensures r.role == m.role && r.content == m.content
    ensures m.timestamp.Some? && m.timestamp.value != "" ==> r == m
    ensures (m.timestamp.None? || m.timestamp == Some("")) ==> r.timestamp == Some(now)
  {
    if m.timestamp.None? || m.timestamp.value == "" then m.(timestamp := Some(now)) else m
  }

  class SessionsDb {
    var sessions: map<string, Session>
    /** The keys of `sessions` in insertion order (dictionary order). */
    var order: seq<string>

    ghost predicate Valid()
      reads this
    {
      (forall i, j :: 0 <= i < j < |order| ==> order[i] != order[j]) &&
      (forall k :: k in sessions <==> k in order) &&
      (forall k :: k in sessions ==> sessions[k].sessionId == k)
    }

    constructor ()
      ensures Valid() && sessions == map[] && order == []
    {
      sessions := map[];
      order := [];
    }

    /** `add_message`: creates the session if absent, stamps the message if
        it has no timestamp, appends it and refreshes `updated_at`. */
    method AddMessage(sessionId: string, message: Message, now: string) returns (r: Ack)
      requires Valid()
      modifies this
      ensures Valid()
      ensures var before := if sessionId in old(sessions) then old(sessions)[sessionId] else NewSession(sessionId, now);
        sessions == old(sessions)[sessionId := before.(messages := before.messages + [Stamped(message, now)], updatedAt := now)]
      ensures order == if sessionId in old(sessions) then old(order) else old(order) + [sessionId]
      ensures r == Ack("success", "Message added to session", sessionId)
    {
      var s: Session;
      if sessionId in sessions {
        s := sessions[sessionId];
      } else {
        s := NewSession(sessionId, now);
        assert sessionId !in order;
        order := order + [sessionId];
      }
      var stamped := Stamped(message, now);
      sessions := sessions[sessionId := s.(messages := s.messages + [stamped], updatedAt := now)];
      r := Ack("success", "Message added to session", sessionId);
    }

    /** `get_messages`: the stored record, or a fresh empty one that is not
        stored. */
    function Messages(sessionId: string, now: string): (r: Session)
      reads this
      ensures sessionId in sessions ==> r == sessions[sessionId]
      ensures sessionId !in sessions ==> r.messages == [] && r.sessionId == sessionId
    {
      if sessionId in sessions then sessions[sessionId] else NewSession(sessionId, now)
    }

    /** `clear_messages`: empties an existing session; an absent one stays absent. */
    method ClearMessages(sessionId: string, now: string) returns (r: Ack)
      requires Valid()
      modifies this
      ensures Valid() && order == old(order)
      ensures sessions == if sessionId in old(sessions)
        then old(sessions)[sessionId := old(sessions)[sessionId].(messages := [], updatedAt := now)]
        else old(sessions)
      ensures r == Ack("success", "Session history cleared", sessionId)
    {
      if sessionId in sessions {
        var s := sessions[sessionId];
        sessions := sessions[sessionId := s.(messages := [])];
        s := sessions[sessionId];
        sessions := sessions[sessionId := s.(updatedAt := now)];
      }
      r := Ack("success", "Session history cleared", sessionId);
    }

    /** `clear_session`: empties an existing session or creates an empty one. */
    method ClearSession(sessionId: string, now: string) returns (r: Ack)
      requires Valid()
      modifies this
      ensures Valid()
      ensures sessions == if sessionId in old(sessions)
        then old(sessions)[sessionId := old(sessions)[sessionId].(messages := [], updatedAt := now)]
        else old(sessions)[sessionId := NewSession(sessionId, now)]
      ensures order == if sessionId in old(sessions) then old(order) else old(order) + [sessionId]
      ensures r == Ack("success", "Session cleared", sessionId)
    {
      if sessionId in sessions {
        var s := sessions[sessionId];
        sessions := sessions[sessionId := s.(messages := [])];
        s := sessions[sessionId];
        sessions := sessions[sessionId := s.(updatedAt := now)];
      } else {
        sessions := sessions[sessionId := NewSession(sessionId, now)];
        order := order + [sessionId];
      }
      r := Ack("success", "Session cleared", sessionId);
    }

    /** `list_sessions`: one row per stored session, in insertion order. */
    function ListSessions(): (r: seq<SessionSummary>)
      requires Valid()
      reads this
      ensures |r| == |sessions|
      ensures forall i :: 0 <= i < |r| ==>
        (r[i].sessionId in sessions &&
         r[i].messageCount == |sessions[r[i].sessionId].messages| &&
         r[i].createdAt == sessions[r[i].sessionId].createdAt &&
         r[i].updatedAt == sessions[r[i].sessionId].updatedAt)
      ensures forall k :: k in sessions ==> exists i :: 0 <= i < |r| && r[i].sessionId == k
      ensures forall i, j :: 0 <= i < j < |r| ==> r[i].sessionId != r[j].sessionId
    {
      DistinctCount(order, sessions);
      Summaries(order, sessions)
    }
  }

  /** The rows for the listed keys, in their order. */
  function Summaries(order: seq<string>, m: map<string, Session>): (r: seq<SessionSummary>)
    requires forall i :: 0 <= i < |order| ==> order[i] in m
    ensures |r| == |order|
    ensures forall i :: 0 <= i < |order| ==> r[i].sessionId == order[i]
  {
    seq(|order|, i requires 0 <= i < |order| =>
      SessionSummary(order[i], |m[order[i]].messages|, m[order[i]].createdAt, m[order[i]].updatedAt))
  }

  /** A duplicate-free listing of a map's keys is as long as the map. */
  lemma {:induction false} DistinctCount(order: seq<string>, m: map<string, Session>)
    requires forall i, j :: 0 <= i < j < |order| ==> order[i] != order[j]
    requires forall k :: k in m <==> k in order
    ensures |m| == |order|
    decreases |order|
  {
    if order == [] {
      assert m.Keys == {};
    } else {
      var last := order[|order| - 1];
      var init := order[..|order| - 1];
      var m' := m - {last};
      forall k ensures k in m' <==> k in init {
        if k in order && k != last {
          var i :| 0 <= i < |order| && order[i] == k;
          assert i < |order| - 1;
          assert init[i] == k;
        }
      }
      DistinctCount(init, m');
      assert m.Keys == m'.Keys + {last};
    }
  }

  /** Adding a message grows that session by one and keeps the earlier
      messages; `created_at` survives. */
  lemma AddMessageGrows(before: Session, message: Message, now: string)
    ensures var after := before.(messages := before.messages + [Stamped(message, now)], updatedAt := now);
      |after.messages| == |before.messages| + 1 &&
      after.messages[..|before.messages|] == before.messages &&
      after.messages[|before.messages|].content == message.content &&
      after.messages[|before.messages|].timestamp.Some? &&
      after.createdAt == before.createdAt
  {
    assert (before.messages + [Stamped(message, now)])[..|before.messages|] == before.messages;
  }
}
