// The in-memory session table of utils/session.go: a map from session id to session that
// GetSession prunes when it meets an expired entry.
module Sessions {
  import opened Wrappers

  /** A stored session; times are instants in nanoseconds. */
  datatype Session = Session(id: string, userId: string, createdAt: int, expiresAt: int)

  datatype SessionError = SessionNotFound | SessionExpired

  /** The live half of the table: what GetSession can still return at time now. */
  function Live(sessions: map<string, Session>, now: int): (m: map<string, Session>)
    ensures m.Keys <= sessions.Keys
    ensures forall id :: id in m ==> m[id] == sessions[id] && now <= m[id].expiresAt
    ensures forall id :: id in sessions && now <= sessions[id].expiresAt ==> id in m
  {
    map id | id in sessions && now <= sessions[id].expiresAt :: sessions[id]
  }

  class SessionManager {
    var sessions: map<string, Session>

    constructor ()
      ensures sessions == map[]
    {
      sessions := map[];
    }

    /** GetSession at the instant now (time.Now() passed in). */
    method GetSession(sessionID: string, now: int) returns (r: Result<Session, SessionError>)
      modifies this
      ensures sessionID !in old(sessions) ==> r == Err(SessionNotFound) && sessions == old(sessions)
      ensures sessionID in old(sessions) && now > old(sessions)[sessionID].expiresAt ==>
        r == Err(SessionExpired) && sessions == old(sessions) - {sessionID}
      ensures sessionID in old(sessions) && now <= old(sessions)[sessionID].expiresAt ==>
        r == Ok(old(sessions)[sessionID]) && sessions == old(sessions)
      ensures r.Ok? ==> now <= r.value.expiresAt
      ensures sessions.Keys <= old(sessions).Keys
      ensures Live(sessions, now) == Live(old(sessions), now)
    {
      if sessionID !in sessions {
        return Err(SessionNotFound);
      }
      var session := sessions[sessionID];
      if now > session.expiresAt {
        sessions := sessions - {sessionID};
        return Err(SessionExpired);
      }
      return Ok(session);
    }

    /** DeleteSession: removes that key, a no-op when it is absent. */
    method DeleteSession(sessionID: string)
      modifies this
      ensures sessions == old(sessions) - {sessionID}
      ensures sessionID !in old(sessions) ==> sessions == old(sessions)
    {
      sessions := sessions - {sessionID};
    }
  }
}
