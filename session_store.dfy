/**
 * The API's login-session store (api/src/db/apiUtils.ts): db.json holds a
 * list of sessions, each a token and its expiry instant. Instants are
 * milliseconds on one clock and are compared as numbers.
 */
module SessionStore {
  import opened Wrappers
  import opened Sequences

  datatype Session = Session(token: string, expiration: int)

  /**
   * What db.json holds: no file, an empty file, text that is not a JSON list
   * of sessions, or such a list.
   */
  datatype DbFile = NoDb | BlankDb | Garbled | Stored(sessions: seq<Session>)

  /** What `read` yields for a file: the stored list, and no sessions in every other case. */
  function Decode(file: DbFile): seq<Session> {
    if file.Stored? then file.sessions else []
  }

  /** The sessions that expire strictly after `now`, in their order. */
  function Live(sessions: seq<Session>, now: int): (r: seq<Session>)
    ensures forall s :: s in r <==> s in sessions && s.expiration > now
  {
    Filter(sessions, (s: Session) => s.expiration > now)
  }

  /** The sessions whose token is not `token`, in their order. */
  function WithoutToken(sessions: seq<Session>, token: string): (r: seq<Session>)
    ensures forall s :: s in r <==> s in sessions && s.token != token
  {
    Filter(sessions, (s: Session) => s.token != token)
  }

  predicate HasToken(sessions: seq<Session>, token: string) {
    exists s :: s in sessions && s.token == token
  }

  /** `sessions.find(({token}) => token === t)`: the first session holding `token`. */
  function Find(sessions: seq<Session>, token: string): (r: Option<Session>)
    ensures r.Some? <==> HasToken(sessions, token)
    ensures r.Some? ==> r.value in sessions && r.value.token == token
    ensures r.Some? ==> exists i :: 0 <= i < |sessions| && sessions[i] == r.value &&
                                    forall j :: 0 <= j < i ==> sessions[j].token != token
  {
    if sessions == [] then None
    else if sessions[0].token == token then Some(sessions[0])
    else Find(sessions[1..], token)
  }

  /** Expiry works session by session, so the survivors keep their order. */
  lemma LiveConcat(a: seq<Session>, b: seq<Session>, now: int)
    ensures Live(a + b, now) == Live(a, now) + Live(b, now)
  {
    FilterConcat(a, b, (s: Session) => s.expiration > now);
  }

  /** When nothing has expired, expiry keeps every session. */
  lemma LiveAll(sessions: seq<Session>, now: int)
    requires forall s :: s in sessions ==> s.expiration > now
    ensures Live(sessions, now) == sessions
  {
    FilterAll(sessions, (s: Session) => s.expiration > now);
  }

  /** When everything has expired, expiry keeps nothing. */
  lemma LiveNone(sessions: seq<Session>, now: int)
    requires forall s :: s in sessions ==> s.expiration <= now
    ensures Live(sessions, now) == []
  {
    FilterNone(sessions, (s: Session) => s.expiration > now);
  }

  /** Deleting a token nobody holds changes nothing. */
  lemma WithoutAbsentToken(sessions: seq<Session>, token: string)
    requires !HasToken(sessions, token)
    ensures WithoutToken(sessions, token) == sessions
  {
    FilterAll(sessions, (s: Session) => s.token != token);
  }

  /** Deletion keeps the other sessions in their order. */
  lemma WithoutTokenConcat(a: seq<Session>, b: seq<Session>, token: string)
    ensures WithoutToken(a + b, token) == WithoutToken(a, token) + WithoutToken(b, token)
  {
    FilterConcat(a, b, (s: Session) => s.token != token);
  }

  /** The store, db.json, rewritten as a whole by every update. */
  class SessionDb {
    var file: DbFile

    constructor (file: DbFile)
      ensures this.file == file
    {
      this.file := file;
    }

    /** Empties the store: db.json becomes `[]`. */
    method Init()
      modifies this
      ensures file == Stored([])
      ensures Decode(file) == []
    {
      file := Stored([]);
    }

    /**
     * The stored sessions. A missing db.json is created empty first; an
     * empty or unreadable one yields no sessions.
     */
    method Read() returns (sessions: seq<Session>)
      modifies this
      ensures file == if old(file).NoDb? then BlankDb else old(file)
      ensures old(file).Stored? ==> sessions == old(file).sessions
      ensures !old(file).Stored? ==> sessions == []
    {
      if file.NoDb? {
        file := BlankDb;
      }
      sessions := [];
      if file.Stored? {
        sessions := file.sessions;
      }
    }

    /**
     * Drops every session that expires at or before `now` and appends
     * `session`, whatever its own expiry.
     */
    method Write(session: Session, now: int)
      modifies this
      ensures file == Stored(Live(Decode(old(file)), now) + [session])
      ensures Decode(file)[|Decode(file)| - 1] == session
      ensures forall s :: s in Decode(file)[..|Decode(file)| - 1] ==>
                s in Decode(old(file)) && s.expiration > now
    {
      var currSessions := Read();
      var nonExpiredSessions := Filter(currSessions, (s: Session) => s.expiration > now);
      var newSessions := nonExpiredSessions + [session];
      assert newSessions[..|newSessions| - 1] == nonExpiredSessions;
      file := Stored(newSessions);
    }

    /**
     * Removes every session holding `token`. When none holds it, nothing is
     * rewritten (a missing db.json is still created empty by the read).
     */
    method Del(token: string)
      modifies this
      ensures HasToken(Decode(old(file)), token) ==>
                file == Stored(WithoutToken(Decode(old(file)), token))
      ensures !HasToken(Decode(old(file)), token) ==>
                file == if old(file).NoDb? then BlankDb else old(file)
      ensures Decode(file) == WithoutToken(Decode(old(file)), token)
    {
      var currSessions := Read();
      var foundSession := Find(currSessions, token);
      if foundSession.None? {
        WithoutAbsentToken(currSessions, token);
        return;
      }
      var newSessions := Filter(currSessions, (s: Session) => s.token != token);
      file := Stored(newSessions);
    }
  }

  /** A write on a fresh store holds exactly the written session, whatever its expiry. */
  method InitThenWrite(db: SessionDb, session: Session, now: int) returns (sessions: seq<Session>)
    modifies db
    ensures sessions == [session]
  {
    db.Init();
    db.Write(session, now);
    sessions := db.Read();
  }

  /** Deleting the only token a write added leaves the store with none of it. */
  method WriteThenDel(db: SessionDb, session: Session, now: int) returns (sessions: seq<Session>)
    modifies db
    ensures sessions == WithoutToken(Live(Decode(old(db.file)), now), session.token)
    ensures !HasToken(sessions, session.token)
  {
    db.Write(session, now);
    db.Del(session.token);
    sessions := db.Read();
    WithoutTokenConcat(Live(Decode(old(db.file)), now), [session], session.token);
    assert WithoutToken([session], session.token) == [];
  }
}
