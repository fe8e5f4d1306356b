/**
 * The admin panel's in-memory sessions: a dictionary from session id to
 * the session's data, filled at login and emptied at logout, and the
 * check every admin page makes before it answers.
 *
 * The random session id (`secrets.token_urlsafe`) is a parameter of
 * `CreateSession`.
 */
module AdminAuth {
  import opened Wrappers

  /** The data stored for a session. */
  datatype Session = Session(username: string, authenticated: bool)

  /** What an admin page gets: the session, or a 303 redirect to the login page. */
  datatype Access = Granted(session: Session) | RedirectToLogin

  const LOGIN_URL: string := "/admin/login"

  /** A cookie value is used only when it is given and not empty. */
  predicate Usable(id: Option<string>) { id.Some? && id.value != [] }

  /** `get_session` on a dictionary. */
  function Lookup(sessions: map<string, Session>, id: Option<string>): (r: Option<Session>)
    ensures !Usable(id) ==> r.None?
    ensures Usable(id) ==> (r.Some? <==> id.value in sessions)
    ensures r.Some? ==> r.value == sessions[id.value]
  {
    if !Usable(id) then None
    else if id.value in sessions then Some(sessions[id.value])
    else None
  }

  /** The dictionary after `destroy_session`: the id is gone, when it was there. */
  function Removed(sessions: map<string, Session>, id: Option<string>): (r: map<string, Session>)
    ensures Usable(id) ==> id.value !in r
    ensures forall k :: k in r <==> k in sessions && (Usable(id) ==> k != id.value)
    ensures forall k :: k in r ==> r[k] == sessions[k]
  {
    if Usable(id) && id.value in sessions then sessions - {id.value} else sessions
  }

  /** `get_current_session` on a dictionary. */
  function Current(sessions: map<string, Session>, id: Option<string>): (r: Access)
    ensures r.Granted? <==> Lookup(sessions, id).Some? && Lookup(sessions, id).value.authenticated
    ensures r.Granted? ==> r.session == Lookup(sessions, id).value
  {
    match Lookup(sessions, id)
    case None => RedirectToLogin
    case Some(s) => if s.authenticated then Granted(s) else RedirectToLogin
  }

  /** `verify_credentials`: both the name and the password equal the configured ones. */
  function VerifyCredentials(username: string, password: string, adminUsername: string, adminPassword: string): (ok: bool)
    ensures ok ==> username == adminUsername && password == adminPassword
    ensures username == adminUsername && password == adminPassword ==> ok
  {
    username == adminUsername && password == adminPassword
  }

  /** Every stored session is an authenticated one: only logins store sessions. */
  predicate AllAuthenticated(sessions: map<string, Session>) {
    forall k :: k in sessions ==> sessions[k].authenticated
  }

  /** The session store of the admin panel. */
  class SessionStore {
    var sessions: map<string, Session>

    ghost predicate Valid()
      reads this
    {
      AllAuthenticated(sessions)
    }

    constructor()
      ensures sessions == map[] && Valid()
    {
      sessions := map[];
    }

    /** `create_session`: the new session is stored under the fresh id, which is returned. */
    method CreateSession(username: string, freshId: string) returns (id: string)
      requires Valid()
      modifies this
      ensures Valid()
      ensures id == freshId
      ensures sessions == old(sessions)[freshId := Session(username, true)]
    {
      id := freshId;
      sessions := sessions[id := Session(username, true)];
    }

    /** `get_session`. */
    function GetSession(id: Option<string>): Option<Session>
      reads this
    {
      Lookup(sessions, id)
    }

    /** `destroy_session`: the id is removed if present; a missing, empty or unknown id changes nothing. */
    method DestroySession(id: Option<string>)
      requires Valid()
      modifies this
      ensures Valid()
      ensures sessions == Removed(old(sessions), id)
    {
      if id.Some? && id.value != [] && id.value in sessions {
        sessions := sessions - {id.value};
      }
    }

    /** `get_current_session`. */
    function CurrentSession(id: Option<string>): Access
      reads this
    {
      Current(sessions, id)
    }
  }

  /** A session just created is found again under its id, and grants access. */
  lemma CreatedIsFound(sessions: map<string, Session>, username: string, id: string)
    requires id != []
    ensures Lookup(sessions[id := Session(username, true)], Some(id)) == Some(Session(username, true))
    ensures Current(sessions[id := Session(username, true)], Some(id)) == Granted(Session(username, true))
  {
  }

  /**
   * After logout the session is gone and its id is redirected to the login
   * page, while every other session answers as before.
   */
  lemma DestroyRemovesOnlyThat(sessions: map<string, Session>, id: string, other: Option<string>)
    requires id != []
    ensures Lookup(Removed(sessions, Some(id)), Some(id)).None?
    ensures Current(Removed(sessions, Some(id)), Some(id)) == RedirectToLogin
    ensures other != Some(id) ==> Lookup(Removed(sessions, Some(id)), other) == Lookup(sessions, other)
  {
  }

  /** With only logins storing sessions, a known id is exactly an admitted one. */
  lemma AdmittedIffKnown(sessions: map<string, Session>, id: Option<string>)
    requires AllAuthenticated(sessions)
    ensures Current(sessions, id).Granted? <==> Usable(id) && id.value in sessions
  {
  }
}
