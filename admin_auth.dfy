/** The admin session flag of the dashboard
    (server/client/src/utils/adminAuth.js): a mirror in local storage under
    `isAdminAuthenticated` and the real flag in session storage under
    `echo_admin_session`. */
module AdminAuth {
  import opened Common

  class AdminSession {
    /** The stored item of each storage, `None` when absent. */
    var local: Option<string>
    var session: Option<string>
    /** Whether each storage can be used; an unusable one throws on every
        access, and the functions swallow the error. */
    var localOk: bool
    var sessionOk: bool

    constructor (local: Option<string>, session: Option<string>, localOk: bool, sessionOk: bool)
      ensures this.local == local && this.session == session
      ensures this.localOk == localOk && this.sessionOk == sessionOk
    {
      this.local := local;
      this.session := session;
      this.localOk := localOk;
      this.sessionOk := sessionOk;
    }

    /** Both flags read back as the text `'true'`. */
    predicate Authenticated()
      reads this
    {
      localOk && sessionOk && local == Some("true") && session == Some("true")
    }

    /** `setAdminAuthenticated`: writes (or removes) the local flag, then the
        session flag; a throwing storage stops the remaining writes. */
    method SetAdminAuthenticated(isAuthed: bool)
      modifies this
      ensures localOk == old(localOk) && sessionOk == old(sessionOk)
      ensures local == (if localOk then (if isAuthed then Some("true") else None) else old(local))
      ensures session == (if localOk && sessionOk then (if isAuthed then Some("true") else None)
                          else old(session))
      ensures Authenticated() <==> isAuthed && localOk && sessionOk
    {
      if !localOk {
        return;
      }
      local := if isAuthed then Some("true") else None;
      if !sessionOk {
        return;
      }
      session := if isAuthed then Some("true") else None;
    }

    /** `isAdminAuthenticated`: true when both flags are set; a local flag
        without a session flag is cleared, so the next call is false too. */
    method IsAdminAuthenticated() returns (b: bool)
      modifies this
      ensures b == old(Authenticated())
      ensures localOk == old(localOk) && sessionOk == old(sessionOk) && session == old(session)
      ensures local == (if localOk && sessionOk && old(local) == Some("true") && old(session) != Some("true")
                        then None else old(local))
      ensures Authenticated() == old(Authenticated())
    {
      if !localOk || !sessionOk {
        return false;
      }
      var isLocal := local == Some("true");
      var isSession := session == Some("true");
      if isLocal && !isSession {
        local := None;
        return false;
      }
      b := isLocal && isSession;
    }

    /** `clearAdminAuth`: the same as `setAdminAuthenticated(false)`. */
    method ClearAdminAuth()
      modifies this
      ensures localOk == old(localOk) && sessionOk == old(sessionOk)
      ensures local == (if localOk then None else old(local))
      ensures session == (if localOk && sessionOk then None else old(session))
      ensures !Authenticated()
    {
      SetAdminAuthenticated(false);
    }
  }
}
