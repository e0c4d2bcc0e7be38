/** The Hysteria2 service object of the sing-quic fork, one call at a time
(forks/patched-files/sing-quic/hysteria2/service.go). Interleavings are in Hy2Protocol. */
module Hy2Service {

  /** The user map that a list of names and a list of passwords denotes. */
  function BuildUsers(names: seq<string>, passwords: seq<string>): map<string, string>
    requires |names| <= |passwords|
  {
    if names == [] then map[]
    else
      var n := |names| - 1;
      BuildUsers(names[..n], passwords)[passwords[n] := names[n]]
  }

  /** A password is a key exactly when it is listed, and its LAST listing decides the name. */
  lemma {:induction false} LastListingWins(names: seq<string>, passwords: seq<string>, pw: string)
    requires |names| <= |passwords|
    ensures pw in BuildUsers(names, passwords) <==> pw in passwords[..|names|]
    ensures forall i ::
              0 <= i < |names| && passwords[i] == pw && pw !in passwords[i + 1..|names|]
              ==> pw in BuildUsers(names, passwords) && BuildUsers(names, passwords)[pw] == names[i]
  {
    if names != [] {
      var n := |names| - 1;
      LastListingWins(names[..n], passwords, pw);
      assert passwords[..n + 1] == passwords[..n] + [passwords[n]];
      forall i | 0 <= i < |names| && passwords[i] == pw && pw !in passwords[i + 1..|names|]
        ensures pw in BuildUsers(names, passwords) && BuildUsers(names, passwords)[pw] == names[i]
      {
        if i < n {
          assert passwords[i + 1..|names|] == passwords[i + 1..n] + [passwords[n]];
        }
      }
    }
  }

  class Session {
    var authenticated: bool
    var authUser: string
    var authPassword: string
    var connDone: bool

    constructor ()
      ensures !authenticated && !connDone
    {
      authenticated, connDone := false, false;
      authUser, authPassword := "", "";
    }

    /** Only the first call closes the channel. */
    method CloseWithError() returns (closedNow: bool)
      modifies this`connDone
      ensures connDone
      ensures closedNow == !old(connDone)
    {
      closedNow := !connDone;
      if !connDone {
        connDone := true;
      }
    }
  }

  class Service {
    var userMap: map<string, string>
    var sessions: set<Session>

    constructor ()
      ensures userMap == map[] && sessions == {}
    {
      userMap := map[];
      sessions := {};
    }

    method UpdateUsers(userList: seq<string>, passwordList: seq<string>)
      requires |userList| <= |passwordList|
      modifies this`userMap
      ensures userMap == BuildUsers(userList, passwordList)
    {
      var users: map<string, string> := map[];
      for i := 0 to |userList|
        invariant users == BuildUsers(userList[..i], passwordList)
      {
        assert userList[..i + 1][..i] == userList[..i];
        users := users[passwordList[i] := userList[i]];
      }
      assert userList[..|userList|] == userList;
      userMap := users;
    }

    method AddSession(session: Session)
      modifies this`sessions
      ensures sessions == old(sessions) + {session}
    {
      sessions := sessions + {session};
    }

    method RemoveSession(session: Session)
      modifies this`sessions
      ensures sessions == old(sessions) - {session}
    {
      sessions := sessions - {session};
    }

    /** One authentication request; the answer says whether the session is authenticated now.
        A session that is already authenticated keeps its first identity. */
    method ServeAuth(session: Session, auth: string) returns (ok: bool)
      modifies session`authenticated, session`authUser, session`authPassword
      ensures ok == session.authenticated == (old(session.authenticated) || auth in userMap)
      ensures old(session.authenticated) || auth !in userMap ==>
                session.authUser == old(session.authUser) && session.authPassword == old(session.authPassword)
      ensures !old(session.authenticated) && auth in userMap ==>
                session.authUser == userMap[auth] && session.authPassword == auth
    {
      if session.authenticated {
        return true;
      }
      if auth !in userMap {
        return false;
      }
      session.authUser := userMap[auth];
      session.authPassword := auth;
      session.authenticated := true;
      ok := true;
    }

    /** Closes exactly the authenticated sessions whose password is not retained. */
    method RetainUsers(passwords: seq<string>)
      modifies sessions`connDone
      ensures forall s :: s in sessions ==>
                s.connDone == (old(s.connDone) || (s.authenticated && s.authPassword !in passwords))
    {
      var keep: set<string> := {};
      for i := 0 to |passwords|
        invariant keep == set p | p in passwords[..i]
      {
        assert passwords[..i + 1] == passwords[..i] + [passwords[i]];
        keep := keep + {passwords[i]};
      }
      assert passwords[..|passwords|] == passwords;
      var victims: seq<Session> := [];
      var rest := sessions;
      while rest != {}
        invariant rest <= sessions
        invariant forall s :: s in victims <==> s in sessions - rest && s.authenticated && s.authPassword !in keep
        decreases rest
      {
        var session :| session in rest;
        rest := rest - {session};
        if session.authenticated && session.authPassword !in keep {
          victims := victims + [session];
        }
      }
      for i := 0 to |victims|
        invariant forall s :: s in sessions ==> s.connDone == (old(s.connDone) || s in victims[..i])
      {
        assert victims[..i + 1] == victims[..i] + [victims[i]];
        assert victims[i] in victims;
        var _ := victims[i].CloseWithError();
      }
      assert victims[..|victims|] == victims;
    }
  }
}
