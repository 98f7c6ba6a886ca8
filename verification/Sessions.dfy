/**
 * Single active login: over every interleaving of register, login, account switch, expiry and
 * disconnect, at most one connection per user is authorised, and a disconnect costs no other
 * connection its token.
 */
module Sessions {
  import opened Connections

  /** findByToken: the row is active and has not expired. */
  predicate Live(rows: map<Token, SessionRow>, t: Token, now: int)
  {
    t in rows && rows[t].active && rows[t].expires > now
  }

  /** authorize lets the connection's next request through. */
  predicate Authorized(s: State, c: nat)
  {
    c in s.conns && s.conns[c].authenticated && s.conns[c].token != ""
    && Live(s.sessions, s.conns[c].token, s.now)
  }

  ghost predicate UsersDistinct(users: map<Name, int>, next: int)
  {
    && (forall u :: u in users ==> users[u] < next)
    && forall u, v :: u in users && v in users && users[u] == users[v] ==> u == v
  }

  ghost predicate OneActiveRow(rows: map<Token, SessionRow>)
  {
    forall t, k ::
      t in rows && k in rows && rows[t].active && rows[k].active && rows[t].user == rows[k].user
      ==> t == k
  }

  ghost predicate RowsOfUsers(rows: map<Token, SessionRow>, next: int)
  {
    "" !in rows && forall t :: t in rows ==> rows[t].user < next
  }

  /** A connection only ever holds tokens that were issued on it. */
  ghost predicate TokensHeld(x: Conn, users: map<Name, int>, rows: map<Token, SessionRow>)
  {
    && (forall t :: t in x.issued ==> t in rows)
    && (x.token == "" || x.token in x.issued)
    && (x.sessionToken == "" || x.sessionToken in x.issued)
    && (x.authenticated ==> x.token in x.issued && x.user in users && rows[x.token].user == users[x.user])
  }

  ghost predicate AllTokensHeld(conns: map<nat, Conn>, users: map<Name, int>, rows: map<Token, SessionRow>)
  {
    forall c :: c in conns ==> TokensHeld(conns[c], users, rows)
  }

  ghost predicate IssuedOnce(conns: map<nat, Conn>)
  {
    forall c, d, t :: c in conns && d in conns && t in conns[c].issued && t in conns[d].issued ==> c == d
  }

  ghost predicate SessionsOk(s: State)
  {
    && UsersDistinct(s.users, s.nextUser) && OneActiveRow(s.sessions)
    && RowsOfUsers(s.sessions, s.nextUser)
    && AllTokensHeld(s.conns, s.users, s.sessions) && IssuedOnce(s.conns)
  }

  /** Rows only ever turn inactive: same keys, same users, same expiry. */
  ghost predicate Dimmed(rows: map<Token, SessionRow>, dimmed: map<Token, SessionRow>)
  {
    && dimmed.Keys == rows.Keys
    && forall t :: t in rows ==>
         dimmed[t] == rows[t] || dimmed[t] == rows[t].(active := false)
  }

  lemma DimmedIsOk(s: State, rows: map<Token, SessionRow>)
    requires SessionsOk(s) && Dimmed(s.sessions, rows)
    ensures SessionsOk(s.(sessions := rows))
  {
    forall c | c in s.conns ensures TokensHeld(s.conns[c], s.users, rows) {
      assert TokensHeld(s.conns[c], s.users, s.sessions);
    }
  }

  /** Changing only where a connection's thread is, or which of its tokens it remembers. */
  lemma SameTokensOk(s: State, c: nat, x: Conn)
    requires SessionsOk(s)
    requires if c in s.conns then x.issued == s.conns[c].issued else x.issued == {}
    requires TokensHeld(x, s.users, s.sessions)
    ensures SessionsOk(s.(conns := s.conns[c := x]))
  {
  }

  /** A fresh token for a user with no active row left. */
  lemma IssueIsOk(s: State, c: nat, x: Conn, name: Name, token: Token, row: SessionRow, x': Conn)
    requires SessionsOk(s) && c in s.conns && x == s.conns[c] && name in s.users
    requires FreshToken(s, token) && row.user == s.users[name]
    requires forall t :: t in s.sessions && s.sessions[t].user == row.user ==> !s.sessions[t].active
    requires x'.issued == x.issued + {token} && x'.sessionToken == x.sessionToken
    requires x'.token == token && x'.user == name
    ensures SessionsOk(s.(sessions := s.sessions[token := row], conns := s.conns[c := x']))
  {
    var rows, conns := s.sessions[token := row], s.conns[c := x'];
    forall d | d in conns ensures TokensHeld(conns[d], s.users, rows) {
      if d in s.conns { assert TokensHeld(s.conns[d], s.users, s.sessions); }
    }
    forall d, e, t | d in conns && e in conns && t in conns[d].issued && t in conns[e].issued
      ensures d == e
    {
      assert d in s.conns && e in s.conns;
      assert TokensHeld(s.conns[d], s.users, s.sessions) && TokensHeld(s.conns[e], s.users, s.sessions);
    }
  }

  lemma NewUserIsOk(s: State, name: Name)
    requires SessionsOk(s) && name !in s.users
    ensures SessionsOk(s.(users := s.users[name := s.nextUser], nextUser := s.nextUser + 1))
  {
    var users := s.users[name := s.nextUser];
    forall c | c in s.conns ensures TokensHeld(s.conns[c], users, s.sessions) {
      assert TokensHeld(s.conns[c], s.users, s.sessions);
    }
  }

  lemma LoginIsOk(s: State, c: nat, name: Name, token: Token, outcome: Outcome)
    requires SessionsOk(s) && Enabled(s, Login(c, name, token, outcome))
    ensures SessionsOk(Next(s, Login(c, name, token, outcome)))
  {
    var s1 := s.(sessions := DeactivateAll(s.sessions, s.users[name]));
    DimmedIsOk(s, s1.sessions);
    if outcome != ThrewEarly {
      IssueIsOk(s1, c, s.conns[c], name, token, SessionRow(s.users[name], true, s.now + DAY),
                Authenticate(s.conns[c], name, token, outcome));
    }
  }

  lemma RegisterIsOk(s: State, c: nat, name: Name, token: Token, outcome: Outcome)
    requires SessionsOk(s) && Enabled(s, Register(c, name, token, outcome))
    ensures SessionsOk(Next(s, Register(c, name, token, outcome)))
  {
    var s1 := s.(users := s.users[name := s.nextUser], nextUser := s.nextUser + 1);
    NewUserIsOk(s, name);
    if outcome != ThrewEarly {
      IssueIsOk(s1, c, s.conns[c], name, token, SessionRow(s.nextUser, true, s.now + DAY),
                Authenticate(s.conns[c], name, token, outcome));
    }
  }

  lemma NextKeepsSessions(s: State, e: Event)
    requires SessionsOk(s) && Enabled(s, e)
    ensures SessionsOk(Next(s, e))
  {
    var n := Next(s, e);
    match e
    case Open(c) => SameTokensOk(s, c, n.conns[c]);
    case Tick(_) =>
    case Sweep => DimmedIsOk(s, n.sessions);
    case Login(c, name, token, outcome) => LoginIsOk(s, c, name, token, outcome);
    case Register(c, name, token, outcome) => RegisterIsOk(s, c, name, token, outcome);
    case OtherPacket(c) => SameTokensOk(s, c, n.conns[c]);
    case EvictOldName(c) => SameTokensOk(s, c, n.conns[c]);
    case AddNewName(c) => SameTokensOk(s, c, n.conns[c]);
    case LeaveLoop(c) => SameTokensOk(s, c, n.conns[c]);
    case Unregister(c) => SameTokensOk(s, c, n.conns[c]);
    case DeactivateToken(c, _) =>
      DimmedIsOk(s, n.sessions);
      SameTokensOk(s.(sessions := n.sessions), c, n.conns[c]);
  }

  lemma {:induction false} HistoryIsSessionsOk(ss: seq<State>, es: seq<Event>, n: nat)
    requires History(ss, es) && n <= |es|
    ensures SessionsOk(ss[n])
  {
    if n > 0 {
      HistoryIsSessionsOk(ss, es, n - 1);
      assert Follows(ss, es, n - 1);
      NextKeepsSessions(ss[n - 1], es[n - 1]);
    }
  }

  /** In every reachable state at most one connection per user is let through. */
  lemma SingleActiveLogin(ss: seq<State>, es: seq<Event>, n: nat, c: nat, d: nat)
    requires History(ss, es) && n <= |es|
    requires Authorized(ss[n], c) && Authorized(ss[n], d)
    requires ss[n].conns[c].user == ss[n].conns[d].user
    ensures c == d
  {
    var s := ss[n];
    HistoryIsSessionsOk(ss, es, n);
    assert TokensHeld(s.conns[c], s.users, s.sessions) && TokensHeld(s.conns[d], s.users, s.sessions);
    assert s.conns[c].token == s.conns[d].token;
  }

  /** And at most one row per user is active, expired or not. */
  lemma SingleActiveRow(ss: seq<State>, es: seq<Event>, n: nat, t: Token, k: Token)
    requires History(ss, es) && n <= |es|
    requires t in ss[n].sessions && k in ss[n].sessions
    requires ss[n].sessions[t].user == ss[n].sessions[k].user
    requires ss[n].sessions[t].active && ss[n].sessions[k].active
    ensures t == k
  {
    HistoryIsSessionsOk(ss, es, n);
  }

  /** Why a connection that was let through is refused after one more step. */
  predicate Revokes(s: State, e: Event, d: nat)
    requires Authorized(s, d)
  {
    match e
    case Login(c, name, _, outcome) => name == s.conns[d].user && (c != d || outcome == ThrewEarly)
    case Tick(seconds) => s.sessions[s.conns[d].token].expires <= s.now + seconds
    case DeactivateToken(c, ok) => c == d && ok && s.conns[d].sessionToken == s.conns[d].token
    case _ => false
  }

  lemma LoginRevokesIff(s: State, e: Event, d: nat)
    requires SessionsOk(s) && Enabled(s, e) && e.Login? && Authorized(s, d)
    ensures !Authorized(Next(s, e), d) <==> Revokes(s, e, d)
  {
    assert TokensHeld(s.conns[d], s.users, s.sessions);
    assert e.name != s.conns[d].user ==> s.users[e.name] != s.users[s.conns[d].user];
  }

  lemma CleanupRevokesOnlyItself(s: State, e: Event, d: nat)
    requires SessionsOk(s) && Enabled(s, e) && e.DeactivateToken? && Authorized(s, d)
    ensures !Authorized(Next(s, e), d) <==> Revokes(s, e, d)
  {
    assert TokensHeld(s.conns[d], s.users, s.sessions);
    assert TokensHeld(s.conns[e.c], s.users, s.sessions);
    assert e.c != d ==> s.conns[e.c].sessionToken != s.conns[d].token;
  }

  lemma OthersRevokeIff(s: State, e: Event, d: nat)
    requires SessionsOk(s) && Enabled(s, e) && !e.DeactivateToken? && !e.Login? && Authorized(s, d)
    ensures !Authorized(Next(s, e), d) <==> Revokes(s, e, d)
  {
    assert TokensHeld(s.conns[d], s.users, s.sessions);
  }

  /**
   * A connection loses its session exactly by a login as its user (elsewhere, or here and
   * failing), by expiry, or by its own cleanup: no other connection's disconnect, account
   * switch, registration or sweep costs it anything.
   */
  lemma RevokedIff(ss: seq<State>, es: seq<Event>, n: nat, d: nat)
    requires History(ss, es) && n < |es| && Authorized(ss[n], d)
    ensures !Authorized(ss[n + 1], d) <==> Revokes(ss[n], es[n], d)
  {
    HistoryIsSessionsOk(ss, es, n);
    assert Follows(ss, es, n);
    match es[n]
    case Login(_, _, _, _) => LoginRevokesIff(ss[n], es[n], d);
    case DeactivateToken(_, _) => CleanupRevokesOnlyItself(ss[n], es[n], d);
    case _ => OthersRevokeIff(ss[n], es[n], d);
  }

  /** A token, once inactive, is never active again. */
  lemma {:induction false} RevokedForGood(ss: seq<State>, es: seq<Event>, i: nat, n: nat, t: Token)
    requires History(ss, es) && i <= n <= |es|
    requires t in ss[i].sessions && !ss[i].sessions[t].active
    ensures t in ss[n].sessions && !ss[n].sessions[t].active
  {
    if i < n {
      RevokedForGood(ss, es, i, n - 1, t);
      assert Follows(ss, es, n - 1);
    }
  }

  /** This step ends the thread of connection c. */
  ghost predicate Finishes(ss: seq<State>, n: int, c: nat)
    requires 0 <= n < |ss| - 1
  {
    c in ss[n].conns && ss[n].conns[c].phase != Done && c in ss[n + 1].conns && ss[n + 1].conns[c].phase == Done
  }

  /**
   * A thread that ends, however it ends, leaves its connection's active token revoked if and only
   * if it had recorded that token and the database took the deactivation: a login whose handler
   * threw after storing its token leaves that token active.
   */
  lemma CleanupRevokesIff(ss: seq<State>, es: seq<Event>, n: nat, c: nat)
    requires History(ss, es) && n < |es| && Finishes(ss, n, c) && ss[n].conns[c].authenticated
    requires ss[n].conns[c].token in ss[n].sessions && ss[n].sessions[ss[n].conns[c].token].active
    ensures (ss[n].conns[c].token in ss[n + 1].sessions && !ss[n + 1].sessions[ss[n].conns[c].token].active)
            <==> ss[n].conns[c].sessionToken == ss[n].conns[c].token && (es[n].DeactivateToken? ==> es[n].ok)
  {
    HistoryIsSessionsOk(ss, es, n);
    RegistryIsExact(ss, es, n);
    assert Follows(ss, es, n);
    assert TokensHeld(ss[n].conns[c], ss[n].users, ss[n].sessions);
    assert ConnOk(ss[n].conns[c]);
  }

  /** Such a run: the reply to LOGIN cannot be sent, the socket closes, the row stays active. */
  lemma LostLoginLeavesRowActive(token: Token) returns (ss: seq<State>, es: seq<Event>)
    requires token != ""
    ensures History(ss, es) && |es| == 4 && 0 in ss[4].conns && ss[4].conns[0].phase == Done
    ensures token in ss[4].sessions && ss[4].sessions[token].active
  {
    es := [Open(0), Register(0, "alice", token, Threw), LeaveLoop(0), Unregister(0)];
    var s1 := Next(START, es[0]);
    var s2 := Next(s1, es[1]);
    var s3 := Next(s2, es[2]);
    var s4 := Next(s3, es[3]);
    ss := [START, s1, s2, s3, s4];
    forall i | 0 <= i < 4 ensures Follows(ss, es, i) {
      if i == 0 {} else if i == 1 {} else if i == 2 {} else {}
    }
  }
}
