/** Who is logged in, and which session rows are active, told from the events. */
module SessionTrace {
  import opened Wrappers
  import opened Connections
  import opened Sessions
  import opened Runs

  /** A LOGIN or REGISTER on connection c, as this user, that got as far as storing its session. */
  predicate SetsUp(e: Event, c: nat, u: Name)
  {
    match e
    case Login(d, name, _, outcome) => d == c && name == u && outcome != ThrewEarly
    case Register(d, name, _, outcome) => d == c && name == u && outcome != ThrewEarly
    case _ => false
  }

  predicate SignsIn(e: Event) { (e.Login? || e.Register?) && e.outcome != ThrewEarly }

  /**
   * Afterwards the connection is authorised as that user, with a token whose row is active for
   * another twenty-four hours.
   */
  lemma LoginAuthorizes(ss: seq<State>, es: seq<Event>, n: nat)
    requires History(ss, es) && n < |es| && SignsIn(es[n])
    ensures var s, e := ss[n + 1], es[n];
            && Authorized(s, e.c) && s.conns[e.c].user == e.name && s.conns[e.c].token == e.token
            && e.name in s.users && e.token in s.sessions
            && s.sessions[e.token] == SessionRow(s.users[e.name], true, ss[n].now + 86_400)
  {
    assert Follows(ss, es, n);
  }

  /** A handler that returned leads to registration: the name is found, and the session filed under it. */
  lemma ReturnedIsFiled(ss: seq<State>, es: seq<Event>, n: nat, c: nat)
    requires History(ss, es) && n < |es| && es[n] == AddNewName(c)
    ensures c in ss[n].conns && ss[n].conns[c].user in ss[n + 1].clients
    ensures c in ss[n + 1].clients[ss[n].conns[c].user] && FindClient(ss[n + 1].clients, ss[n].conns[c].user).Some?
  {
    assert Follows(ss, es, n);
  }

  /** And after a returned login or registration that step is open to the thread, once any old name is out. */
  lemma ReturnedMayFile(ss: seq<State>, es: seq<Event>, n: nat)
    requires History(ss, es) && n < |es| && SignsIn(es[n]) && es[n].outcome == Returned
    ensures var s, c := ss[n + 1], es[n].c;
            c in s.conns &&
            if s.conns[c].username != "" && s.conns[c].username != es[n].name then Enabled(s, EvictOldName(c))
            else Enabled(s, AddNewName(c))
  {
    assert Follows(ss, es, n);
  }

  // ---------------------------------------------------------------------------
  // Authorised since
  // ---------------------------------------------------------------------------

  /** Connection c is let through as user u. */
  predicate Acts(s: State, c: nat, u: Name) { Authorized(s, c) && s.conns[c].user == u }

  /**
   * What ends it: a login as u on another connection or a failing one here, another account on this
   * connection, expiry, or the connection's own cleanup.
   */
  predicate Ends(s: State, e: Event, c: nat, u: Name)
  {
    match e
    case Login(d, name, _, outcome) =>
      if name == u then d != c || outcome == ThrewEarly else d == c && outcome != ThrewEarly
    case Register(d, name, _, outcome) => d == c && name != u && outcome != ThrewEarly
    case Tick(seconds) =>
      c in s.conns && s.conns[c].token in s.sessions && s.sessions[s.conns[c].token].expires <= s.now + seconds
    case DeactivateToken(d, ok) => d == c && ok && c in s.conns && s.conns[c].sessionToken == s.conns[c].token
    case _ => false
  }

  /** Nobody is let through without signing in. */
  lemma RefusedStays(s: State, e: Event, c: nat)
    requires SessionsOk(s) && Enabled(s, e) && !Authorized(s, c) && !(SignsIn(e) && e.c == c)
    ensures !Authorized(Next(s, e), c)
  {
    if c in s.conns { assert TokensHeld(s.conns[c], s.users, s.sessions); }
    match e
    case Login(_, _, _, _) => RefusedStaysAtSignIn(s, e, c);
    case Register(_, _, _, _) => RefusedStaysAtSignIn(s, e, c);
    case _ =>
  }

  lemma RefusedStaysAtSignIn(s: State, e: Event, c: nat)
    requires Enabled(s, e) && !Authorized(s, c) && (e.Login? || e.Register?) && !(SignsIn(e) && e.c == c)
    requires c in s.conns ==> TokensHeld(s.conns[c], s.users, s.sessions)
    ensures !Authorized(Next(s, e), c)
  {
  }

  lemma SignInStep(s: State, e: Event, c: nat, u: Name)
    requires Enabled(s, e) && SignsIn(e) && e.c == c
    ensures Acts(Next(s, e), c, u) <==> SetsUp(e, c, u)
  {
  }

  /** A step other than a sign-in on c leaves its user as it is. */
  lemma SameUser(s: State, e: Event, c: nat)
    requires Enabled(s, e) && c in s.conns && !(SignsIn(e) && e.c == c)
    ensures c in Next(s, e).conns && Next(s, e).conns[c].user == s.conns[c].user
  {
  }

  lemma ActsStep(ss: seq<State>, es: seq<Event>, i: nat, c: nat, u: Name)
    requires History(ss, es) && i < |es|
    ensures Acts(ss[i + 1], c, u) <==> SetsUp(es[i], c, u) || (Acts(ss[i], c, u) && !Ends(ss[i], es[i], c, u))
  {
    var s, e := ss[i], es[i];
    HistoryIsSessionsOk(ss, es, i);
    assert Follows(ss, es, i);
    if SignsIn(e) && e.c == c {
      SignInStep(s, e, c, u);
      if !SetsUp(e, c, u) { SameNameEnds(s, e, c, u); }
    } else if Authorized(s, c) {
      SameUser(s, e, c);
      RevokedIff(ss, es, i, c);
      RevokesIsEnds(s, e, c);
    } else {
      RefusedStays(s, e, c);
    }
  }

  lemma SameNameEnds(s: State, e: Event, c: nat, u: Name)
    requires SignsIn(e) && e.c == c && !SetsUp(e, c, u)
    ensures Ends(s, e, c, u)
  {
  }

  lemma RevokesIsEnds(s: State, e: Event, c: nat)
    requires Authorized(s, c) && !(SignsIn(e) && e.c == c)
    ensures Revokes(s, e, c) <==> Ends(s, e, c, s.conns[c].user)
  {
  }

  /** Event i signed c in as u, and nothing has ended that since. */
  ghost predicate ActsSince(ss: seq<State>, es: seq<Event>, i: int, n: int, c: nat, u: Name)
    requires n <= |es| < |ss|
  {
    0 <= i < n && SetsUp(es[i], c, u) && forall j :: i < j < n ==> !Ends(ss[j], es[j], c, u)
  }

  /**
   * A connection is let through as a user exactly when it signed in as that user and since then
   * nobody has logged in as them elsewhere, nothing failed or switched here, the day has not passed
   * and the connection has not been cleaned up.
   */
  lemma AuthorizedTrace(ss: seq<State>, es: seq<Event>, n: nat, c: nat, u: Name)
    requires History(ss, es) && n <= |es|
    ensures Acts(ss[n], c, u) <==> exists i :: ActsSince(ss, es, i, n, c, u)
  {
    var on := seq(n + 1, i requires 0 <= i <= n => Acts(ss[i], c, u));
    var set_ := seq(n, i requires 0 <= i < n => SetsUp(es[i], c, u));
    var clear := seq(n, i requires 0 <= i < n => Ends(ss[i], es[i], c, u));
    forall i | 0 <= i < n ensures on[i + 1] == (set_[i] || (on[i] && !clear[i])) {
      ActsStep(ss, es, i, c, u);
    }
    Latch(on, set_, clear);
    forall i | 0 <= i < n
      ensures ActsSince(ss, es, i, n, c, u) <==> set_[i] && forall j :: i < j < n ==> !clear[j]
    {
      assert forall j :: i < j < n ==> clear[j] == Ends(ss[j], es[j], c, u);
    }
  }

  // ---------------------------------------------------------------------------
  // Session rows
  // ---------------------------------------------------------------------------

  /** The step switches the row of token t off. */
  predicate SwitchesOff(s: State, e: Event, t: Token)
    requires t in s.sessions
  {
    match e
    case Login(_, name, _, _) => name in s.users && s.users[name] == s.sessions[t].user
    case Sweep => s.sessions[t].expires < s.now
    case DeactivateToken(c, ok) => ok && c in s.conns && s.conns[c].sessionToken == t
    case _ => false
  }

  /**
   * A row keeps its user and expiry, and is switched off exactly by a login of its user, by the
   * sweep once it has expired, or by the cleanup of the connection that recorded its token.
   */
  lemma RowStep(s: State, e: Event, t: Token)
    requires Enabled(s, e) && t in s.sessions
    ensures t in Next(s, e).sessions
    ensures var a, b := s.sessions[t], Next(s, e).sessions[t];
            a.user == b.user && a.expires == b.expires && (b.active <==> a.active && !SwitchesOff(s, e, t))
  {
  }

  /** New rows come from sign-ins alone. */
  lemma NewRowStep(s: State, e: Event, t: Token)
    requires Enabled(s, e) && t !in s.sessions
    ensures t in Next(s, e).sessions <==> SignsIn(e) && e.token == t
  {
  }
}
