/**
 * Connection threads, the shared client registry and the session table. Every thread runs the
 * handleRequest loop; the steps below interleave in any order, one mutex-guarded registry call,
 * one handler or one cleanup statement at a time.
 */
module Connections {
  import opened Wrappers

  type Name = string
  type Token = string
  type Clients = map<Name, seq<nat>>

  // ---------------------------------------------------------------------------
  // The registry: username to sessions, duplicates and all
  // ---------------------------------------------------------------------------

  function Without(s: seq<nat>, c: nat): seq<nat>
  {
    if s == [] then [] else (if s[0] == c then [] else [s[0]]) + Without(s[1..], c)
  }

  function AddClient(cs: Clients, u: Name, c: nat): Clients
  {
    cs[u := (if u in cs then cs[u] else []) + [c]]
  }

  function RemoveClient(cs: Clients, u: Name, c: nat): Clients
  {
    if u !in cs then cs
    else if Without(cs[u], c) == [] then cs - {u} else cs[u := Without(cs[u], c)]
  }

  function FindClient(cs: Clients, u: Name): Option<nat>
  {
    if u !in cs || cs[u] == [] then None else Some(cs[u][0])
  }

  /** How often session c is filed under u. */
  function Count(cs: Clients, u: Name, c: nat): nat
  {
    if u in cs then multiset(cs[u])[c] else 0
  }

  lemma {:induction false} WithoutCounts(s: seq<nat>, c: nat)
    ensures multiset(Without(s, c)) == multiset(s)[c := 0]
  {
    if s != [] {
      WithoutCounts(s[1..], c);
      assert s == [s[0]] + s[1..];
    }
  }

  lemma CountAfterAdd(cs: Clients, u: Name, c: nat, v: Name, d: nat)
    ensures Count(AddClient(cs, u, c), v, d) == Count(cs, v, d) + if v == u && d == c then 1 else 0
  {
  }

  lemma CountAfterRemove(cs: Clients, u: Name, c: nat, v: Name, d: nat)
    ensures Count(RemoveClient(cs, u, c), v, d) == if v == u && d == c then 0 else Count(cs, v, d)
  {
    if u in cs {
      WithoutCounts(cs[u], c);
      assert multiset(Without(cs[u], c))[d] == multiset(cs[u])[c := 0][d];
    }
  }

  /** The session found under a name is the one filed there first. */
  lemma FirstFiledIsFound(cs: Clients, u: Name, c: nat, v: Name)
    requires NoEmptyLists(cs)
    ensures FindClient(AddClient(cs, u, c), v)
         == if v == u && FindClient(cs, u).None? then Some(c) else FindClient(cs, v)
  {
  }

  ghost predicate NoEmptyLists(cs: Clients) { forall u :: u in cs ==> cs[u] != [] }

  // ---------------------------------------------------------------------------
  // Connections and the session table
  // ---------------------------------------------------------------------------

  /**
   * Where a thread is: in the receive loop; after a handler returned; after the eviction of its
   * old name; out of the loop; past its removal from the registry; finished.
   */
  datatype Phase = Serving | Registering | Evicted | Closing | Deactivating | Done

  /**
   * The ClientSession (authenticated, user, token), the thread's two locals (username,
   * sessionToken), and history: every token issued here, every addClient since registration.
   */
  datatype Conn = Conn(authenticated: bool, user: Name, token: Token,
                       username: Name, sessionToken: Token, phase: Phase,
                       issued: set<Token>, adds: nat)

  datatype SessionRow = SessionRow(user: int, active: bool, expires: int)

  datatype State = State(
    conns: map<nat, Conn>, clients: Clients,
    users: map<Name, int>, nextUser: int,
    sessions: map<Token, SessionRow>, now: int)

  const START := State(map[], map[], map[], 1, map[], 0)

  const DAY := 86_400

  /** How a handler ends: returned, threw after its writes, or threw before saving the session. */
  datatype Outcome = Returned | Threw | ThrewEarly

  /** ok is false when the database refused the deactivation; the thread then only logs it. */
  datatype Event =
    | Open(c: nat)
    | Tick(seconds: nat)
    | Sweep
    | Login(c: nat, name: Name, token: Token, outcome: Outcome)
    | Register(c: nat, name: Name, token: Token, outcome: Outcome)
    | OtherPacket(c: nat)
    | EvictOldName(c: nat)
    | AddNewName(c: nat)
    | LeaveLoop(c: nat)
    | Unregister(c: nat)
    | DeactivateToken(c: nat, ok: bool)

  /** Re-login under another name: the old one is taken out first. */
  predicate MustEvict(x: Conn) { x.username != "" && x.username != x.user }

  predicate FreshToken(s: State, t: Token) { t != "" && t !in s.sessions }

  predicate Enabled(s: State, e: Event)
  {
    match e
    case Open(c) => c !in s.conns
    case Tick(_) => true
    case Sweep => true
    case Login(c, name, token, _) =>
      c in s.conns && s.conns[c].phase == Serving && name != "" && name in s.users && FreshToken(s, token)
    case Register(c, name, token, _) =>
      c in s.conns && s.conns[c].phase == Serving && name != "" && name !in s.users && FreshToken(s, token)
    case OtherPacket(c) => c in s.conns && s.conns[c].phase == Serving && s.conns[c].authenticated
    case EvictOldName(c) => c in s.conns && s.conns[c].phase == Registering && MustEvict(s.conns[c])
    case AddNewName(c) =>
      c in s.conns && (s.conns[c].phase == Evicted ||
                       (s.conns[c].phase == Registering && !MustEvict(s.conns[c])))
    case LeaveLoop(c) => c in s.conns && s.conns[c].phase == Serving
    case Unregister(c) => c in s.conns && s.conns[c].phase == Closing
    case DeactivateToken(c, _) => c in s.conns && s.conns[c].phase == Deactivating
  }

  function DeactivateAll(rows: map<Token, SessionRow>, user: int): map<Token, SessionRow>
  {
    map t | t in rows :: if rows[t].user == user then rows[t].(active := false) else rows[t]
  }

  /** The session is set up on the connection; only a returned handler goes on to register. */
  function Authenticate(x: Conn, name: Name, token: Token, outcome: Outcome): Conn
  {
    x.(authenticated := true, user := name, token := token, issued := x.issued + {token},
       phase := if outcome == Returned then Registering else Serving)
  }

  function Next(s: State, e: Event): State
    requires Enabled(s, e)
  {
    match e
    case Open(c) =>
      s.(conns := s.conns[c := Conn(false, "", "", "", "", Serving, {}, 0)])
    case Tick(d) => s.(now := s.now + d)
    case Sweep =>
      s.(sessions := map t | t in s.sessions ::
           if s.sessions[t].expires < s.now then s.sessions[t].(active := false) else s.sessions[t])
    case Login(c, name, token, outcome) =>
      var id := s.users[name];
      var rows := DeactivateAll(s.sessions, id);
      if outcome == ThrewEarly then s.(sessions := rows)
      else s.(sessions := rows[token := SessionRow(id, true, s.now + DAY)],
              conns := s.conns[c := Authenticate(s.conns[c], name, token, outcome)])
    case Register(c, name, token, outcome) =>
      var s1 := s.(users := s.users[name := s.nextUser], nextUser := s.nextUser + 1);
      if outcome == ThrewEarly then s1
      else s1.(sessions := s.sessions[token := SessionRow(s.nextUser, true, s.now + DAY)],
               conns := s.conns[c := Authenticate(s.conns[c], name, token, outcome)])
    case OtherPacket(c) => s.(conns := s.conns[c := s.conns[c].(phase := Registering)])
    case EvictOldName(c) =>
      var x := s.conns[c];
      s.(clients := RemoveClient(s.clients, x.username, c),
         conns := s.conns[c := x.(phase := Evicted, adds := 0)])
    case AddNewName(c) =>
      var x := s.conns[c];
      s.(clients := AddClient(s.clients, x.user, c),
         conns := s.conns[c := x.(username := x.user, sessionToken := x.token, phase := Serving,
                                  adds := x.adds + 1)])
    case LeaveLoop(c) => s.(conns := s.conns[c := s.conns[c].(phase := Closing)])
    case Unregister(c) =>
      var x := s.conns[c];
      if x.username == "" then s.(conns := s.conns[c := x.(phase := Done)])
      else s.(clients := RemoveClient(s.clients, x.username, c),
              conns := s.conns[c := x.(phase := Deactivating, adds := 0)])
    case DeactivateToken(c, ok) =>
      var x := s.conns[c];
      s.(sessions := if ok && x.sessionToken in s.sessions
                     then s.sessions[x.sessionToken := s.sessions[x.sessionToken].(active := false)]
                     else s.sessions,
         conns := s.conns[c := x.(phase := Done)])
  }

  ghost predicate Follows(ss: seq<State>, es: seq<Event>, i: int)
    requires 0 <= i < |es| < |ss|
  {
    Enabled(ss[i], es[i]) && ss[i + 1] == Next(ss[i], es[i])
  }

  /** Any interleaving of any number of connections. */
  ghost predicate History(ss: seq<State>, es: seq<Event>)
  {
    && |ss| == |es| + 1 && ss[0] == START
    && forall i {:trigger Follows(ss, es, i)} :: 0 <= i < |es| ==> Follows(ss, es, i)
  }

  // ---------------------------------------------------------------------------
  // Registry safety
  // ---------------------------------------------------------------------------

  /** The name under which a connection is filed right now. */
  function RegisteredAs(x: Conn): Option<Name>
  {
    if x.username != "" && (x.phase == Serving || x.phase == Registering || x.phase == Closing)
    then Some(x.username) else None
  }

  function Expected(conns: map<nat, Conn>, u: Name, c: nat): nat
  {
    if c in conns && RegisteredAs(conns[c]) == Some(u) then conns[c].adds else 0
  }

  ghost predicate Exact(conns: map<nat, Conn>, cs: Clients)
  {
    forall u, c {:trigger Count(cs, u, c)} :: Count(cs, u, c) == Expected(conns, u, c)
  }

  predicate ConnOk(x: Conn)
  {
    && (RegisteredAs(x).Some? <==> x.adds > 0)
    && (x.phase == Registering || x.phase == Evicted ==> x.authenticated)
    && (x.authenticated ==> x.user != "")
    && (x.phase == Evicted ==> x.username != "")
    && (x.username == "" ==> x.sessionToken == "")
  }

  ghost predicate ConnsOk(conns: map<nat, Conn>) { forall c :: c in conns ==> ConnOk(conns[c]) }

  /** Exactly the registered connections are filed, each under its name, once per addClient. */
  ghost predicate RegistryExact(s: State)
  {
    NoEmptyLists(s.clients) && Exact(s.conns, s.clients) && ConnsOk(s.conns)
  }

  lemma AddKeepsExact(conns: map<nat, Conn>, cs: Clients, c: nat, x: Conn)
    requires Exact(conns, cs) && c in conns
    requires RegisteredAs(x) == Some(x.username)
    requires x.adds == 1 + Expected(conns, x.username, c)
    requires forall u :: u != x.username ==> Expected(conns, u, c) == 0
    ensures Exact(conns[c := x], AddClient(cs, x.username, c))
  {
    forall u, d ensures Count(AddClient(cs, x.username, c), u, d) == Expected(conns[c := x], u, d) {
      CountAfterAdd(cs, x.username, c, u, d);
    }
  }

  lemma RemoveKeepsExact(conns: map<nat, Conn>, cs: Clients, u: Name, c: nat, x: Conn)
    requires Exact(conns, cs) && c in conns && RegisteredAs(conns[c]) == Some(u)
    requires RegisteredAs(x).None?
    ensures Exact(conns[c := x], RemoveClient(cs, u, c))
  {
    forall v, d ensures Count(RemoveClient(cs, u, c), v, d) == Expected(conns[c := x], v, d) {
      CountAfterRemove(cs, u, c, v, d);
    }
  }

  /** A connection whose filing does not change may change otherwise. */
  lemma SameFilingKeepsExact(conns: map<nat, Conn>, cs: Clients, c: nat, x: Conn)
    requires Exact(conns, cs)
    requires forall u :: Expected(conns[c := x], u, c) == Expected(conns, u, c)
    ensures Exact(conns[c := x], cs)
  {
    forall u, d ensures Count(cs, u, d) == Expected(conns[c := x], u, d) {
      assert Expected(conns[c := x], u, d) == Expected(conns, u, d);
    }
  }

  lemma NextKeepsConns(s: State, e: Event)
    requires ConnsOk(s.conns) && Enabled(s, e)
    ensures ConnsOk(Next(s, e).conns)
  {
  }

  lemma NextKeepsNoEmptyLists(s: State, e: Event)
    requires NoEmptyLists(s.clients) && Enabled(s, e)
    ensures NoEmptyLists(Next(s, e).clients)
  {
  }

  lemma NextKeepsExact(s: State, e: Event)
    requires RegistryExact(s) && Enabled(s, e)
    ensures Exact(Next(s, e).conns, Next(s, e).clients)
  {
    var n := Next(s, e);
    match e
    case Open(c) => SameFilingKeepsExact(s.conns, s.clients, c, n.conns[c]);
    case Tick(_) =>
    case Sweep =>
    case Login(c, _, _, outcome) =>
      if outcome != ThrewEarly { SameFilingKeepsExact(s.conns, s.clients, c, n.conns[c]); }
    case Register(c, _, _, outcome) =>
      if outcome != ThrewEarly { SameFilingKeepsExact(s.conns, s.clients, c, n.conns[c]); }
    case OtherPacket(c) => SameFilingKeepsExact(s.conns, s.clients, c, n.conns[c]);
    case EvictOldName(c) => RemoveKeepsExact(s.conns, s.clients, s.conns[c].username, c, n.conns[c]);
    case AddNewName(c) => AddKeepsExact(s.conns, s.clients, c, n.conns[c]);
    case LeaveLoop(c) => SameFilingKeepsExact(s.conns, s.clients, c, n.conns[c]);
    case Unregister(c) =>
      if s.conns[c].username == "" {
        SameFilingKeepsExact(s.conns, s.clients, c, n.conns[c]);
      } else {
        RemoveKeepsExact(s.conns, s.clients, s.conns[c].username, c, n.conns[c]);
      }
    case DeactivateToken(c, _) => SameFilingKeepsExact(s.conns, s.clients, c, n.conns[c]);
  }

  lemma NextKeepsRegistry(s: State, e: Event)
    requires RegistryExact(s) && Enabled(s, e)
    ensures RegistryExact(Next(s, e))
  {
    NextKeepsConns(s, e);
    NextKeepsNoEmptyLists(s, e);
    NextKeepsExact(s, e);
  }

  lemma {:induction false} RegistryIsExact(ss: seq<State>, es: seq<Event>, n: nat)
    requires History(ss, es) && n <= |es|
    ensures RegistryExact(ss[n])
  {
    if n > 0 {
      RegistryIsExact(ss, es, n - 1);
      assert Follows(ss, es, n - 1);
      NextKeepsRegistry(ss[n - 1], es[n - 1]);
    }
  }

  lemma CountIsMembership(cs: Clients, u: Name, c: nat)
    ensures Count(cs, u, c) > 0 <==> u in cs && c in cs[u]
  {
  }

  /**
   * After any interleaving: a session is filed only under its own connection's registered name,
   * a finished connection's session is filed nowhere, no name has an empty list, and a lookup
   * succeeds exactly when some connection is registered under that name.
   */
  lemma RegistrySafety(ss: seq<State>, es: seq<Event>, n: nat, u: Name)
    requires History(ss, es) && n <= |es|
    ensures u in ss[n].clients ==> ss[n].clients[u] != []
    ensures forall c :: u in ss[n].clients && c in ss[n].clients[u] ==>
              c in ss[n].conns && RegisteredAs(ss[n].conns[c]) == Some(u)
              && ss[n].conns[c].phase != Done
    ensures FindClient(ss[n].clients, u).Some? <==>
            exists c :: c in ss[n].conns && RegisteredAs(ss[n].conns[c]) == Some(u)
  {
    var s := ss[n];
    RegistryIsExact(ss, es, n);
    forall c ensures (u in s.clients && c in s.clients[u]) <==>
                     (c in s.conns && RegisteredAs(s.conns[c]) == Some(u))
    {
      CountIsMembership(s.clients, u, c);
      assert Count(s.clients, u, c) == Expected(s.conns, u, c);
    }
    if u in s.clients {
      assert s.clients[u][0] in s.clients[u];
    }
  }

  /** addClient calls for c among the first n events, since it was last filed anew. */
  function AddsSince(es: seq<Event>, n: nat, c: nat): nat
    requires n <= |es|
  {
    if n == 0 then 0
    else
      match es[n - 1]
      case AddNewName(d) => AddsSince(es, n - 1, c) + if d == c then 1 else 0
      case EvictOldName(d) => if d == c then 0 else AddsSince(es, n - 1, c)
      case Unregister(d) => if d == c then 0 else AddsSince(es, n - 1, c)
      case Open(d) => if d == c then 0 else AddsSince(es, n - 1, c)
      case _ => AddsSince(es, n - 1, c)
  }

  lemma {:induction false} AddsAreCounted(ss: seq<State>, es: seq<Event>, n: nat, c: nat)
    requires History(ss, es) && n <= |es| && c in ss[n].conns
    ensures ss[n].conns[c].adds == AddsSince(es, n, c)
  {
    if n > 0 {
      assert Follows(ss, es, n - 1);
      RegistryIsExact(ss, es, n - 1);
      if c in ss[n - 1].conns {
        assert ConnOk(ss[n - 1].conns[c]);
        AddsAreCounted(ss, es, n - 1, c);
      }
    }
  }

  /** The list of a name holds a session once per addClient since it was filed there. */
  lemma RegistryMultiplicity(ss: seq<State>, es: seq<Event>, n: nat, u: Name, c: nat)
    requires History(ss, es) && n <= |es| && c in ss[n].conns
    requires RegisteredAs(ss[n].conns[c]) == Some(u)
    ensures u in ss[n].clients && multiset(ss[n].clients[u])[c] == AddsSince(es, n, c) > 0
  {
    RegistryIsExact(ss, es, n);
    AddsAreCounted(ss, es, n, c);
    assert ConnOk(ss[n].conns[c]);
    assert Count(ss[n].clients, u, c) == Expected(ss[n].conns, u, c);
  }
}
