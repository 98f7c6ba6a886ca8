/**
 * A client's work that waits for peers' public keys: direct messages written before the peer's
 * key is known, and group creations that need every member's key.
 */
module PendingKeys {
  import opened Wrappers
  import opened Runs

  type Peer = string

  /** A public key; an unusable one makes the RSA wrap throw. */
  datatype PubKey = PubKey(bytes: string, usable: bool)

  /** The group key aes wrapped with a member's public key. */
  datatype Wrapped = Wrapped(aes: nat, key: PubKey)

  datatype Draft = Draft(to: Peer, text: string, ts: string)

  /** PendingGroupCreate, numbered in order of creation. */
  datatype Creation = Creation(id: nat, name: string, members: seq<Peer>, aes: nat, creator: Peer,
                               collected: map<Peer, Wrapped>, waiting: seq<Peer>)

  /**
   * given and handed record, since the last logout, the calls of sendMessage and of
   * encryptAndSend; created records the CREATE_GROUP packets sent.
   */
  datatype State = State(
    me: Peer, own: Option<PubKey>, keys: map<Peer, PubKey>, pending: map<Peer, seq<Draft>>,
    given: seq<Draft>, handed: seq<Draft>,
    creations: seq<Creation>, created: seq<Creation>, nextId: nat)

  const START := State("", None, map[], map[], [], [], [], [], 0)

  datatype Event =
    | LoggedIn(me: Peer, own: Option<PubKey>)
    | SendMessage(d: Draft)
    | KeyArrives(peer: Peer, key: PubKey)
    | CreateGroup(name: string, members: seq<Peer>, aes: nat)
    | Logout

  function PendingFor(s: State, p: Peer): seq<Draft> { if p in s.pending then s.pending[p] else [] }

  /** QList::removeOne: the first occurrence. */
  function RemoveOne(xs: seq<Peer>, p: Peer): seq<Peer>
  {
    if xs == [] then [] else if xs[0] == p then xs[1..] else [xs[0]] + RemoveOne(xs[1..], p)
  }

  /** A key reply takes the peer off the waiting list, wrapped or not. */
  function Served(c: Creation, p: Peer, key: PubKey): Creation
  {
    if p !in c.waiting then c
    else c.(waiting := RemoveOne(c.waiting, p),
            collected := if key.usable then c.collected[p := Wrapped(c.aes, key)] else c.collected)
  }

  function ServedAll(cs: seq<Creation>, p: Peer, key: PubKey): seq<Creation>
  {
    seq(|cs|, i requires 0 <= i < |cs| => Served(cs[i], p, key))
  }

  function Ready(cs: seq<Creation>): seq<Creation>
  {
    if cs == [] then []
    else Ready(cs[..|cs| - 1]) + if cs[|cs| - 1].waiting == [] then [cs[|cs| - 1]] else []
  }

  function Unready(cs: seq<Creation>): seq<Creation>
  {
    if cs == [] then []
    else Unready(cs[..|cs| - 1]) + if cs[|cs| - 1].waiting == [] then [] else [cs[|cs| - 1]]
  }

  /** The members without a known key, in order, and the keys of the others. */
  function Missing(keys: map<Peer, PubKey>, members: seq<Peer>): seq<Peer>
  {
    if members == [] then []
    else
      var m := members[|members| - 1];
      Missing(keys, members[..|members| - 1]) + if m in keys then [] else [m]
  }

  function Known(keys: map<Peer, PubKey>, members: seq<Peer>, aes: nat): map<Peer, Wrapped>
  {
    if members == [] then map[]
    else
      var m := members[|members| - 1];
      var rest := Known(keys, members[..|members| - 1], aes);
      if m in keys then rest[m := Wrapped(aes, keys[m])] else rest
  }

  function NewCreation(s: State, name: string, members: seq<Peer>, aes: nat): Creation
  {
    var mine := if s.own.Some? then map[s.me := Wrapped(aes, s.own.value)] else map[];
    Creation(s.nextId, name, members, aes, s.me, mine + Known(s.keys, members, aes), Missing(s.keys, members))
  }

  /** No wrap throws while the creation is set up. */
  predicate Accepts(s: State, members: seq<Peer>)
  {
    && (s.own.Some? ==> s.own.value.usable)
    && forall m :: m in members && m in s.keys ==> s.keys[m].usable
  }

  function Next(s: State, e: Event): State
  {
    match e
    case LoggedIn(me, own) => s.(me := me, own := own)
    case SendMessage(d) =>
      var s1 := s.(given := s.given + [d]);
      if d.to in s.keys then s1.(handed := s.handed + [d])
      else s1.(pending := s.pending[d.to := PendingFor(s, d.to) + [d]])
    case KeyArrives(p, key) =>
      var cs := ServedAll(s.creations, p, key);
      s.(keys := s.keys[p := key], pending := s.pending - {p}, handed := s.handed + PendingFor(s, p),
         creations := Unready(cs), created := s.created + Ready(cs))
    case CreateGroup(name, members, aes) =>
      var c := NewCreation(s, name, members, aes);
      if !Accepts(s, members) then s
      else if c.waiting == [] then s.(created := s.created + [c], nextId := s.nextId + 1)
      else s.(creations := s.creations + [c], nextId := s.nextId + 1)
    case Logout => s.(me := "", own := None, keys := map[], pending := map[], given := [], handed := [])
  }

  ghost predicate Follows(ss: seq<State>, es: seq<Event>, i: int)
    requires 0 <= i < |es| < |ss|
  {
    ss[i + 1] == Next(ss[i], es[i])
  }

  ghost predicate History(ss: seq<State>, es: seq<Event>)
  {
    && |ss| == |es| + 1 && ss[0] == START
    && forall i {:trigger Follows(ss, es, i)} :: 0 <= i < |es| ==> Follows(ss, es, i)
  }

  // ---------------------------------------------------------------------------
  // Deferred direct messages
  // ---------------------------------------------------------------------------

  /** The part of a log that goes to one peer. */
  function To(log: seq<Draft>, p: Peer): seq<Draft>
  {
    if log == [] then [] else To(log[..|log| - 1], p) + if log[|log| - 1].to == p then [log[|log| - 1]] else []
  }

  lemma {:induction false} ToConcat(a: seq<Draft>, b: seq<Draft>, p: Peer)
    ensures To(a + b, p) == To(a, p) + To(b, p)
  {
    if b == [] {
      assert a + b == a;
    } else {
      assert (a + b)[..|a + b| - 1] == a + b[..|b| - 1];
      ToConcat(a, b[..|b| - 1], p);
    }
  }

  lemma {:induction false} ToAll(log: seq<Draft>, q: Peer, p: Peer)
    requires forall i :: 0 <= i < |log| ==> log[i].to == q
    ensures To(log, p) == if p == q then log else []
  {
    if log != [] {
      var rest, last := log[..|log| - 1], log[|log| - 1];
      assert log == rest + [last] && last.to == q;
      ToAll(rest, q, p);
      ToSnoc(rest, last, p);
    }
  }

  ghost predicate FiledRight(s: State)
  {
    forall p :: p in s.pending ==> p !in s.keys && forall i :: 0 <= i < |s.pending[p]| ==> s.pending[p][i].to == p
  }

  ghost predicate Lossless(s: State)
  {
    forall p {:trigger To(s.given, p)} :: To(s.handed, p) + PendingFor(s, p) == To(s.given, p)
  }

  lemma ToSnoc(log: seq<Draft>, d: Draft, p: Peer)
    ensures To(log + [d], p) == To(log, p) + if d.to == p then [d] else []
  {
    assert (log + [d])[..|log|] == log;
  }

  /** The equation on the three logs of one peer, before and after a send. */
  lemma HandedInOrder(handed: seq<Draft>, given: seq<Draft>, d: Draft, p: Peer, kept: seq<Draft>)
    requires To(handed, p) + kept == To(given, p) && (d.to == p ==> kept == [])
    ensures To(handed + [d], p) + kept == To(given + [d], p)
  {
    ToSnoc(handed, d, p);
    ToSnoc(given, d, p);
    if d.to == p { Regroup(To(handed, p), kept, d); }
  }

  lemma KeptInOrder(handed: seq<Draft>, given: seq<Draft>, d: Draft, p: Peer, kept: seq<Draft>)
    requires To(handed, p) + kept == To(given, p)
    ensures To(handed, p) + (if d.to == p then kept + [d] else kept) == To(given + [d], p)
  {
    ToSnoc(given, d, p);
    if d.to == p { Regroup(To(handed, p), kept, d); }
  }

  lemma SendKeepsOrder(s: State, d: Draft, p: Peer)
    requires FiledRight(s) && To(s.handed, p) + PendingFor(s, p) == To(s.given, p)
    ensures var n := Next(s, SendMessage(d)); To(n.handed, p) + PendingFor(n, p) == To(n.given, p)
  {
    if d.to in s.keys {
      HandedInOrder(s.handed, s.given, d, p, PendingFor(s, p));
    } else {
      KeptInOrder(s.handed, s.given, d, p, PendingFor(s, p));
    }
  }

  lemma Regroup(a: seq<Draft>, b: seq<Draft>, d: Draft)
    ensures a + (b + [d]) == (a + b) + [d]
    ensures b == [] ==> (a + [d]) + b == (a + b) + [d] && a + b == a
  {
  }

  lemma DrainKeepsOrder(handed: seq<Draft>, drained: seq<Draft>, q: Peer, p: Peer, kept: seq<Draft>)
    requires forall i :: 0 <= i < |drained| ==> drained[i].to == q
    requires p == q ==> kept == drained
    ensures To(handed + drained, p) + (if p == q then [] else kept) == To(handed, p) + kept
  {
    ToConcat(handed, drained, p);
    ToAll(drained, q, p);
    assert To(handed, p) + [] == To(handed, p);
  }

  lemma ArrivalKeepsOrder(s: State, q: Peer, key: PubKey, p: Peer)
    requires FiledRight(s) && To(s.handed, p) + PendingFor(s, p) == To(s.given, p)
    ensures var n := Next(s, KeyArrives(q, key)); To(n.handed, p) + PendingFor(n, p) == To(n.given, p)
  {
    var n := Next(s, KeyArrives(q, key));
    DrainKeepsOrder(s.handed, PendingFor(s, q), q, p, PendingFor(s, p));
    assert n.handed == s.handed + PendingFor(s, q) && n.given == s.given;
    assert PendingFor(n, p) == if p == q then [] else PendingFor(s, p);
  }

  lemma NextFilesRight(s: State, e: Event)
    requires FiledRight(s)
    ensures FiledRight(Next(s, e))
  {
  }

  lemma NextIsLossless(s: State, e: Event)
    requires FiledRight(s) && Lossless(s)
    ensures Lossless(Next(s, e))
  {
    var n := Next(s, e);
    forall p ensures To(n.handed, p) + PendingFor(n, p) == To(n.given, p) {
      assert To(s.handed, p) + PendingFor(s, p) == To(s.given, p);
      match e
      case SendMessage(d) => SendKeepsOrder(s, d, p);
      case KeyArrives(q, key) => ArrivalKeepsOrder(s, q, key, p);
      case _ =>
    }
  }

  lemma {:induction false} HistoryIsLossless(ss: seq<State>, es: seq<Event>, n: nat)
    requires History(ss, es) && n <= |es|
    ensures FiledRight(ss[n]) && Lossless(ss[n])
  {
    if n > 0 {
      HistoryIsLossless(ss, es, n - 1);
      assert Follows(ss, es, n - 1);
      NextFilesRight(ss[n - 1], es[n - 1]);
      NextIsLossless(ss[n - 1], es[n - 1]);
    }
  }

  /**
   * Since the last logout, what went to encryptAndSend for a peer followed by what still waits is
   * exactly what was given to sendMessage, in order; a peer whose key is known has nothing waiting.
   */
  lemma DeferredSendsAreFifo(ss: seq<State>, es: seq<Event>, n: nat, p: Peer)
    requires History(ss, es) && n <= |es|
    ensures To(ss[n].handed, p) + PendingFor(ss[n], p) == To(ss[n].given, p)
    ensures p in ss[n].keys ==> PendingFor(ss[n], p) == [] && To(ss[n].handed, p) == To(ss[n].given, p)
  {
    HistoryIsLossless(ss, es, n);
    assert To(ss[n].handed, p) + PendingFor(ss[n], p) == To(ss[n].given, p);
  }

  // ---------------------------------------------------------------------------
  // Known keys
  // ---------------------------------------------------------------------------

  predicate Knows(s: State, p: Peer, key: PubKey) { p in s.keys && s.keys[p] == key }

  /** Another reply of the peer, or a logout. */
  predicate Forgets(e: Event, p: Peer) { e.Logout? || (e.KeyArrives? && e.peer == p) }

  lemma KnowsStep(s: State, e: Event, p: Peer, key: PubKey)
    ensures Knows(Next(s, e), p, key) <==> e == KeyArrives(p, key) || (Knows(s, p, key) && !Forgets(e, p))
  {
  }

  ghost predicate KnownSince(es: seq<Event>, i: int, n: int, p: Peer, key: PubKey)
    requires n <= |es|
  {
    0 <= i < n && es[i] == KeyArrives(p, key) && forall j :: i < j < n ==> !Forgets(es[j], p)
  }

  /** A peer's key is known exactly when it is the peer's last reply since the last logout. */
  lemma KnownTrace(ss: seq<State>, es: seq<Event>, n: nat, p: Peer, key: PubKey)
    requires History(ss, es) && n <= |es|
    ensures Knows(ss[n], p, key) <==> exists i :: KnownSince(es, i, n, p, key)
  {
    var on := seq(n + 1, i requires 0 <= i <= n => Knows(ss[i], p, key));
    var set_ := seq(n, i requires 0 <= i < n => es[i] == KeyArrives(p, key));
    var clear := seq(n, i requires 0 <= i < n => Forgets(es[i], p));
    forall i | 0 <= i < n ensures on[i + 1] == (set_[i] || (on[i] && !clear[i])) {
      assert Follows(ss, es, i);
      KnowsStep(ss[i], es[i], p, key);
    }
    Latch(on, set_, clear);
    forall i | 0 <= i < n
      ensures KnownSince(es, i, n, p, key) <==> set_[i] && forall j :: i < j < n ==> !clear[j]
    {
      assert forall j :: i < j < n ==> clear[j] == Forgets(es[j], p);
    }
  }
}
