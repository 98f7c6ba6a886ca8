/** When a group creation goes out: exactly once, and exactly when nobody's key is missing any more. */
module GroupCreations {
  import opened Wrappers
  import opened PendingKeys

  // ---------------------------------------------------------------------------
  // Conservation: pending or sent, once
  // ---------------------------------------------------------------------------

  function Times(cs: seq<Creation>, id: nat): nat
  {
    if cs == [] then 0 else Times(cs[..|cs| - 1], id) + if cs[|cs| - 1].id == id then 1 else 0
  }

  lemma {:induction false} TimesConcat(a: seq<Creation>, b: seq<Creation>, id: nat)
    ensures Times(a + b, id) == Times(a, id) + Times(b, id)
  {
    if b == [] {
      assert a + b == a;
    } else {
      assert (a + b)[..|a + b| - 1] == a + b[..|b| - 1];
      TimesConcat(a, b[..|b| - 1], id);
    }
  }

  lemma {:induction false} TimesIn(cs: seq<Creation>, id: nat, i: nat)
    requires i < |cs| && cs[i].id == id
    ensures Times(cs, id) > 0
  {
    if i < |cs| - 1 { TimesIn(cs[..|cs| - 1], id, i); }
  }

  lemma {:induction false} TimesFind(cs: seq<Creation>, id: nat) returns (i: nat)
    requires Times(cs, id) > 0
    ensures i < |cs| && cs[i].id == id
  {
    if cs[|cs| - 1].id == id { i := |cs| - 1; } else { i := TimesFind(cs[..|cs| - 1], id); }
  }

  lemma TimesSnoc(cs: seq<Creation>, c: Creation, id: nat)
    ensures Times(cs + [c], id) == Times(cs, id) + if c.id == id then 1 else 0
  {
    assert (cs + [c])[..|cs|] == cs;
  }

  lemma {:induction false} PartitionTimes(cs: seq<Creation>, id: nat)
    ensures Times(Ready(cs), id) + Times(Unready(cs), id) == Times(cs, id)
  {
    if cs != [] {
      var before, last := cs[..|cs| - 1], cs[|cs| - 1];
      PartitionTimes(before, id);
      if last.waiting == [] {
        TimesSnoc(Ready(before), last, id);
        assert Unready(cs) == Unready(before);
      } else {
        TimesSnoc(Unready(before), last, id);
        assert Ready(cs) == Ready(before);
      }
    }
  }

  lemma {:induction false} ServedTimes(cs: seq<Creation>, p: Peer, key: PubKey, id: nat)
    ensures Times(ServedAll(cs, p, key), id) == Times(cs, id)
  {
    if cs != [] {
      var n := |cs| - 1;
      ServedTimes(cs[..n], p, key, id);
      assert ServedAll(cs, p, key)[..n] == ServedAll(cs[..n], p, key);
    }
  }

  function Tally(s: State, id: nat): nat { Times(s.creations, id) + Times(s.created, id) }

  lemma NextIdGrows(s: State, e: Event)
    ensures s.nextId <= Next(s, e).nextId <= s.nextId + 1
  {
  }

  lemma ArrivalTally(s: State, p: Peer, key: PubKey, id: nat)
    ensures Tally(Next(s, KeyArrives(p, key)), id) == Tally(s, id)
  {
    var cs := ServedAll(s.creations, p, key);
    ServedTimes(s.creations, p, key, id);
    PartitionTimes(cs, id);
    TimesConcat(s.created, Ready(cs), id);
  }

  lemma CreationTally(s: State, n: State, c: Creation, id: nat)
    requires || n == s.(created := s.created + [c], nextId := s.nextId + 1)
             || n == s.(creations := s.creations + [c], nextId := s.nextId + 1)
    ensures Tally(n, id) == Tally(s, id) + if c.id == id then 1 else 0
  {
    TimesSnoc(s.created, c, id);
    TimesSnoc(s.creations, c, id);
  }

  lemma TallyOfNext(s: State, e: Event, id: nat)
    ensures Tally(Next(s, e), id) == Tally(s, id) + if s.nextId == id && Next(s, e).nextId == id + 1 then 1 else 0
    ensures s.nextId <= Next(s, e).nextId <= s.nextId + 1
  {
    NextIdGrows(s, e);
    match e
    case KeyArrives(p, key) => ArrivalTally(s, p, key, id);
    case CreateGroup(name, members, aes) =>
      if Accepts(s, members) { CreationTally(s, Next(s, e), NewCreation(s, name, members, aes), id); }
    case _ =>
  }

  /** Every accepted creation is, at any time, either pending or sent, and only once. */
  lemma {:induction false} PendingOrSentOnce(ss: seq<State>, es: seq<Event>, n: nat, id: nat)
    requires History(ss, es) && n <= |es|
    ensures Times(ss[n].creations, id) + Times(ss[n].created, id) == if id < ss[n].nextId then 1 else 0
  {
    if n > 0 {
      PendingOrSentOnce(ss, es, n - 1, id);
      assert Follows(ss, es, n - 1);
      TallyOfNext(ss[n - 1], es[n - 1], id);
    }
  }

  // ---------------------------------------------------------------------------
  // What is still owed
  // ---------------------------------------------------------------------------

  /** Key replies from m among the events after i and before n. */
  function Replies(es: seq<Event>, i: nat, n: nat, m: Peer): nat
    requires i < n <= |es|
  {
    if n == i + 1 then 0
    else Replies(es, i, n - 1, m) + if es[n - 1].KeyArrives? && es[n - 1].peer == m then 1 else 0
  }

  /** Event i is a group creation that is accepted and numbered id. */
  ghost predicate Starts(ss: seq<State>, es: seq<Event>, i: nat, id: nat)
  {
    && i < |es| < |ss| && es[i].CreateGroup? && Accepts(ss[i], es[i].members) && ss[i].nextId == id
  }

  /** How many replies of m the creation of event i still needs before state n. */
  function Owed(ss: seq<State>, es: seq<Event>, i: nat, n: nat, m: Peer): nat
    requires i < n <= |es| < |ss| && es[i].CreateGroup?
  {
    var listed, got := multiset(es[i].members)[m], Replies(es, i, n, m);
    if m in ss[i].keys || got >= listed then 0 else listed - got
  }

  lemma {:induction false} RemoveOneCounts(xs: seq<Peer>, p: Peer, m: Peer)
    ensures multiset(RemoveOne(xs, p))[m] == multiset(xs)[m] - if m == p && p in xs then 1 else 0
  {
    if xs != [] {
      assert xs == [xs[0]] + xs[1..];
      if xs[0] != p { RemoveOneCounts(xs[1..], p, m); }
    }
  }

  lemma {:induction false} MissingCounts(keys: map<Peer, PubKey>, members: seq<Peer>, m: Peer)
    ensures multiset(Missing(keys, members))[m] == if m in keys then 0 else multiset(members)[m]
  {
    if members != [] {
      assert members == members[..|members| - 1] + [members[|members| - 1]];
      MissingCounts(keys, members[..|members| - 1], m);
    }
  }

  lemma ServedCounts(c: Creation, p: Peer, key: PubKey, m: Peer)
    ensures multiset(Served(c, p, key).waiting)[m]
            == if m == p && multiset(c.waiting)[m] > 0 then multiset(c.waiting)[m] - 1 else multiset(c.waiting)[m]
  {
    RemoveOneCounts(c.waiting, p, m);
  }

  lemma {:induction false} ReadyIff(cs: seq<Creation>, c: Creation)
    ensures c in Ready(cs) <==> c in cs && c.waiting == []
    ensures c in Unready(cs) <==> c in cs && c.waiting != []
  {
    if cs != [] {
      ReadyIff(cs[..|cs| - 1], c);
      assert cs == cs[..|cs| - 1] + [cs[|cs| - 1]];
    }
  }

  lemma ServedFrom(cs: seq<Creation>, p: Peer, key: PubKey, c: Creation) returns (b: Creation)
    requires c in ServedAll(cs, p, key)
    ensures b in cs && c == Served(b, p, key)
  {
    var i :| 0 <= i < |cs| && ServedAll(cs, p, key)[i] == c;
    b := cs[i];
  }

  /** What the creation of event i waits for at state n, member by member. */
  ghost predicate Tracks(ss: seq<State>, es: seq<Event>, i: nat, n: nat, c: Creation)
    requires i < n <= |es| < |ss| && es[i].CreateGroup?
  {
    forall m {:trigger Owed(ss, es, i, n, m)} :: multiset(c.waiting)[m] == Owed(ss, es, i, n, m)
  }

  lemma TracksServed(ss: seq<State>, es: seq<Event>, i: nat, n: nat, b: Creation)
    requires i < n < |es| < |ss| && es[i].CreateGroup? && es[n].KeyArrives? && Tracks(ss, es, i, n, b)
    ensures Tracks(ss, es, i, n + 1, Served(b, es[n].peer, es[n].key))
  {
    forall m ensures multiset(Served(b, es[n].peer, es[n].key).waiting)[m] == Owed(ss, es, i, n + 1, m) {
      ServedCounts(b, es[n].peer, es[n].key, m);
      assert multiset(b.waiting)[m] == Owed(ss, es, i, n, m);
    }
  }

  lemma TracksOther(ss: seq<State>, es: seq<Event>, i: nat, n: nat, c: Creation)
    requires i < n < |es| < |ss| && es[i].CreateGroup? && !es[n].KeyArrives? && Tracks(ss, es, i, n, c)
    ensures Tracks(ss, es, i, n + 1, c)
  {
    forall m ensures multiset(c.waiting)[m] == Owed(ss, es, i, n + 1, m) {
      assert multiset(c.waiting)[m] == Owed(ss, es, i, n, m);
    }
  }

  lemma TracksNew(ss: seq<State>, es: seq<Event>, i: nat)
    requires i < |es| < |ss| && es[i].CreateGroup?
    ensures Tracks(ss, es, i, i + 1, NewCreation(ss[i], es[i].name, es[i].members, es[i].aes))
  {
    forall m ensures multiset(Missing(ss[i].keys, es[i].members))[m] == Owed(ss, es, i, i + 1, m) {
      MissingCounts(ss[i].keys, es[i].members, m);
    }
  }

  /** Nothing owed stays nothing owed. */
  lemma {:induction false} SettledForGood(ss: seq<State>, es: seq<Event>, i: nat, k: nat, n: nat, m: Peer)
    requires i < k <= n <= |es| < |ss| && es[i].CreateGroup? && Owed(ss, es, i, k, m) == 0
    ensures Owed(ss, es, i, n, m) == 0
  {
    if k < n { SettledForGood(ss, es, i, k, n - 1, m); }
  }

  ghost predicate Settled(ss: seq<State>, es: seq<Event>, i: nat, n: nat)
    requires i < n <= |es| < |ss| && es[i].CreateGroup?
  {
    forall m {:trigger Owed(ss, es, i, n, m)} :: Owed(ss, es, i, n, m) == 0
  }

  /** The pending list holds what the trace says; the sent list holds settled creations only. */
  ghost predicate Faithful(ss: seq<State>, es: seq<Event>, i: nat, n: nat, id: nat)
    requires i < n <= |es| < |ss| && es[i].CreateGroup?
  {
    && (forall c :: c in ss[n].creations && c.id == id ==> c.waiting != [] && Tracks(ss, es, i, n, c))
    && (forall c :: c in ss[n].created && c.id == id ==> Settled(ss, es, i, n))
  }

  lemma FaithfulArrival(ss: seq<State>, es: seq<Event>, i: nat, n: nat, id: nat)
    requires History(ss, es) && i < n < |es| && es[i].CreateGroup? && es[n].KeyArrives?
    requires Faithful(ss, es, i, n, id)
    ensures Faithful(ss, es, i, n + 1, id)
  {
    assert Follows(ss, es, n);
    var p, key := es[n].peer, es[n].key;
    var cs := ServedAll(ss[n].creations, p, key);
    forall c | c in ss[n + 1].creations && c.id == id ensures c.waiting != [] && Tracks(ss, es, i, n + 1, c) {
      ReadyIff(cs, c);
      var b := ServedFrom(ss[n].creations, p, key, c);
      TracksServed(ss, es, i, n, b);
    }
    forall c | c in ss[n + 1].created && c.id == id ensures Settled(ss, es, i, n + 1) {
      if c in ss[n].created {
        SettledNext(ss, es, i, n);
      } else {
        ReadyIff(cs, c);
        var b := ServedFrom(ss[n].creations, p, key, c);
        TracksServed(ss, es, i, n, b);
        TracksNothing(ss, es, i, n + 1, c);
      }
    }
  }

  lemma TracksNothing(ss: seq<State>, es: seq<Event>, i: nat, n: nat, c: Creation)
    requires i < n <= |es| < |ss| && es[i].CreateGroup? && Tracks(ss, es, i, n, c) && c.waiting == []
    ensures Settled(ss, es, i, n)
  {
    forall m ensures Owed(ss, es, i, n, m) == 0 {
      assert multiset(c.waiting)[m] == Owed(ss, es, i, n, m);
    }
  }

  lemma SettledNext(ss: seq<State>, es: seq<Event>, i: nat, n: nat)
    requires i < n < |es| < |ss| && es[i].CreateGroup? && Settled(ss, es, i, n)
    ensures Settled(ss, es, i, n + 1)
  {
    var k := n + 1;
    forall m ensures Owed(ss, es, i, k, m) == 0 {
      assert Owed(ss, es, i, n, m) == 0;
      SettledForGood(ss, es, i, n, k, m);
    }
  }

  lemma FaithfulOther(ss: seq<State>, es: seq<Event>, i: nat, n: nat, id: nat)
    requires History(ss, es) && i < n < |es| && es[i].CreateGroup? && !es[n].KeyArrives?
    requires Faithful(ss, es, i, n, id) && id < ss[n].nextId
    ensures Faithful(ss, es, i, n + 1, id)
  {
    assert Follows(ss, es, n);
    forall c | c in ss[n + 1].creations && c.id == id ensures c.waiting != [] && Tracks(ss, es, i, n + 1, c) {
      assert c in ss[n].creations;
      TracksOther(ss, es, i, n, c);
    }
    forall c | c in ss[n + 1].created && c.id == id ensures Settled(ss, es, i, n + 1) {
      assert c in ss[n].created;
      SettledNext(ss, es, i, n);
    }
  }

  lemma FaithfulNew(ss: seq<State>, es: seq<Event>, i: nat, id: nat)
    requires History(ss, es) && Starts(ss, es, i, id)
    ensures Faithful(ss, es, i, i + 1, id) && ss[i + 1].nextId == id + 1
  {
    assert Follows(ss, es, i);
    var new_ := NewCreation(ss[i], es[i].name, es[i].members, es[i].aes);
    PendingOrSentOnce(ss, es, i, id);
    forall c | c in ss[i].creations + ss[i].created ensures c.id != id {
      if k :| 0 <= k < |ss[i].creations| && ss[i].creations[k] == c && c.id == id {
        TimesIn(ss[i].creations, id, k);
      } else if k :| 0 <= k < |ss[i].created| && ss[i].created[k] == c && c.id == id {
        TimesIn(ss[i].created, id, k);
      }
    }
    TracksNew(ss, es, i);
    if new_.waiting == [] { TracksNothing(ss, es, i, i + 1, new_); }
  }

  lemma {:induction false} HistoryIsFaithful(ss: seq<State>, es: seq<Event>, i: nat, n: nat, id: nat)
    requires History(ss, es) && Starts(ss, es, i, id) && i < n <= |es|
    ensures Faithful(ss, es, i, n, id) && id < ss[n].nextId
  {
    if n == i + 1 {
      FaithfulNew(ss, es, i, id);
    } else {
      HistoryIsFaithful(ss, es, i, n - 1, id);
      assert Follows(ss, es, n - 1);
      NextIdGrows(ss[n - 1], es[n - 1]);
      if es[n - 1].KeyArrives? { FaithfulArrival(ss, es, i, n - 1, id); } else { FaithfulOther(ss, es, i, n - 1, id); }
    }
  }

  /**
   * A creation has gone out, and gone out exactly once, if and only if every listed member's key
   * was known when it was made or has been replied since, once for each time the member is listed.
   */
  lemma CreatedExactlyOnceIff(ss: seq<State>, es: seq<Event>, i: nat, n: nat, id: nat)
    requires History(ss, es) && Starts(ss, es, i, id) && i < n <= |es|
    ensures Times(ss[n].created, id) == if Settled(ss, es, i, n) then 1 else 0
    ensures Times(ss[n].creations, id) == if Settled(ss, es, i, n) then 0 else 1
  {
    HistoryIsFaithful(ss, es, i, n, id);
    PendingOrSentOnce(ss, es, n, id);
    if Times(ss[n].created, id) > 0 {
      var k := TimesFind(ss[n].created, id);
      assert ss[n].created[k] in ss[n].created;
    } else {
      var k := TimesFind(ss[n].creations, id);
      var c := ss[n].creations[k];
      assert c in ss[n].creations && c.waiting != [];
      assert multiset(c.waiting)[c.waiting[0]] == Owed(ss, es, i, n, c.waiting[0]);
    }
  }

  // ---------------------------------------------------------------------------
  // The packet's keys
  // ---------------------------------------------------------------------------

  /** Members listed once each, and not the creator. */
  ghost predicate Plain(c: Creation)
  {
    c.creator !in c.members && forall m :: multiset(c.members)[m] <= 1
  }

  /** Every member is either waited for or has its wrapped key, never both; nobody else is waited for. */
  ghost predicate Split(c: Creation)
  {
    && (forall m :: multiset(c.waiting)[m] <= multiset(c.members)[m])
    && forall m :: m in c.members ==> (m in c.waiting <==> m !in c.collected)
  }

  ghost predicate Wraps(c: Creation)
  {
    forall m :: m in c.collected ==> c.collected[m].aes == c.aes && c.collected[m].key.usable
  }

  ghost predicate Sound(c: Creation) { Wraps(c) && (Plain(c) ==> Split(c)) }

  lemma MissingIff(keys: map<Peer, PubKey>, members: seq<Peer>, m: Peer)
    ensures m in Missing(keys, members) <==> m in members && m !in keys
  {
    MissingCounts(keys, members, m);
    assert m in Missing(keys, members) <==> multiset(Missing(keys, members))[m] > 0;
    assert m in members <==> multiset(members)[m] > 0;
  }

  lemma {:induction false} KnownIff(keys: map<Peer, PubKey>, members: seq<Peer>, aes: nat, m: Peer)
    ensures m in Known(keys, members, aes) <==> m in members && m in keys
    ensures m in Known(keys, members, aes) ==> Known(keys, members, aes)[m] == Wrapped(aes, keys[m])
  {
    if members != [] {
      KnownIff(keys, members[..|members| - 1], aes, m);
      assert members == members[..|members| - 1] + [members[|members| - 1]];
    }
  }

  lemma NewIsSplit(s: State, name: string, members: seq<Peer>, aes: nat)
    requires s.me !in members
    ensures Split(NewCreation(s, name, members, aes))
  {
    var c := NewCreation(s, name, members, aes);
    forall m ensures multiset(c.waiting)[m] <= multiset(members)[m] {
      MissingCounts(s.keys, members, m);
    }
    forall m | m in members ensures m in c.waiting <==> m !in c.collected {
      MissingIff(s.keys, members, m);
      KnownIff(s.keys, members, aes, m);
    }
  }

  lemma NewIsSound(s: State, name: string, members: seq<Peer>, aes: nat)
    requires Accepts(s, members)
    ensures Sound(NewCreation(s, name, members, aes))
  {
    var c := NewCreation(s, name, members, aes);
    forall m | m in c.collected ensures c.collected[m].aes == aes && c.collected[m].key.usable {
      KnownIff(s.keys, members, aes, m);
    }
    if s.me !in members { NewIsSplit(s, name, members, aes); }
  }

  lemma ServedIsSound(c: Creation, p: Peer, key: PubKey)
    requires Sound(c) && key.usable
    ensures Sound(Served(c, p, key))
  {
    var d := Served(c, p, key);
    forall m ensures multiset(d.waiting)[m] <= multiset(c.waiting)[m]
                     && (Plain(c) && m in c.members ==> (m in d.waiting <==> m !in d.collected))
    {
      ServedCounts(c, p, key, m);
      assert m in d.waiting <==> multiset(d.waiting)[m] > 0;
      assert m in c.waiting <==> multiset(c.waiting)[m] > 0;
    }
  }

  ghost predicate AllSound(cs: seq<Creation>) { forall c :: c in cs ==> Sound(c) }

  lemma ArrivalIsSound(cs: seq<Creation>, p: Peer, key: PubKey)
    requires AllSound(cs) && key.usable
    ensures AllSound(Ready(ServedAll(cs, p, key))) && AllSound(Unready(ServedAll(cs, p, key)))
  {
    var served := ServedAll(cs, p, key);
    forall c | c in Ready(served) + Unready(served) ensures Sound(c) {
      ReadyIff(served, c);
      var b := ServedFrom(cs, p, key, c);
      ServedIsSound(b, p, key);
    }
  }

  ghost predicate KeysUsable(es: seq<Event>) { forall i :: 0 <= i < |es| && es[i].KeyArrives? ==> es[i].key.usable }

  lemma {:induction false} HistoryIsSound(ss: seq<State>, es: seq<Event>, n: nat)
    requires History(ss, es) && n <= |es| && KeysUsable(es)
    ensures AllSound(ss[n].creations) && AllSound(ss[n].created)
    ensures forall c :: c in ss[n].created ==> c.waiting == []
  {
    if n > 0 {
      var s, e := ss[n - 1], es[n - 1];
      HistoryIsSound(ss, es, n - 1);
      assert Follows(ss, es, n - 1);
      match e
      case KeyArrives(p, key) =>
        ArrivalIsSound(s.creations, p, key);
        forall c | c in Ready(ServedAll(s.creations, p, key)) ensures c.waiting == [] {
          ReadyIff(ServedAll(s.creations, p, key), c);
        }
      case CreateGroup(name, members, aes) =>
        if Accepts(s, members) { NewIsSound(s, name, members, aes); }
      case _ =>
    }
  }

  /**
   * While keys can be used: the members of a pending creation are split exactly between those
   * waited for and those whose key is wrapped, and a CREATE_GROUP packet carries, for every
   * member, the group key wrapped for them.
   */
  lemma PacketCarriesEveryKey(ss: seq<State>, es: seq<Event>, n: nat, c: Creation)
    requires History(ss, es) && n <= |es| && KeysUsable(es) && Plain(c)
    ensures c in ss[n].creations ==> forall m :: m in c.members ==> (m in c.waiting <==> m !in c.collected)
    ensures c in ss[n].created ==>
              forall m :: m in c.members ==> m in c.collected && c.collected[m].aes == c.aes
  {
    HistoryIsSound(ss, es, n);
    if c in ss[n].creations { assert Sound(c); }
    if c in ss[n].created { assert Sound(c); }
  }

  // ---------------------------------------------------------------------------
  // What was asked for is what goes out
  // ---------------------------------------------------------------------------

  /** Name, members, group key and creator are those of the call. */
  predicate AsAsked(s: State, e: Event, c: Creation)
  {
    e.CreateGroup? && c.name == e.name && c.members == e.members && c.aes == e.aes && c.creator == s.me
  }

  /** m's key as the client knew it at event i, or as it arrived before state n. */
  ghost predicate KeyOf(ss: seq<State>, es: seq<Event>, i: nat, n: nat, m: Peer, key: PubKey)
    requires i < n <= |es| < |ss|
  {
    || (m == ss[i].me && ss[i].own == Some(key))
    || (m in ss[i].keys && ss[i].keys[m] == key)
    || exists j :: i < j < n && es[j] == KeyArrives(m, key)
  }

  ghost predicate OwnKeys(ss: seq<State>, es: seq<Event>, i: nat, n: nat, c: Creation)
    requires i < n <= |es| < |ss|
  {
    forall m :: m in c.collected ==>
      && c.collected[m].aes == c.aes && c.collected[m].key.usable
      && KeyOf(ss, es, i, n, m, c.collected[m].key)
  }

  /** Every creation of that number, pending or sent, is the one asked for, each key wrapped for its owner. */
  ghost predicate Genuine(ss: seq<State>, es: seq<Event>, i: nat, n: nat, id: nat)
    requires i < n <= |es| < |ss|
  {
    forall c :: (c in ss[n].creations || c in ss[n].created) && c.id == id ==>
      AsAsked(ss[i], es[i], c) && OwnKeys(ss, es, i, n, c)
  }

  lemma OwnKeysLater(ss: seq<State>, es: seq<Event>, i: nat, n: nat, c: Creation)
    requires i < n < |es| < |ss| && OwnKeys(ss, es, i, n, c)
    ensures OwnKeys(ss, es, i, n + 1, c)
  {
    forall m | m in c.collected ensures KeyOf(ss, es, i, n + 1, m, c.collected[m].key) {
      assert KeyOf(ss, es, i, n, m, c.collected[m].key);
    }
  }

  lemma ServedIsGenuine(ss: seq<State>, es: seq<Event>, i: nat, n: nat, b: Creation)
    requires i < n < |es| < |ss| && es[n].KeyArrives? && AsAsked(ss[i], es[i], b) && OwnKeys(ss, es, i, n, b)
    ensures var c := Served(b, es[n].peer, es[n].key); AsAsked(ss[i], es[i], c) && OwnKeys(ss, es, i, n + 1, c)
  {
    OwnKeysLater(ss, es, i, n, b);
    assert es[n] == KeyArrives(es[n].peer, es[n].key);
    assert KeyOf(ss, es, i, n + 1, es[n].peer, es[n].key);
  }

  lemma GenuineArrival(ss: seq<State>, es: seq<Event>, i: nat, n: nat, id: nat)
    requires History(ss, es) && i < n < |es| && es[n].KeyArrives? && Genuine(ss, es, i, n, id)
    ensures Genuine(ss, es, i, n + 1, id)
  {
    assert Follows(ss, es, n);
    var p, key := es[n].peer, es[n].key;
    var cs := ServedAll(ss[n].creations, p, key);
    forall c | (c in ss[n + 1].creations || c in ss[n + 1].created) && c.id == id
      ensures AsAsked(ss[i], es[i], c) && OwnKeys(ss, es, i, n + 1, c)
    {
      if c in ss[n].created {
        OwnKeysLater(ss, es, i, n, c);
      } else {
        ReadyIff(cs, c);
        var b := ServedFrom(ss[n].creations, p, key, c);
        ServedIsGenuine(ss, es, i, n, b);
      }
    }
  }

  lemma GenuineOther(ss: seq<State>, es: seq<Event>, i: nat, n: nat, id: nat)
    requires History(ss, es) && i < n < |es| && !es[n].KeyArrives? && Genuine(ss, es, i, n, id) && id < ss[n].nextId
    ensures Genuine(ss, es, i, n + 1, id)
  {
    assert Follows(ss, es, n);
    forall c | (c in ss[n + 1].creations || c in ss[n + 1].created) && c.id == id
      ensures AsAsked(ss[i], es[i], c) && OwnKeys(ss, es, i, n + 1, c)
    {
      assert c in ss[n].creations || c in ss[n].created;
      OwnKeysLater(ss, es, i, n, c);
    }
  }

  lemma NewIsGenuine(ss: seq<State>, es: seq<Event>, i: nat, id: nat)
    requires History(ss, es) && Starts(ss, es, i, id)
    ensures Genuine(ss, es, i, i + 1, id)
  {
    assert Follows(ss, es, i);
    var s, e := ss[i], es[i];
    var new_ := NewCreation(s, e.name, e.members, e.aes);
    PendingOrSentOnce(ss, es, i, id);
    forall c | (c in ss[i + 1].creations || c in ss[i + 1].created) && c.id == id ensures c == new_ {
      if k :| 0 <= k < |s.creations| && s.creations[k] == c { TimesIn(s.creations, id, k); }
      if k :| 0 <= k < |s.created| && s.created[k] == c { TimesIn(s.created, id, k); }
    }
    forall m | m in new_.collected
      ensures new_.collected[m].aes == e.aes && new_.collected[m].key.usable
      ensures KeyOf(ss, es, i, i + 1, m, new_.collected[m].key)
    {
      KnownIff(s.keys, e.members, e.aes, m);
    }
  }

  /**
   * A creation, pending or sent, has the name, members and group key of the call, and every key in
   * it is the group key wrapped with that very member's public key, and with no unusable one.
   */
  lemma {:induction false} CreationIsGenuine(ss: seq<State>, es: seq<Event>, i: nat, n: nat, id: nat)
    requires History(ss, es) && Starts(ss, es, i, id) && i < n <= |es|
    ensures Genuine(ss, es, i, n, id) && id < ss[n].nextId
  {
    HistoryIsFaithful(ss, es, i, n, id);
    if n == i + 1 {
      NewIsGenuine(ss, es, i, id);
    } else {
      CreationIsGenuine(ss, es, i, n - 1, id);
      if es[n - 1].KeyArrives? { GenuineArrival(ss, es, i, n - 1, id); } else { GenuineOther(ss, es, i, n - 1, id); }
    }
  }

  // ---------------------------------------------------------------------------
  // A member listed twice
  // ---------------------------------------------------------------------------

  lemma ArrivalAtOne(s: State, c: Creation, b: Peer, key: PubKey)
    requires s.creations == [c]
    ensures var n, d := Next(s, KeyArrives(b, key)), Served(c, b, key);
            && b in n.keys && n.created == s.created + (if d.waiting == [] then [d] else [])
            && n.creations == if d.waiting == [] then [] else [d]
  {
    var cs := ServedAll(s.creations, b, key);
    var d := Served(c, b, key);
    assert cs == [d] && cs[..0] == [] && Ready([]) == [] && Unready([]) == [];
    assert Ready(cs) == if d.waiting == [] then [d] else [];
    assert Unready(cs) == if d.waiting == [] then [] else [d];
  }

  lemma ListedTwice(keys: map<Peer, PubKey>, b: Peer)
    requires b !in keys
    ensures Missing(keys, [b, b]) == [b, b] && RemoveOne([b, b], b) == [b] && RemoveOne([b], b) == []
  {
    assert [b, b][..1] == [b] && [b][..0] == [];
    assert Missing(keys, [b]) == Missing(keys, []) + [b];
  }

  /** One creation that lists b twice, and two replies of b. */
  lemma TwoReplies(s: State, name: string, b: Peer, aes: nat, key: PubKey)
    requires s.creations == [] && s.created == [] && s.keys == map[] && (s.own.Some? ==> s.own.value.usable)
    ensures var s1 := Next(s, CreateGroup(name, [b, b], aes));
            var s2 := Next(s1, KeyArrives(b, key));
            var s3 := Next(s2, KeyArrives(b, key));
            && b in s2.keys && s2.created == [] && |s2.creations| == 1
            && |s3.created| == 1 && s3.creations == []
  {
    ListedTwice(s.keys, b);
    var c := NewCreation(s, name, [b, b], aes);
    var s1 := Next(s, CreateGroup(name, [b, b], aes));
    assert s1.creations == [c] && s1.created == [];
    ArrivalAtOne(s1, c, b, key);
    ArrivalAtOne(Next(s1, KeyArrives(b, key)), Served(c, b, key), b, key);
  }

  lemma Extend(ss: seq<State>, es: seq<Event>, e: Event) returns (tt: seq<State>, fs: seq<Event>)
    requires History(ss, es)
    ensures History(tt, fs) && fs == es + [e] && tt == ss + [Next(ss[|es|], e)]
  {
    tt, fs := ss + [Next(ss[|es|], e)], es + [e];
    forall i | 0 <= i < |fs| ensures Follows(tt, fs, i) {
      if i < |es| { assert Follows(ss, es, i); }
    }
  }

  /** With a member listed twice the packet does not go out when their key arrives, but at the next reply. */
  lemma ListedTwiceWaitsTwice(me: Peer, own: PubKey, name: string, b: Peer, aes: nat, key: PubKey)
    returns (ss: seq<State>, es: seq<Event>)
    requires own.usable
    ensures History(ss, es) && |es| == 4 && es[1] == CreateGroup(name, [b, b], aes)
    ensures b in ss[3].keys && ss[3].created == [] && |ss[3].creations| == 1
    ensures |ss[4].created| == 1 && ss[4].creations == []
  {
    ss, es := Extend([START], [], LoggedIn(me, Some(own)));
    var s := ss[1];
    TwoReplies(s, name, b, aes, key);
    ss, es := Extend(ss, es, CreateGroup(name, [b, b], aes));
    ss, es := Extend(ss, es, KeyArrives(b, key));
    ss, es := Extend(ss, es, KeyArrives(b, key));
  }
}
