/** The packet handlers as they run, branch by branch, with the buffer for groups whose key is missing. */
module Inbox {
  import opened Wrappers
  import opened Timestamps
  import opened Dedup
  import opened Ingest

  // ---------------------------------------------------------------------------
  // Packets that wait for a group key
  // ---------------------------------------------------------------------------

  /** The cache, the groups whose key is known, and the packets of the others in order of arrival. */
  datatype Box = Box(c: Client, keys: set<string>, waiting: map<string, seq<Arrival>>)

  const EMPTY := Box(Client(map[], []), {}, map[])

  datatype Event = Packet(a: Arrival) | GroupKey(group: string)

  function WaitingFor(b: Box, g: string): seq<Arrival> { if g in b.waiting then b.waiting[g] else [] }

  function ItemsOf(store: Arrival -> Item, xs: seq<Arrival>): seq<Item>
  {
    seq(|xs|, i requires 0 <= i < |xs| => store(xs[i]))
  }

  predicate Waits(b: Box, a: Arrival) { a.Posted? && a.group !in b.keys }

  /** store is what a packet asks to store: ItemOf for this user. */
  function Next(b: Box, store: Arrival -> Item, e: Event): Box
  {
    match e
    case Packet(a) =>
      if Waits(b, a) then b.(waiting := b.waiting[a.group := WaitingFor(b, a.group) + [a]])
      else b.(c := Take(b.c, store(a)))
    case GroupKey(g) =>
      Box(TakeAll(b.c, ItemsOf(store, WaitingFor(b, g))), b.keys + {g}, b.waiting - {g})
  }

  ghost predicate Follows(bs: seq<Box>, store: Arrival -> Item, es: seq<Event>, i: int)
    requires 0 <= i < |es| < |bs|
  {
    bs[i + 1] == Next(bs[i], store, es[i])
  }

  ghost predicate History(bs: seq<Box>, store: Arrival -> Item, es: seq<Event>)
  {
    && |bs| == |es| + 1 && bs[0] == EMPTY
    && forall i {:trigger Follows(bs, store, es, i)} :: 0 <= i < |es| ==> Follows(bs, store, es, i)
  }

  /** Without the group's key a packet only waits, after those that came before it. */
  lemma KeylessWaits(b: Box, store: Arrival -> Item, a: Arrival)
    requires a.Posted? && a.group !in b.keys
    ensures Next(b, store, Packet(a)).c == b.c && Next(b, store, Packet(a)).keys == b.keys
    ensures WaitingFor(Next(b, store, Packet(a)), a.group) == WaitingFor(b, a.group) + [a]
  {
  }

  /** An item is in the cache, or never will be because it has no key. */
  predicate Settled(c: Client, x: Item) { x.key.Some? ==> x.key.value in c.store }

  /** A packet that arrived is settled, or waits for its group's key. */
  ghost predicate Accounted(b: Box, a: Arrival, x: Item)
  {
    Settled(b.c, x) || (Waits(b, a) && a in WaitingFor(b, a.group))
  }

  /** Only packets of a group without key wait, each under its group. */
  ghost predicate FiledRight(b: Box)
  {
    && (forall g :: g in b.waiting ==> g !in b.keys)
    && forall g :: g in b.waiting ==>
         forall i :: 0 <= i < |b.waiting[g]| ==> b.waiting[g][i].Posted? && b.waiting[g][i].group == g
  }

  lemma NextFilesRight(b: Box, store: Arrival -> Item, e: Event)
    requires FiledRight(b)
    ensures FiledRight(Next(b, store, e))
  {
  }

  lemma TakenIsSettled(c: Client, xs: seq<Item>, x: Item)
    requires x in xs || Settled(c, x)
    ensures Settled(TakeAll(c, xs), x)
  {
    if x.key.Some? {
      OneRowOneSignal(c, xs, x.key.value);
      if x in xs {
        var i :| 0 <= i < |xs| && xs[i] == x;
        assert Carries(xs, x.key.value);
      }
    }
  }

  lemma OneTaken(c: Client, y: Item, x: Item)
    requires x == y || Settled(c, x)
    ensures Settled(Take(c, y), x)
  {
  }

  /** Later events do not lose a packet. */
  lemma StaysAccounted(b: Box, store: Arrival -> Item, e: Event, a: Arrival, x: Item)
    requires FiledRight(b) && Accounted(b, a, x) && x == store(a)
    ensures Accounted(Next(b, store, e), a, x)
  {
    match e
    case Packet(y) =>
      if !Waits(b, y) && Settled(b.c, x) { OneTaken(b.c, store(y), x); }
    case GroupKey(g) =>
      var xs := ItemsOf(store, WaitingFor(b, g));
      if Settled(b.c, x) {
        TakenIsSettled(b.c, xs, x);
      } else if a.group == g {
        var i :| 0 <= i < |WaitingFor(b, g)| && WaitingFor(b, g)[i] == a;
        assert xs[i] == x;
        TakenIsSettled(b.c, xs, x);
      }
  }

  lemma NewIsAccounted(b: Box, store: Arrival -> Item, a: Arrival)
    ensures Accounted(Next(b, store, Packet(a)), a, store(a))
  {
    if !Waits(b, a) { OneTaken(b.c, store(a), store(a)); }
  }

  lemma {:induction false} HistoryFilesRight(bs: seq<Box>, store: Arrival -> Item, es: seq<Event>, n: nat)
    requires History(bs, store, es) && n <= |es|
    ensures FiledRight(bs[n])
  {
    if n > 0 {
      HistoryFilesRight(bs, store, es, n - 1);
      assert Follows(bs, store, es, n - 1);
      NextFilesRight(bs[n - 1], store, es[n - 1]);
    }
  }

  /**
   * In every run of packets and group keys, each packet that has arrived is in the cache (if it has
   * a key at all) or waits for the key of its group; so once that key has come nothing is missing.
   */
  lemma {:induction false} BufferLosesNothing(bs: seq<Box>, store: Arrival -> Item, es: seq<Event>, i: nat, n: nat)
    requires History(bs, store, es) && i < n <= |es| && es[i].Packet?
    ensures Accounted(bs[n], es[i].a, store(es[i].a))
    ensures es[i].a.Posted? && es[i].a.group in bs[n].keys ==> Settled(bs[n].c, store(es[i].a))
  {
    assert Follows(bs, store, es, n - 1);
    if n == i + 1 {
      NewIsAccounted(bs[i], store, es[i].a);
    } else {
      BufferLosesNothing(bs, store, es, i, n - 1);
      HistoryFilesRight(bs, store, es, n - 1);
      StaysAccounted(bs[n - 1], store, es[n - 1], es[i].a, store(es[i].a));
    }
  }

  // ---------------------------------------------------------------------------
  // The handlers
  // ---------------------------------------------------------------------------

  /** The cache after the first i of these packets. */
  ghost function SoFar(c: Client, store: Arrival -> Item, xs: seq<Arrival>, i: nat): Client
    requires i <= |xs|
  {
    TakeAll(c, ItemsOf(store, xs[..i]))
  }

  lemma SoFarStep(c: Client, store: Arrival -> Item, xs: seq<Arrival>, i: nat)
    requires i < |xs|
    ensures SoFar(c, store, xs, i + 1) == Take(SoFar(c, store, xs, i), store(xs[i]))
  {
    var all := ItemsOf(store, xs[..i + 1]);
    assert all[..i] == ItemsOf(store, xs[..i]) && all[i] == store(xs[i]);
  }

  lemma SoFarEnds(c: Client, store: Arrival -> Item, xs: seq<Arrival>)
    ensures SoFar(c, store, xs, 0) == c && SoFar(c, store, xs, |xs|) == TakeAll(c, ItemsOf(store, xs))
  {
    assert ItemsOf(store, xs[..0]) == [] && xs[..|xs|] == xs;
  }

  function StoreFor(me: string): Arrival -> Item { a => ItemOf(me, a) }

  class LocalCache {
    const me: string
    var hasKey: bool
    var rows: map<Key, Row>
    var shown: seq<Key>
    var keys: set<string>
    var waiting: map<string, seq<Arrival>>

    constructor (user: string)
      ensures me == user && !hasKey && Contents() == EMPTY && FiledRight(Contents())
    {
      me, hasKey, rows, shown, keys, waiting := user, false, map[], [], {}, map[];
    }

    ghost function Cached(): Client
      reads this
    {
      Client(rows, shown)
    }

    ghost function Contents(): Box
      reads this
    {
      Box(Cached(), keys, waiting)
    }

    /** INSERT OR IGNORE under the unique index, and the display signal of a new row. */
    method Insert(k: Key, r: Row)
      modifies this`rows, this`shown
      ensures Cached() == Take(old(Cached()), Item(Some(k), r))
    {
      if k !in rows {
        rows, shown := rows[k := r], shown + [k];
      }
    }

    method HandleIncomingMessage(from: string, to: string, stamp: string, echo: bool, clear: Option<string>)
      modifies this`rows, this`shown
      ensures Cached() == Take(old(Cached()), ItemOf(me, Direct(from, to, stamp, echo, hasKey, clear)))
      ensures var k := if echo then OfPeer(to, me, Canonical(stamp)) else OfPeer(from, from, Canonical(stamp));
              var text := if hasKey && clear.Some? then clear.value else if echo then "[Sent]" else "[Encrypted]";
              if (if echo then to == me else from == me || !hasKey) || k in old(rows)
              then rows == old(rows) && shown == old(shown)
              else rows == old(rows)[k := Row(text, echo)] && shown == old(shown) + [k]
    {
      var ts := Canonical(stamp);
      DirectKey(me, Direct(from, to, stamp, echo, hasKey, clear), ts);
      if echo {
        if to == me { return; }
        if !hasKey || clear.None? {
          Insert(OfPeer(to, me, ts), Row("[Sent]", true));
        } else {
          Insert(OfPeer(to, me, ts), Row(clear.value, true));
        }
        return;
      }
      if !hasKey || from == me { return; }
      match clear {
        case Some(text) => Insert(OfPeer(from, from, ts), Row(text, false));
        case None => Insert(OfPeer(from, from, ts), Row("[Encrypted]", false));
      }
    }

    /** acked: a delivered receipt went out; it does for every copy of somebody else's message. */
    method DecryptAndStore(group: string, from: string, stamp: string, clear: Option<string>) returns (acked: bool)
      modifies this`rows, this`shown
      ensures Cached() == Take(old(Cached()), ItemOf(me, Posted(group, from, stamp, clear)))
      ensures acked <==> from != me
      ensures var k := OfGroup(group, from, Canonical(stamp));
              if clear.None? || k in old(rows) then rows == old(rows) && shown == old(shown)
              else rows == old(rows)[k := Row(clear.value, from == me)] && shown == old(shown) + [k]
    {
      var ts := Canonical(stamp);
      PostedKey(me, Posted(group, from, stamp, clear), ts);
      acked := from != me;
      if clear.None? { return; }
      Insert(OfGroup(group, from, ts), Row(clear.value, from == me));
    }

    /** Without the group's key the packet is kept for later. */
    method HandleGroupMessage(group: string, from: string, stamp: string, clear: Option<string>)
      returns (acked: bool)
      modifies this`rows, this`shown, this`waiting
      ensures Contents() == Next(old(Contents()), StoreFor(me), Packet(Posted(group, from, stamp, clear)))
      ensures acked <==> group in keys && from != me
    {
      if group in keys {
        acked := DecryptAndStore(group, from, stamp, clear);
      } else {
        acked := false;
        var before := if group in waiting then waiting[group] else [];
        waiting := waiting[group := before + [Posted(group, from, stamp, clear)]];
      }
    }

    method HandlePosted(a: Arrival)
      requires a.Posted?
      modifies this`rows, this`shown
      ensures Cached() == Take(old(Cached()), StoreFor(me)(a))
    {
      var _ := DecryptAndStore(a.group, a.from, a.stamp, a.clear);
      assert a == Posted(a.group, a.from, a.stamp, a.clear);
    }

    /** Handles packets of a group in order of arrival. */
    method Drain(taken: seq<Arrival>)
      requires forall i :: 0 <= i < |taken| ==> taken[i].Posted?
      modifies this`rows, this`shown
      ensures Cached() == TakeAll(old(Cached()), ItemsOf(StoreFor(me), taken))
    {
      ghost var c := Cached();
      SoFarEnds(c, StoreFor(me), taken);
      for i := 0 to |taken|
        invariant Cached() == SoFar(c, StoreFor(me), taken, i)
      {
        SoFarStep(c, StoreFor(me), taken, i);
        HandlePosted(taken[i]);
      }
    }

    /** The group's key has come: the packets that waited for it are handled. */
    method HandleGroupKey(group: string)
      requires FiledRight(Contents())
      modifies this`rows, this`shown, this`waiting, this`keys
      ensures Contents() == Next(old(Contents()), StoreFor(me), GroupKey(group))
    {
      var taken := if group in waiting then waiting[group] else [];
      keys, waiting := keys + {group}, waiting - {group};
      Drain(taken);
    }
  }
}
