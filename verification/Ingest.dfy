/**
 * A local cache with a unique index: one row per key, one display signal per row, whatever is
 * put in, in whatever order and however often.
 */
module Dedup {
  import opened Wrappers

  /** The two unique indexes: messages(peer, sender, ts) and group_messages(group, sender, ts). */
  datatype Key = OfPeer(peer: string, sender: string, ts: string)
               | OfGroup(group: string, sender: string, ts: string)

  datatype Row = Row(content: string, outgoing: bool)

  /** What a packet asks to store; without a key it is dropped. */
  datatype Item = Item(key: Option<Key>, row: Row)

  datatype Client = Client(store: map<Key, Row>, shown: seq<Key>)

  function Take(c: Client, x: Item): Client
  {
    if x.key.None? || x.key.value in c.store then c
    else Client(c.store[x.key.value := x.row], c.shown + [x.key.value])
  }

  function TakeAll(c: Client, xs: seq<Item>): Client
  {
    if xs == [] then c else Take(TakeAll(c, xs[..|xs| - 1]), xs[|xs| - 1])
  }

  predicate Carries(xs: seq<Item>, k: Key)
  {
    exists i :: 0 <= i < |xs| && xs[i].key == Some(k)
  }

  lemma CarriesConcat(xs: seq<Item>, ys: seq<Item>, k: Key)
    ensures Carries(xs + ys, k) <==> Carries(xs, k) || Carries(ys, k)
  {
    if Carries(xs, k) {
      var i :| 0 <= i < |xs| && xs[i].key == Some(k);
      assert (xs + ys)[i].key == Some(k);
    }
    if Carries(ys, k) {
      var i :| 0 <= i < |ys| && ys[i].key == Some(k);
      assert (xs + ys)[|xs| + i].key == Some(k);
    }
  }

  /**
   * The keys stored are the old ones and those carried; each new one is shown exactly once, an
   * old one not again, and an old row never changes.
   */
  lemma {:induction false} OneRowOneSignal(c: Client, xs: seq<Item>, k: Key)
    ensures k in TakeAll(c, xs).store <==> k in c.store || Carries(xs, k)
    ensures multiset(TakeAll(c, xs).shown)[k]
            == multiset(c.shown)[k] + if k !in c.store && Carries(xs, k) then 1 else 0
    ensures k in c.store ==> TakeAll(c, xs).store[k] == c.store[k]
  {
    if xs != [] {
      var n := |xs| - 1;
      OneRowOneSignal(c, xs[..n], k);
      CarriesConcat(xs[..n], [xs[n]], k);
      assert xs[..n] + [xs[n]] == xs;
      assert Carries([xs[n]], k) <==> xs[n].key == Some(k) by {
        assert [xs[n]][0] == xs[n];
      }
    }
  }

  /** Signals fire in the order of arrival, after those that fired before. */
  lemma {:induction false} SignalsInOrder(c: Client, xs: seq<Item>)
    ensures |c.shown| <= |TakeAll(c, xs).shown| && TakeAll(c, xs).shown[..|c.shown|] == c.shown
    ensures forall y: Item :: y.key.Some? && !(y.key.value in TakeAll(c, xs).store) ==>
              TakeAll(c, xs + [y]).shown == TakeAll(c, xs).shown + [y.key.value]
  {
    if xs != [] { SignalsInOrder(c, xs[..|xs| - 1]); }
    forall y: Item ensures TakeAll(c, xs + [y]) == Take(TakeAll(c, xs), y) {
      assert (xs + [y])[..|xs|] == xs;
    }
  }

  /** Items with one key have one content: they are copies of one message. */
  ghost predicate Copies(xs: seq<Item>, ys: seq<Item>)
  {
    forall i, j :: 0 <= i < |xs| && 0 <= j < |ys| && xs[i].key == ys[j].key ==> xs[i].row == ys[j].row
  }

  /** A new row holds the content of some item that carried it. */
  lemma {:induction false} RowIsCarried(c: Client, xs: seq<Item>, k: Key) returns (i: nat)
    requires k !in c.store && k in TakeAll(c, xs).store
    ensures i < |xs| && xs[i].key == Some(k) && TakeAll(c, xs).store[k] == xs[i].row
  {
    assert xs != [];
    if k in TakeAll(c, xs[..|xs| - 1]).store {
      i := RowIsCarried(c, xs[..|xs| - 1], k);
    } else {
      i := |xs| - 1;
    }
  }

  /**
   * Two delivery sequences that carry copies of the same messages, in any order and with any
   * repeats, leave the same rows and the same signals.
   */
  lemma OrderAndRepeatsDoNotMatter(c: Client, xs: seq<Item>, ys: seq<Item>)
    requires forall k :: Carries(xs, k) <==> Carries(ys, k)
    requires Copies(xs, ys)
    ensures TakeAll(c, xs).store == TakeAll(c, ys).store
    ensures multiset(TakeAll(c, xs).shown) == multiset(TakeAll(c, ys).shown)
  {
    var a, b := TakeAll(c, xs), TakeAll(c, ys);
    forall k ensures (k in a.store <==> k in b.store) && multiset(a.shown)[k] == multiset(b.shown)[k]
                     && (k in a.store ==> a.store[k] == b.store[k])
    {
      OneRowOneSignal(c, xs, k);
      OneRowOneSignal(c, ys, k);
      if k !in c.store && k in a.store {
        var i := RowIsCarried(c, xs, k);
        var j := RowIsCarried(c, ys, k);
      }
    }
  }

  /** Messages of one key say the same. */
  ghost predicate OneText<P>(keyOf: P -> Option<Key>, rowFor: P -> Row, ms: seq<P>)
  {
    forall i, j ::
      0 <= i < |ms| && 0 <= j < |ms| && keyOf(ms[i]).Some? && keyOf(ms[i]) == keyOf(ms[j])
      ==> rowFor(ms[i]) == rowFor(ms[j])
  }

  /** A key that was new gets the row its messages call for. */
  lemma CarriedRow<P>(c: Client, xs: seq<Item>, keyOf: P -> Option<Key>, rowFor: P -> Row, ms: seq<P>, i: nat)
    requires |xs| == |ms| && i < |xs| && keyOf(ms[i]).Some? && OneText(keyOf, rowFor, ms)
    requires forall h :: 0 <= h < |xs| ==>
               xs[h].key == keyOf(ms[h]) && (xs[h].key.Some? ==> xs[h].row == rowFor(ms[h]))
    ensures var k, t := keyOf(ms[i]).value, TakeAll(c, xs);
            && k in t.store && (k in c.store ==> t.store[k] == c.store[k])
            && (k !in c.store ==> t.store[k] == rowFor(ms[i]))
  {
    var k := keyOf(ms[i]).value;
    assert xs[i].key == Some(k);
    OneRowOneSignal(c, xs, k);
    if k !in c.store {
      var j := RowIsCarried(c, xs, k);
      assert keyOf(ms[j]) == keyOf(ms[i]);
    }
  }

  function Items<P>(store: P -> Item, ms: seq<P>): seq<Item>
  {
    seq(|ms|, i requires 0 <= i < |ms| => store(ms[i]))
  }

  /** Messages that fall to one key have one content. */
  ghost predicate Unambiguous<P>(store: P -> Item, ms: seq<P>)
  {
    forall i, j :: 0 <= i < |ms| && 0 <= j < |ms| && store(ms[i]).key == store(ms[j]).key
                   ==> store(ms[i]).row == store(ms[j]).row
  }

  lemma CarriesIff<P>(store: P -> Item, ms: seq<P>, k: Key)
    ensures Carries(Items(store, ms), k) <==> exists m :: m in ms && store(m).key == Some(k)
  {
    if m :| m in ms && store(m).key == Some(k) {
      var i :| 0 <= i < |ms| && ms[i] == m;
      assert Items(store, ms)[i].key == Some(k);
    }
  }

  /** Two sequences of the same messages, in any order and with any repeats, leave the same cache. */
  lemma SameMessagesSameCache<P>(c: Client, store: P -> Item, ms: seq<P>, ns: seq<P>)
    requires forall m :: m in ms <==> m in ns
    requires Unambiguous(store, ms)
    ensures TakeAll(c, Items(store, ms)).store == TakeAll(c, Items(store, ns)).store
    ensures multiset(TakeAll(c, Items(store, ms)).shown) == multiset(TakeAll(c, Items(store, ns)).shown)
  {
    var xs, ys := Items(store, ms), Items(store, ns);
    forall k ensures Carries(xs, k) <==> Carries(ys, k) {
      CarriesIff(store, ms, k);
      CarriesIff(store, ns, k);
    }
    forall i, j | 0 <= i < |xs| && 0 <= j < |ys| && xs[i].key == ys[j].key ensures xs[i].row == ys[j].row {
      assert ns[j] in ms;
      var h :| 0 <= h < |ms| && ms[h] == ns[j];
      assert store(ms[i]).key == store(ms[h]).key;
    }
    OrderAndRepeatsDoNotMatter(c, xs, ys);
  }
}

/**
 * How a client takes in MESSAGE and GROUP_MESSAGE packets, whatever path they come by: one row
 * per (peer, sender, canonical timestamp), one display signal per row.
 */
module Ingest {
  import opened Wrappers
  import opened Timestamps
  import opened Dedup

  /**
   * A packet with the client's keys applied: keyed says that the private key is loaded, clear is
   * None where decryption throws, stamp is the packet's timestamp, or the current time when the
   * packet has none.
   */
  datatype Arrival =
    | Direct(from: string, to: string, stamp: string, echo: bool, keyed: bool, clear: Option<string>)
    | Posted(group: string, from: string, stamp: string, clear: Option<string>)

  /** Self-messages, undecryptable group messages and incoming messages without a key are dropped. */
  function KeyOf(me: string, a: Arrival): Option<Key>
  {
    match a
    case Direct(from, to, stamp, echo, keyed, _) =>
      if echo then (if to == me then None else Some(OfPeer(to, me, Canonical(stamp))))
      else if !keyed || from == me then None
      else Some(OfPeer(from, from, Canonical(stamp)))
    case Posted(group, from, stamp, clear) =>
      if clear.None? then None else Some(OfGroup(group, from, Canonical(stamp)))
  }

  function RowOf(me: string, a: Arrival): Row
  {
    match a
    case Direct(_, _, _, echo, keyed, clear) =>
      Row(if keyed && clear.Some? then clear.value else if echo then "[Sent]" else "[Encrypted]", echo)
    case Posted(_, from, _, clear) => Row(match clear case Some(text) => text case None => "", from == me)
  }

  function ItemOf(me: string, a: Arrival): Item { Item(KeyOf(me, a), RowOf(me, a)) }

  // ---------------------------------------------------------------------------
  // The paths a message can take
  // ---------------------------------------------------------------------------

  /** Instants of the years 0001 to 9999, to the millisecond. */
  type Moment = s: Stamp | Valid(s) && s.date.y > 0 witness Stamp(Date(1, 1, 1), 0)

  /** A message on the server, and what this client's keys make of it. */
  datatype Posting =
    | Letter(sender: string, recipient: string, at: Moment, clear: Option<string>)
    | Note(group: string, sender: string, at: Moment, clear: Option<string>)

  /** Forwarded as it is sent, with the sender's own timestamp; to the sender's siblings as an echo. */
  function Live(me: string, m: Posting): Arrival
  {
    match m
    case Letter(sender, recipient, at, clear) => Direct(sender, recipient, Iso(at), sender == me, true, clear)
    case Note(group, sender, at, clear) => Posted(group, sender, Iso(at), clear)
  }

  /** From the offline queue at login, with the database's text of created_at. */
  function Flushed(me: string, m: Posting): Arrival
    requires m.Letter?
  {
    Direct(m.sender, me, Pg(m.at), false, true, m.clear)
  }

  /** From SYNC_HISTORY. */
  function Replayed(me: string, m: Posting): Arrival
  {
    match m
    case Letter(sender, recipient, at, clear) => Direct(sender, recipient, Pg(at), sender == me, true, clear)
    case Note(group, sender, at, clear) => Posted(group, sender, Iso(at), clear)
  }

  /** The row a message is kept under. */
  function KeyOfPosting(me: string, m: Posting): Option<Key>
  {
    match m
    case Letter(sender, recipient, at, _) =>
      if sender == me && recipient == me then None
      else if sender == me then Some(OfPeer(recipient, me, Iso(at)))
      else Some(OfPeer(sender, sender, Iso(at)))
    case Note(group, sender, at, clear) =>
      if clear.None? then None else Some(OfGroup(group, sender, Iso(at)))
  }

  lemma DirectKey(me: string, a: Arrival, ts: string)
    requires a.Direct? && Canonical(a.stamp) == ts
    ensures KeyOf(me, a) == if a.echo then (if a.to == me then None else Some(OfPeer(a.to, me, ts)))
                            else if !a.keyed || a.from == me then None
                            else Some(OfPeer(a.from, a.from, ts))
  {
  }

  lemma PostedKey(me: string, a: Arrival, ts: string)
    requires a.Posted? && Canonical(a.stamp) == ts
    ensures KeyOf(me, a) == if a.clear.None? then None else Some(OfGroup(a.group, a.from, ts))
  {
  }

  lemma LivePath(me: string, m: Posting)
    ensures ItemOf(me, Live(me, m)) == Item(KeyOfPosting(me, m), RowOf(me, Live(me, m)))
  {
    ReplayMatchesLive(m.at);
    if m.Letter? { DirectKey(me, Live(me, m), Iso(m.at)); } else { PostedKey(me, Live(me, m), Iso(m.at)); }
  }

  lemma ReplayPath(me: string, m: Posting)
    ensures ItemOf(me, Replayed(me, m)) == Item(KeyOfPosting(me, m), RowOf(me, Live(me, m)))
  {
    ReplayMatchesLive(m.at);
    if m.Letter? { DirectKey(me, Replayed(me, m), Iso(m.at)); } else { PostedKey(me, Replayed(me, m), Iso(m.at)); }
  }

  lemma FlushPath(me: string, m: Posting)
    requires m.Letter? && m.recipient == me && m.sender != me
    ensures ItemOf(me, Flushed(me, m)) == Item(KeyOfPosting(me, m), RowOf(me, Live(me, m)))
  {
    ReplayMatchesLive(m.at);
    DirectKey(me, Flushed(me, m), Iso(m.at));
  }

  /** Live, flushed or replayed, a message comes to the same row with the same content. */
  lemma PathsAgree(me: string, m: Posting)
    ensures ItemOf(me, Live(me, m)) == ItemOf(me, Replayed(me, m)) == Item(KeyOfPosting(me, m), RowOf(me, Live(me, m)))
    ensures m.Letter? && m.recipient == me && m.sender != me ==> ItemOf(me, Flushed(me, m)) == ItemOf(me, Live(me, m))
  {
    LivePath(me, m);
    ReplayPath(me, m);
    if m.Letter? && m.recipient == me && m.sender != me { FlushPath(me, m); }
  }

  datatype Path = ByForward | ByFlush | BySync

  /** One copy of a message on its way to this client; only direct messages of others are queued. */
  datatype Delivery = Delivery(m: Posting, path: Path)

  predicate CanCome(me: string, d: Delivery)
  {
    d.path == ByFlush ==> d.m.Letter? && d.m.recipient == me && d.m.sender != me
  }

  function ArrivalOf(me: string, d: Delivery): Arrival
    requires CanCome(me, d)
  {
    match d.path
    case ByForward => Live(me, d.m)
    case ByFlush => Flushed(me, d.m)
    case BySync => Replayed(me, d.m)
  }

  function Stored(me: string, m: Posting): Item { ItemOf(me, Live(me, m)) }

  lemma DeliveredItem(me: string, d: Delivery)
    requires CanCome(me, d)
    ensures ItemOf(me, ArrivalOf(me, d)) == Stored(me, d.m)
  {
    PathsAgree(me, d.m);
  }

  ghost predicate AllCanCome(me: string, ds: seq<Delivery>) { forall i :: 0 <= i < |ds| ==> CanCome(me, ds[i]) }

  function Messages(ds: seq<Delivery>): seq<Posting>
  {
    seq(|ds|, i requires 0 <= i < |ds| => ds[i].m)
  }

  /** What the client makes of any deliveries, packet by packet. */
  ghost function Delivered(me: string, ds: seq<Delivery>): seq<Item>
    requires AllCanCome(me, ds)
  {
    seq(|ds|, i requires 0 <= i < |ds| => ItemOf(me, ArrivalOf(me, ds[i])))
  }

  lemma PathsDoNotMatter(me: string, ds: seq<Delivery>)
    requires AllCanCome(me, ds)
    ensures Delivered(me, ds) == Items((m: Posting) => Stored(me, m), Messages(ds))
  {
    var xs, ys := Delivered(me, ds), Items((m: Posting) => Stored(me, m), Messages(ds));
    forall i | 0 <= i < |ds| ensures xs[i] == ys[i] {
      DeliveredItem(me, ds[i]);
    }
  }

  /**
   * Any two sequences of live, login-flush and sync deliveries of the same messages, in any order
   * and with any repeats, leave the same rows and fire the same display signals.
   */
  lemma DeliveriesCommute(c: Client, me: string, ds: seq<Delivery>, fs: seq<Delivery>)
    requires AllCanCome(me, ds) && AllCanCome(me, fs)
    requires forall m :: m in Messages(ds) <==> m in Messages(fs)
    requires Unambiguous((m: Posting) => Stored(me, m), Messages(ds))
    ensures TakeAll(c, Delivered(me, ds)).store == TakeAll(c, Delivered(me, fs)).store
    ensures multiset(TakeAll(c, Delivered(me, ds)).shown) == multiset(TakeAll(c, Delivered(me, fs)).shown)
  {
    PathsDoNotMatter(me, ds);
    PathsDoNotMatter(me, fs);
    SameMessagesSameCache(c, (m: Posting) => Stored(me, m), Messages(ds), Messages(fs));
  }

  // ---------------------------------------------------------------------------
  // What a row says
  // ---------------------------------------------------------------------------

  /**
   * The row of a message: its text where the keys open it, otherwise the placeholder for something
   * sent or something encrypted; outgoing exactly when the user sent it.
   */
  function RowFor(me: string, m: Posting): Row
  {
    Row(if m.clear.Some? then m.clear.value else if m.sender == me then "[Sent]" else "[Encrypted]", m.sender == me)
  }

  lemma StoredIs(me: string, m: Posting)
    ensures Stored(me, m).key == KeyOfPosting(me, m)
    ensures KeyOfPosting(me, m).Some? ==> Stored(me, m).row == RowFor(me, m)
  {
    LivePath(me, m);
  }

  function KeyFor(me: string): Posting -> Option<Key> { (m: Posting) => KeyOfPosting(me, m) }

  function TextFor(me: string): Posting -> Row { (m: Posting) => RowFor(me, m) }

  lemma DeliveredIs(me: string, ds: seq<Delivery>, h: nat)
    requires AllCanCome(me, ds) && h < |ds|
    ensures var x, m := Delivered(me, ds)[h], Messages(ds)[h];
            x.key == KeyFor(me)(m) && (x.key.Some? ==> x.row == TextFor(me)(m))
  {
    DeliveredItem(me, ds[h]);
    StoredIs(me, ds[h].m);
  }

  /**
   * However messages come, as often as they come: afterwards the key of each is there, and if the
   * key is new its row holds the message's own text and direction.
   */
  lemma RowHoldsTheText(c: Client, me: string, ds: seq<Delivery>, i: nat)
    requires AllCanCome(me, ds) && i < |ds| && KeyFor(me)(Messages(ds)[i]).Some?
    requires OneText(KeyFor(me), TextFor(me), Messages(ds))
    ensures var k, t := KeyFor(me)(Messages(ds)[i]).value, TakeAll(c, Delivered(me, ds));
            && k in t.store && (k in c.store ==> t.store[k] == c.store[k])
            && (k !in c.store ==> t.store[k] == TextFor(me)(Messages(ds)[i]))
  {
    var xs, ms, keyOf, rowFor := Delivered(me, ds), Messages(ds), KeyFor(me), TextFor(me);
    forall h | 0 <= h < |xs| ensures xs[h].key == keyOf(ms[h]) && (xs[h].key.Some? ==> xs[h].row == rowFor(ms[h])) {
      DeliveredIs(me, ds, h);
    }
    CarriedRow(c, xs, keyOf, rowFor, ms, i);
  }
}
