/**
 * SYNC_HISTORY: the client names a cursor, the server replays the user's messages after it. When
 * the exchange is complete, and what follows for whole runs.
 */
module HistorySync {
  import opened Wrappers
  import opened Dedup
  import opened Runs

  /** A message on the server: what a replay stores, its instant, whether it concerns the user. */
  datatype Entry = Entry(item: Item, at: int, mine: bool, direct: bool)

  /** No cursor asks for the whole history. */
  type Cursor = Option<int>

  predicate Beyond(cur: Cursor, e: Entry) { cur.Some? ==> e.at > cur.value }

  predicate Sends(cur: Cursor, e: Entry) { e.mine && Beyond(cur, e) }

  /** The rows of one table later than the cursor, oldest first. */
  function Replay(cur: Cursor, srv: seq<Entry>, direct: bool): seq<Item>
  {
    if srv == [] then []
    else
      var e := srv[|srv| - 1];
      Replay(cur, srv[..|srv| - 1], direct) + if e.direct == direct && Sends(cur, e) then [e.item] else []
  }

  /** Direct messages first, then group messages. */
  function Reply(cur: Cursor, srv: seq<Entry>): seq<Item> { Replay(cur, srv, true) + Replay(cur, srv, false) }

  /** The two queries and their sending loops. */
  method SendHistory(cur: Cursor, srv: seq<Entry>) returns (out: seq<Item>)
    ensures out == Reply(cur, srv)
  {
    var direct, group := [], [];
    for i := 0 to |srv|
      invariant direct == Replay(cur, srv[..i], true)
    {
      assert srv[..i + 1][..i] == srv[..i];
      if srv[i].direct && Sends(cur, srv[i]) {
        direct := direct + [srv[i].item];
      }
    }
    for i := 0 to |srv|
      invariant group == Replay(cur, srv[..i], false)
    {
      assert srv[..i + 1][..i] == srv[..i];
      if !srv[i].direct && Sends(cur, srv[i]) {
        group := group + [srv[i].item];
      }
    }
    assert srv[..|srv|] == srv;
    out := direct + group;
  }

  /** The positions of the rows of one table that a reply holds, in order. */
  ghost predicate Positions(cur: Cursor, srv: seq<Entry>, direct: bool, at: seq<nat>)
  {
    && (forall i, j :: 0 <= i < j < |at| ==> at[i] < at[j])
    && forall p: nat :: p in at <==> p < |srv| && srv[p].direct == direct && Sends(cur, srv[p])
  }

  function ItemsAt(srv: seq<Entry>, at: seq<nat>): seq<Item>
    requires forall i :: 0 <= i < |at| ==> at[i] < |srv|
  {
    seq(|at|, i requires 0 <= i < |at| => srv[at[i]].item)
  }

  /** One table is replayed row by row, oldest first, nothing left out and nothing twice. */
  lemma {:induction false} ReplayInOrder(cur: Cursor, srv: seq<Entry>, direct: bool) returns (at: seq<nat>)
    ensures Positions(cur, srv, direct, at) && (forall i :: 0 <= i < |at| ==> at[i] < |srv|)
    ensures Replay(cur, srv, direct) == ItemsAt(srv, at)
  {
    if srv == [] {
      at := [];
    } else {
      var n := |srv| - 1;
      var before := ReplayInOrder(cur, srv[..n], direct);
      assert forall i :: 0 <= i < |before| ==> before[i] in before;
      assert ItemsAt(srv, before) == ItemsAt(srv[..n], before);
      if srv[n].direct == direct && Sends(cur, srv[n]) {
        at := before + [n];
        assert ItemsAt(srv, at) == ItemsAt(srv, before) + [srv[n].item];
      } else {
        at := before;
      }
      PositionsGrow(cur, srv, direct, before, at);
    }
  }

  lemma PositionsGrow(cur: Cursor, srv: seq<Entry>, direct: bool, before: seq<nat>, at: seq<nat>)
    requires |srv| > 0 && Positions(cur, srv[..|srv| - 1], direct, before)
    requires at == if srv[|srv| - 1].direct == direct && Sends(cur, srv[|srv| - 1]) then before + [|srv| - 1] else before
    ensures Positions(cur, srv, direct, at)
  {
    var n := |srv| - 1;
    assert forall i :: 0 <= i < |before| ==> before[i] in before;
    assert forall p :: 0 <= p < n ==> srv[..n][p] == srv[p];
  }

  /** And the direct messages come before the group messages. */
  lemma ReplyInOrder(cur: Cursor, srv: seq<Entry>) returns (letters: seq<nat>, notes: seq<nat>)
    ensures Positions(cur, srv, true, letters) && Positions(cur, srv, false, notes)
    ensures (forall i :: 0 <= i < |letters| ==> letters[i] < |srv|) && forall i :: 0 <= i < |notes| ==> notes[i] < |srv|
    ensures Reply(cur, srv) == ItemsAt(srv, letters) + ItemsAt(srv, notes)
  {
    letters := ReplayInOrder(cur, srv, true);
    notes := ReplayInOrder(cur, srv, false);
  }

  function Synced(c: Client, cur: Cursor, srv: seq<Entry>): Client { TakeAll(c, Reply(cur, srv)) }

  // ---------------------------------------------------------------------------
  // One exchange
  // ---------------------------------------------------------------------------

  /** A message of the user that a client keeps at all. */
  predicate Kept(e: Entry) { e.mine && e.item.key.Some? }

  predicate Held(c: Client, e: Entry) { e.item.key.Some? && e.item.key.value in c.store }

  ghost predicate HoldsAll(c: Client, srv: seq<Entry>)
  {
    forall i :: 0 <= i < |srv| && Kept(srv[i]) ==> Held(c, srv[i])
  }

  ghost predicate HoldsUpTo(c: Client, srv: seq<Entry>, cur: Cursor)
  {
    forall i :: 0 <= i < |srv| && Kept(srv[i]) && !Beyond(cur, srv[i]) ==> Held(c, srv[i])
  }

  /** A key names an instant. */
  ghost predicate KeysDated(srv: seq<Entry>)
  {
    forall i, j ::
      0 <= i < |srv| && 0 <= j < |srv| && srv[i].item.key.Some? && srv[i].item.key == srv[j].item.key
      ==> srv[i].at == srv[j].at
  }

  ghost predicate Replays(cur: Cursor, srv: seq<Entry>, k: Key)
  {
    exists i :: 0 <= i < |srv| && Sends(cur, srv[i]) && srv[i].item.key == Some(k)
  }

  lemma {:induction false} ReplayCarries(cur: Cursor, srv: seq<Entry>, direct: bool, k: Key)
    ensures Carries(Replay(cur, srv, direct), k) <==>
            exists i :: 0 <= i < |srv| && srv[i].direct == direct && Sends(cur, srv[i]) && srv[i].item.key == Some(k)
  {
    if srv != [] {
      var n := |srv| - 1;
      var last := if srv[n].direct == direct && Sends(cur, srv[n]) then [srv[n].item] else [];
      ReplayCarries(cur, srv[..n], direct, k);
      CarriesConcat(Replay(cur, srv[..n], direct), last, k);
      assert last != [] ==> last[0] == srv[n].item;
      assert forall i :: 0 <= i < n ==> srv[..n][i] == srv[i];
    }
  }

  lemma ReplyCarries(cur: Cursor, srv: seq<Entry>, k: Key)
    ensures Carries(Reply(cur, srv), k) <==> Replays(cur, srv, k)
  {
    CarriesConcat(Replay(cur, srv, true), Replay(cur, srv, false), k);
    ReplayCarries(cur, srv, true, k);
    ReplayCarries(cur, srv, false, k);
  }

  /** One exchange brings in exactly the user's messages after the cursor. */
  lemma SyncFetchesIff(c: Client, cur: Cursor, srv: seq<Entry>, i: nat)
    requires KeysDated(srv) && i < |srv| && Kept(srv[i])
    ensures Held(Synced(c, cur, srv), srv[i]) <==> Held(c, srv[i]) || Beyond(cur, srv[i])
  {
    var k := srv[i].item.key.value;
    OneRowOneSignal(c, Reply(cur, srv), k);
    ReplyCarries(cur, srv, k);
  }

  /**
   * The exchange leaves the client with every message of the user if and only if it already had
   * all of them at or before its cursor; without a usable cursor it always does.
   */
  lemma SyncCompleteIff(c: Client, cur: Cursor, srv: seq<Entry>)
    requires KeysDated(srv)
    ensures HoldsAll(Synced(c, cur, srv), srv) <==> HoldsUpTo(c, srv, cur)
    ensures cur.None? ==> HoldsAll(Synced(c, cur, srv), srv)
  {
    forall i | 0 <= i < |srv| && Kept(srv[i])
      ensures Held(Synced(c, cur, srv), srv[i]) <==> Held(c, srv[i]) || Beyond(cur, srv[i])
    {
      SyncFetchesIff(c, cur, srv, i);
    }
  }

  /** And then the same holds for whatever cursor the client sends next time. */
  lemma NextCursorIsCovered(c: Client, cur: Cursor, srv: seq<Entry>, next: Cursor)
    requires KeysDated(srv) && HoldsUpTo(c, srv, cur)
    ensures HoldsUpTo(Synced(c, cur, srv), srv, next)
  {
    SyncCompleteIff(c, cur, srv);
  }

  // ---------------------------------------------------------------------------
  // The cursor over time
  // ---------------------------------------------------------------------------

  /** The cursor is the instant of the newest message the client holds, if it holds any. */
  ghost predicate IsCursor(c: Client, srv: seq<Entry>, cur: Cursor)
  {
    match cur
    case None => forall i :: 0 <= i < |srv| && Kept(srv[i]) ==> !Held(c, srv[i])
    case Some(t) =>
      && (exists i :: 0 <= i < |srv| && Kept(srv[i]) && Held(c, srv[i]) && srv[i].at == t)
      && forall i :: 0 <= i < |srv| && Kept(srv[i]) && Held(c, srv[i]) ==> srv[i].at <= t
  }

  // ---------------------------------------------------------------------------
  // Whole runs
  // ---------------------------------------------------------------------------

  datatype World = World(srv: seq<Entry>, c: Client, online: bool)

  const START := World([], Client(map[], []), false)

  /**
   * A message is posted; a connected client gets it live unless the send is lost. A login asks for
   * what was missed.
   */
  datatype Event = Post(e: Entry, arrives: bool) | Disconnect | Login(cur: Cursor)

  ghost predicate Enabled(s: World, v: Event)
  {
    match v
    case Post(e, _) => KeysDated(s.srv + [e])
    case Disconnect => true
    case Login(cur) => IsCursor(s.c, s.srv, cur)
  }

  function Next(s: World, v: Event): World
  {
    match v
    case Post(e, arrives) =>
      World(s.srv + [e], if s.online && arrives && e.mine then Take(s.c, e.item) else s.c, s.online)
    case Disconnect => s.(online := false)
    case Login(cur) => World(s.srv, Synced(s.c, cur, s.srv), true)
  }

  ghost predicate Follows(ws: seq<World>, vs: seq<Event>, i: int)
    requires 0 <= i < |vs| < |ws|
  {
    Enabled(ws[i], vs[i]) && ws[i + 1] == Next(ws[i], vs[i])
  }

  ghost predicate History(ws: seq<World>, vs: seq<Event>)
  {
    && |ws| == |vs| + 1 && ws[0] == START
    && forall i {:trigger Follows(ws, vs, i)} :: 0 <= i < |vs| ==> Follows(ws, vs, i)
  }

  /** Whatever the client holds, it also holds everything before it. */
  ghost predicate NoGaps(c: Client, srv: seq<Entry>)
  {
    forall i, j ::
      0 <= i < |srv| && 0 <= j < |srv| && Kept(srv[i]) && Kept(srv[j]) && srv[i].at <= srv[j].at && Held(c, srv[j])
      ==> Held(c, srv[i])
  }

  /** The client holds some message of the user that is no earlier than this instant. */
  ghost predicate HoldsPast(c: Client, srv: seq<Entry>, at: int)
  {
    exists j :: 0 <= j < |srv| && Kept(srv[j]) && Held(c, srv[j]) && at <= srv[j].at
  }

  /** Online the client holds everything; offline it holds everything up to some moment. */
  ghost predicate Current(s: World)
  {
    NoGaps(s.c, s.srv) && (s.online ==> HoldsAll(s.c, s.srv))
  }

  /**
   * A message of the user passes the client by: its live copy is lost, or the client is away and
   * already holds something as late.
   */
  ghost predicate PassesBy(s: World, v: Event)
  {
    v.Post? && Kept(v.e) && !Held(s.c, v.e)
    && if s.online then !v.arrives else HoldsPast(s.c, s.srv, v.e.at)
  }

  lemma {:induction false} HistoryIsDated(ws: seq<World>, vs: seq<Event>, n: nat)
    requires History(ws, vs) && n <= |vs|
    ensures KeysDated(ws[n].srv)
  {
    if n > 0 {
      HistoryIsDated(ws, vs, n - 1);
      assert Follows(ws, vs, n - 1);
    }
  }

  lemma Snoc(srv: seq<Entry>, e: Entry)
    ensures forall i :: 0 <= i < |srv| ==> (srv + [e])[i] == srv[i]
    ensures (srv + [e])[|srv|] == e
  {
  }

  lemma OnlinePost(c: Client, srv: seq<Entry>, e: Entry, arrives: bool)
    requires HoldsAll(c, srv)
    ensures var d := if arrives && e.mine then Take(c, e.item) else c;
            HoldsAll(d, srv + [e]) <==> !(Kept(e) && !Held(c, e) && !arrives)
  {
    Snoc(srv, e);
  }

  /** While the client is away a gap opens exactly when something as late is already held. */
  lemma OfflinePost(c: Client, srv: seq<Entry>, e: Entry)
    requires NoGaps(c, srv) && KeysDated(srv + [e]) && Sourced(c, srv)
    ensures NoGaps(c, srv + [e]) <==> !(Kept(e) && !Held(c, e) && HoldsPast(c, srv, e.at))
  {
    var more := srv + [e];
    Snoc(srv, e);
    if Kept(e) && !Held(c, e) && HoldsPast(c, srv, e.at) {
      var j :| 0 <= j < |srv| && Kept(srv[j]) && Held(c, srv[j]) && e.at <= srv[j].at;
      assert Held(c, more[j]) && !Held(c, more[|srv|]);
    } else {
      forall i, j | 0 <= i < |more| && 0 <= j < |more| && Kept(more[i]) && Kept(more[j])
                    && more[i].at <= more[j].at && Held(c, more[j])
        ensures Held(c, more[i])
      {
        var f := j;
        if j == |srv| { f := TwinOf(c, srv, e); }
        assert 0 <= f < |srv| && Kept(srv[f]) && Held(c, srv[f]) && srv[f].at == more[j].at;
      }
    }
  }

  /** A held key belongs to a message already there, of the same instant. */
  lemma TwinOf(c: Client, srv: seq<Entry>, e: Entry) returns (f: nat)
    requires Sourced(c, srv) && KeysDated(srv + [e]) && Held(c, e)
    ensures f < |srv| && Kept(srv[f]) && Held(c, srv[f]) && srv[f].at == e.at
  {
    var k := e.item.key.value;
    f :| 0 <= f < |srv| && Kept(srv[f]) && srv[f].item.key == Some(k);
    assert (srv + [e])[f] == srv[f] && (srv + [e])[|srv|] == e;
  }

  /** Everything stored is some message of the user. */
  ghost predicate Sourced(c: Client, srv: seq<Entry>)
  {
    forall k :: k in c.store ==> exists i :: 0 <= i < |srv| && Kept(srv[i]) && srv[i].item.key == Some(k)
  }

  lemma SnocSourced(c: Client, srv: seq<Entry>, e: Entry)
    requires Sourced(c, srv)
    ensures Sourced(c, srv + [e])
    ensures e.mine ==> Sourced(Take(c, e.item), srv + [e])
  {
    var more := srv + [e];
    Snoc(srv, e);
    forall k | k in c.store ensures exists i :: 0 <= i < |more| && Kept(more[i]) && more[i].item.key == Some(k) {
      var i :| 0 <= i < |srv| && Kept(srv[i]) && srv[i].item.key == Some(k);
      assert more[i] == srv[i];
    }
  }

  lemma SyncIsSourced(c: Client, cur: Cursor, srv: seq<Entry>)
    requires Sourced(c, srv)
    ensures Sourced(Synced(c, cur, srv), srv)
  {
    forall k | k in Synced(c, cur, srv).store
      ensures exists i :: 0 <= i < |srv| && Kept(srv[i]) && srv[i].item.key == Some(k)
    {
      OneRowOneSignal(c, Reply(cur, srv), k);
      ReplyCarries(cur, srv, k);
      if k !in c.store {
        var i :| 0 <= i < |srv| && Sends(cur, srv[i]) && srv[i].item.key == Some(k);
        assert Kept(srv[i]);
      }
    }
  }

  lemma {:induction false} HistoryIsSourced(ws: seq<World>, vs: seq<Event>, n: nat)
    requires History(ws, vs) && n <= |vs|
    ensures Sourced(ws[n].c, ws[n].srv)
  {
    if n > 0 {
      var s := ws[n - 1];
      HistoryIsSourced(ws, vs, n - 1);
      assert Follows(ws, vs, n - 1);
      match vs[n - 1]
      case Post(e, _) => SnocSourced(s.c, s.srv, e);
      case Disconnect =>
      case Login(cur) => SyncIsSourced(s.c, cur, s.srv);
    }
  }

  lemma LoginIsCurrent(c: Client, srv: seq<Entry>, cur: Cursor)
    requires KeysDated(srv) && NoGaps(c, srv) && IsCursor(c, srv, cur)
    ensures HoldsAll(Synced(c, cur, srv), srv)
  {
    assert HoldsUpTo(c, srv, cur);
    SyncCompleteIff(c, cur, srv);
  }

  lemma CurrentStepIff(ws: seq<World>, vs: seq<Event>, i: nat)
    requires History(ws, vs) && i < |vs| && Current(ws[i])
    ensures Current(ws[i + 1]) <==> !PassesBy(ws[i], vs[i])
  {
    var s := ws[i];
    HistoryIsDated(ws, vs, i);
    HistoryIsSourced(ws, vs, i);
    assert Follows(ws, vs, i);
    match vs[i]
    case Post(e, arrives) =>
      if s.online { OnlinePost(s.c, s.srv, e, arrives); } else { OfflinePost(s.c, s.srv, e); }
    case Disconnect =>
    case Login(cur) => LoginIsCurrent(s.c, s.srv, cur);
  }

  /**
   * Over a whole run, however often the client comes and goes: it is complete in every state in
   * which it is connected, and gapless in the others, exactly when no message passes it by.
   */
  lemma CurrentIff(ws: seq<World>, vs: seq<Event>, n: nat)
    requires History(ws, vs) && n <= |vs|
    ensures (forall i :: 0 <= i <= n ==> Current(ws[i])) <==> forall i :: 0 <= i < n ==> !PassesBy(ws[i], vs[i])
  {
    var good := seq(n + 1, i requires 0 <= i <= n => Current(ws[i]));
    var bad := seq(n, i requires 0 <= i < n => PassesBy(ws[i], vs[i]));
    forall i | 0 <= i < n && good[i] ensures good[i + 1] == !bad[i] { CurrentStepIff(ws, vs, i); }
    AlwaysIff(good, bad, n);
    assert forall i :: 0 <= i <= n ==> good[i] == Current(ws[i]);
    assert forall i :: 0 <= i < n ==> bad[i] == PassesBy(ws[i], vs[i]);
  }

  /** No live copy is lost, and no message of the user is as early as one already there. */
  ghost predicate InOrder(s: World, v: Event)
  {
    v.Post? && Kept(v.e) ==> v.arrives && forall i :: 0 <= i < |s.srv| && Kept(s.srv[i]) ==> s.srv[i].at < v.e.at
  }

  /**
   * So when the user's messages reach the server in time order and live copies arrive, after every
   * login and as long as it stays the client holds every message of the user, and nothing else.
   */
  lemma OnlineClientIsComplete(ws: seq<World>, vs: seq<Event>, n: nat)
    requires History(ws, vs) && n <= |vs| && ws[n].online
    requires forall i :: 0 <= i < n ==> InOrder(ws[i], vs[i])
    ensures HoldsAll(ws[n].c, ws[n].srv) && Sourced(ws[n].c, ws[n].srv)
  {
    HistoryIsSourced(ws, vs, n);
    forall i | 0 <= i < n ensures !PassesBy(ws[i], vs[i]) { assert InOrder(ws[i], vs[i]); }
    CurrentIff(ws, vs, n);
  }

  // ---------------------------------------------------------------------------
  // Missed for good
  // ---------------------------------------------------------------------------

  /** The client lacks message j and holds something as late. */
  ghost predicate Missed(s: World, j: nat)
  {
    j < |s.srv| && Kept(s.srv[j]) && !Held(s.c, s.srv[j]) && HoldsPast(s.c, s.srv, s.srv[j].at)
  }

  lemma LoginStillMisses(c: Client, srv: seq<Entry>, cur: Cursor, j: nat)
    requires KeysDated(srv) && IsCursor(c, srv, cur) && j < |srv| && Kept(srv[j]) && !Held(c, srv[j])
    requires HoldsPast(c, srv, srv[j].at)
    ensures var d := Synced(c, cur, srv); !Held(d, srv[j]) && HoldsPast(d, srv, srv[j].at)
  {
    SyncFetchesIff(c, cur, srv, j);
    var f :| 0 <= f < |srv| && Kept(srv[f]) && Held(c, srv[f]) && srv[j].at <= srv[f].at;
    SyncFetchesIff(c, cur, srv, f);
  }

  lemma PostStillMisses(s: World, v: Event, j: nat)
    requires v.Post? && Missed(s, j) && v.e.item.key != s.srv[j].item.key
    ensures Missed(Next(s, v), j)
  {
    Snoc(s.srv, v.e);
    var f :| 0 <= f < |s.srv| && Kept(s.srv[f]) && Held(s.c, s.srv[f]) && s.srv[j].at <= s.srv[f].at;
    assert Held(Next(s, v).c, Next(s, v).srv[f]);
  }

  /** A missed message stays missed through any later logins, unless it is posted again. */
  lemma {:induction false} LateMessageIsMissed(ws: seq<World>, vs: seq<Event>, i: nat, n: nat, j: nat)
    requires History(ws, vs) && i <= n <= |vs| && Missed(ws[i], j)
    requires forall k :: i <= k < n && vs[k].Post? ==> vs[k].e.item.key != ws[i].srv[j].item.key
    ensures Missed(ws[n], j) && ws[n].srv[j] == ws[i].srv[j]
  {
    if i < n {
      LateMessageIsMissed(ws, vs, i, n - 1, j);
      var s := ws[n - 1];
      HistoryIsDated(ws, vs, n - 1);
      assert Follows(ws, vs, n - 1);
      match vs[n - 1]
      case Post(e, _) =>
        PostStillMisses(s, vs[n - 1], j);
        Snoc(s.srv, e);
      case Disconnect =>
      case Login(cur) => LoginStillMisses(s.c, s.srv, cur, j);
    }
  }

  /** The login of a client that holds the first of two messages, the second no later. */
  lemma SecondIsMissed(c: Client, a: Entry, b: Entry)
    requires Kept(a) && Kept(b) && b.at <= a.at && Held(c, a) && !Held(c, b) && KeysDated([a, b])
    ensures IsCursor(c, [a, b], Some(a.at))
    ensures Missed(World([a, b], Synced(c, Some(a.at), [a, b]), true), 1)
  {
    var srv := [a, b];
    assert srv[0] == a && srv[1] == b;
    assert Kept(srv[0]) && Held(c, srv[0]) && srv[0].at == a.at;
    LoginStillMisses(c, srv, Some(a.at), 1);
  }

  lemma Extend(ws: seq<World>, vs: seq<Event>, v: Event) returns (xs: seq<World>, ys: seq<Event>)
    requires History(ws, vs) && Enabled(ws[|vs|], v)
    ensures History(xs, ys) && ys == vs + [v] && xs[|ys|] == Next(ws[|vs|], v)
  {
    xs, ys := ws + [Next(ws[|vs|], v)], vs + [v];
    forall i | 0 <= i < |ys| ensures Follows(xs, ys, i) {
      if i < |vs| { assert Follows(ws, vs, i); }
    }
  }

  /**
   * Any message posted while the client is away, with a time no later than one it has, makes a run
   * after which the client is connected, synced and without it.
   */
  lemma LateMessageRun(a: Entry, b: Entry) returns (ws: seq<World>, vs: seq<Event>)
    requires Kept(a) && Kept(b) && b.at <= a.at && a.item.key != b.item.key
    ensures History(ws, vs) && |vs| == 5 && vs[3] == Post(b, false)
    ensures ws[5].online && ws[5].srv == [a, b] && Missed(ws[5], 1)
  {
    ws, vs := Extend([START], [], Login(None));
    var s := ws[1];
    assert Reply(None, []) == [];
    assert s == START.(online := true);
    LateSteps(s, a, b);
    ws, vs := Extend(ws, vs, Post(a, true));
    ws, vs := Extend(ws, vs, Disconnect);
    ws, vs := Extend(ws, vs, Post(b, false));
    ws, vs := Extend(ws, vs, Login(Some(a.at)));
  }

  lemma LateSteps(s: World, a: Entry, b: Entry)
    requires Kept(a) && Kept(b) && b.at <= a.at && a.item.key != b.item.key
    requires s.srv == [] && s.c.store == map[] && s.online
    ensures var s1 := Next(s, Post(a, true));
            var s2 := Next(s1, Disconnect);
            var s3 := Next(s2, Post(b, false));
            var s4 := Next(s3, Login(Some(a.at)));
            && Enabled(s, Post(a, true)) && Enabled(s2, Post(b, false)) && Enabled(s3, Login(Some(a.at)))
            && s4.online && s4.srv == [a, b] && Missed(s4, 1)
  {
    assert s.srv + [a] == [a] && [a] + [b] == [a, b];
    SecondIsMissed(Take(s.c, a.item), a, b);
  }
}
