/** The sync law with real packets: canonical timestamps as keys, their text maximum as cursor. */
module SyncCursor {
  import opened Wrappers
  import opened Timestamps
  import opened Dedup
  import opened Ingest
  import opened HistorySync

  /** A user and the groups they are a member of. */
  datatype Who = Who(name: string, groups: set<string>)

  predicate Mine(w: Who, m: Posting)
  {
    match m
    case Letter(sender, recipient, _, _) => sender == w.name || recipient == w.name
    case Note(group, _, _, _) => group in w.groups
  }

  function EntryOf(w: Who, m: Posting): Entry
  {
    Entry(ItemOf(w.name, Replayed(w.name, m)), Instant(m.at), Mine(w, m), m.Letter?)
  }

  function Entries(w: Who, ms: seq<Posting>): seq<Entry>
  {
    seq(|ms|, i requires 0 <= i < |ms| => EntryOf(w, ms[i]))
  }

  /** The key of a message ends in the canonical text of its instant. */
  lemma KeyIsDated(w: Who, m: Posting)
    ensures EntryOf(w, m).item.key.Some? ==> EntryOf(w, m).item.key.value.ts == Iso(m.at)
    ensures EntryOf(w, m).item.key == KeyOfPosting(w.name, m)
  {
    PathsAgree(w.name, m);
  }

  lemma SameKeySameInstant(w: Who, a: Posting, b: Posting)
    requires EntryOf(w, a).item.key.Some? && EntryOf(w, a).item.key == EntryOf(w, b).item.key
    ensures Instant(a.at) == Instant(b.at)
  {
    KeyIsDated(w, a);
    KeyIsDated(w, b);
    TextOrderIsTimeOrder(a.at, b.at);
  }

  lemma HistoriesAreDated(w: Who, ms: seq<Posting>)
    ensures KeysDated(Entries(w, ms))
  {
    var srv := Entries(w, ms);
    forall i, j | 0 <= i < |srv| && 0 <= j < |srv| && srv[i].item.key.Some? && srv[i].item.key == srv[j].item.key
      ensures srv[i].at == srv[j].at
    {
      SameKeySameInstant(w, ms[i], ms[j]);
    }
  }

  /** What the client puts in the request, and what the server makes of it. */
  function CursorOf(t: string): Cursor
  {
    match ReadStamp(t)
    case None => None
    case Some(s) => if Valid(s) && s.date.y > 0 then Some(Instant(s)) else None
  }

  lemma CursorOfIso(s: Moment)
    ensures CursorOf(Iso(s)) == Some(Instant(s))
  {
    ReadStampOfIso(s);
  }

  /** ts lists the timestamps of both tables, in any order. */
  ghost predicate Lists(ts: seq<string>, store: map<Key, Row>)
  {
    && (forall k :: k in store ==> k.ts in ts)
    && forall i :: 0 <= i < |ts| ==> exists k :: k in store && k.ts == ts[i]
  }

  lemma NewestIsListed(ts: seq<string>, t: string)
    requires t in ts && t != ""
    ensures Newest(ts) in ts && !TextLess(Newest(ts), t)
  {
    NewestIsMax(ts, t);
    assert TextLess("", t);
  }

  /** Text i dates the key of entry i, and texts sort as the entries' instants. */
  ghost predicate Dates(texts: seq<string>, srv: seq<Entry>)
  {
    && |texts| == |srv|
    && (forall i :: 0 <= i < |srv| ==>
          texts[i] != "" && (srv[i].item.key.Some? ==> srv[i].item.key.value.ts == texts[i]))
    && forall i, j :: 0 <= i < |srv| && 0 <= j < |srv| ==>
         (TextLess(texts[i], texts[j]) <==> srv[i].at < srv[j].at)
  }

  /** A listed text is that of some held message. */
  lemma ListedIsHeld(c: Client, srv: seq<Entry>, texts: seq<string>, ts: seq<string>, t: string) returns (i: nat)
    requires Dates(texts, srv) && Sourced(c, srv) && Lists(ts, c.store) && t in ts
    ensures i < |srv| && Kept(srv[i]) && Held(c, srv[i]) && texts[i] == t
  {
    var j :| 0 <= j < |ts| && ts[j] == t;
    var k :| k in c.store && k.ts == ts[j];
    i :| 0 <= i < |srv| && Kept(srv[i]) && srv[i].item.key == Some(k);
  }

  lemma NewestDatesCursor(c: Client, srv: seq<Entry>, texts: seq<string>, ts: seq<string>, cur: Cursor)
    requires Dates(texts, srv) && Sourced(c, srv) && Lists(ts, c.store)
    requires ts == [] ==> cur == None
    requires forall i :: 0 <= i < |srv| && texts[i] == Newest(ts) ==> cur == Some(srv[i].at)
    ensures IsCursor(c, srv, cur)
  {
    if ts != [] {
      var j0 := ListedIsHeld(c, srv, texts, ts, ts[0]);
      NewestIsListed(ts, ts[0]);
      var j := ListedIsHeld(c, srv, texts, ts, Newest(ts));
      assert cur == Some(srv[j].at);
      forall i | 0 <= i < |srv| && Held(c, srv[i]) ensures srv[i].at <= srv[j].at {
        NewestIsListed(ts, texts[i]);
        assert TextLess(texts[j], texts[i]) <==> srv[j].at < srv[i].at;
      }
    }
  }

  lemma EntriesAreDated(w: Who, ms: seq<Posting>, texts: seq<string>)
    requires |texts| == |ms| && forall i :: 0 <= i < |ms| ==> texts[i] == Iso(ms[i].at)
    ensures Dates(texts, Entries(w, ms))
  {
    var srv := Entries(w, ms);
    forall i | 0 <= i < |srv|
      ensures texts[i] != "" && (srv[i].item.key.Some? ==> srv[i].item.key.value.ts == texts[i])
    {
      KeyIsDated(w, ms[i]);
      IsoIsText(ms[i].at);
    }
    forall i, j | 0 <= i < |srv| && 0 <= j < |srv|
      ensures TextLess(texts[i], texts[j]) <==> srv[i].at < srv[j].at
    {
      TextOrderIsTimeOrder(ms[i].at, ms[j].at);
    }
  }

  lemma IsoIsText(s: Moment)
    ensures Iso(s) != ""
  {
  }

  lemma NoRowsNoCursor(ts: seq<string>)
    requires ts == []
    ensures CursorOf(Newest(ts)) == None
  {
  }

  function Texts(ms: seq<Posting>): seq<string> { seq(|ms|, i requires 0 <= i < |ms| => Iso(ms[i].at)) }

  /**
   * The text maximum over the client's two tables, sent and read back, is the instant of the
   * newest message it holds, or no cursor when it holds none.
   */
  lemma NewestTextIsCursor(c: Client, w: Who, ms: seq<Posting>, ts: seq<string>)
    requires Sourced(c, Entries(w, ms)) && Lists(ts, c.store)
    ensures IsCursor(c, Entries(w, ms), CursorOf(Newest(ts)))
  {
    var srv, texts := Entries(w, ms), Texts(ms);
    EntriesAreDated(w, ms, texts);
    if ts == [] { NoRowsNoCursor(ts); }
    forall i | 0 <= i < |srv| && texts[i] == Newest(ts) ensures CursorOf(Newest(ts)) == Some(srv[i].at) {
      CursorOfIso(ms[i].at);
    }
    NewestDatesCursor(c, srv, texts, ts, CursorOf(Newest(ts)));
  }

  /**
   * With real packets: one exchange, its cursor taken from the tables, completes the client if
   * and only if it held everything up to that cursor.
   */
  lemma ExchangeCompleteIff(c: Client, w: Who, ms: seq<Posting>, ts: seq<string>)
    requires Sourced(c, Entries(w, ms)) && Lists(ts, c.store)
    ensures var srv, cur := Entries(w, ms), CursorOf(Newest(ts));
            && IsCursor(c, srv, cur)
            && (HoldsAll(Synced(c, cur, srv), srv) <==> HoldsUpTo(c, srv, cur))
  {
    HistoriesAreDated(w, ms);
    NewestTextIsCursor(c, w, ms, ts);
    SyncCompleteIff(c, CursorOf(Newest(ts)), Entries(w, ms));
  }

  lemma EntriesSnoc(w: Who, ms: seq<Posting>, m: Posting)
    ensures Entries(w, ms + [m]) == Entries(w, ms) + [EntryOf(w, m)]
  {
    SameEntries(Entries(w, ms + [m]), Entries(w, ms), EntryOf(w, m));
  }

  lemma SameEntries(all: seq<Entry>, some: seq<Entry>, last: Entry)
    requires |all| == |some| + 1 && all[|some|] == last && forall i :: 0 <= i < |some| ==> all[i] == some[i]
    ensures all == some + [last]
  {
  }

  /**
   * Real packets make runs of the sync machine: any message may be posted, and the server's history
   * then is that of the messages posted.
   */
  lemma RealPost(c: Client, w: Who, ms: seq<Posting>, online: bool, m: Posting, arrives: bool)
    ensures var s := World(Entries(w, ms), c, online);
            && Enabled(s, Post(EntryOf(w, m), arrives))
            && Next(s, Post(EntryOf(w, m), arrives)).srv == Entries(w, ms + [m])
  {
    var srv, e := Entries(w, ms), EntryOf(w, m);
    assert srv + [e] == Entries(w, ms + [m]) by { EntriesSnoc(w, ms, m); }
    assert KeysDated(srv + [e]) by { HistoriesAreDated(w, ms + [m]); }
    PostOf(World(srv, c, online), e, arrives);
  }

  lemma PostOf(s: World, e: Entry, arrives: bool)
    requires KeysDated(s.srv + [e])
    ensures Enabled(s, Post(e, arrives)) && Next(s, Post(e, arrives)).srv == s.srv + [e]
  {
  }

  /** A live copy stores what a replay would. */
  lemma RealCopy(w: Who, m: Posting)
    ensures ItemOf(w.name, Live(w.name, m)) == EntryOf(w, m).item
  {
    PathsAgree(w.name, m);
  }

  /** And a login may send the newest timestamp of the tables. */
  lemma RealLogin(c: Client, w: Who, ms: seq<Posting>, online: bool, ts: seq<string>)
    requires Sourced(c, Entries(w, ms)) && Lists(ts, c.store)
    ensures Enabled(World(Entries(w, ms), c, online), Login(CursorOf(Newest(ts))))
  {
    var srv, cur := Entries(w, ms), CursorOf(Newest(ts));
    assert IsCursor(c, srv, cur) by { NewestTextIsCursor(c, w, ms, ts); }
    LoginOf(World(srv, c, online), cur);
  }

  lemma LoginOf(s: World, cur: Cursor)
    requires IsCursor(s.c, s.srv, cur)
    ensures Enabled(s, Login(cur))
  {
  }

  /** A message of the user: theirs or to them and not both, or a readable one of a group they are in. */
  predicate Concerns(w: Who, m: Posting)
  {
    match m
    case Letter(sender, recipient, _, _) => (sender == w.name) != (recipient == w.name)
    case Note(group, _, _, clear) => group in w.groups && clear.Some?
  }

  lemma KeptIff(w: Who, m: Posting)
    ensures Kept(EntryOf(w, m)) <==> Concerns(w, m)
    ensures Concerns(w, m) ==> KeyOfPosting(w.name, m).Some?
  {
    KeyIsDated(w, m);
  }

  /** A first login, with nothing stored and so no cursor, brings in every message of the user. */
  lemma FirstLoginBringsAll(w: Who, ms: seq<Posting>, i: nat)
    requires i < |ms| && Concerns(w, ms[i])
    ensures KeyOfPosting(w.name, ms[i]).Some?
    ensures KeyOfPosting(w.name, ms[i]).value in Synced(Client(map[], []), CursorOf(Newest([])), Entries(w, ms)).store
  {
    NoRowsNoCursor([]);
    HistoriesAreDated(w, ms);
    KeptIff(w, ms[i]);
    KeyIsDated(w, ms[i]);
    SyncFetchesIff(Client(map[], []), None, Entries(w, ms), i);
  }
}
