/** The visible conversation and the per-peer cache behind it. */
module ChatView {
  type Peer = string

  datatype Entry = Entry(sender: string, content: string, ts: string, outgoing: bool, status: string)

  function Marked(e: Entry, ts: string, status: string): Entry
  {
    if e.ts == ts then e.(status := status) else e
  }

  /** Every entry with that timestamp gets the status; the rest, the order and the length stay. */
  function MarkAll(es: seq<Entry>, ts: string, status: string): seq<Entry>
  {
    seq(|es|, i requires 0 <= i < |es| => Marked(es[i], ts, status))
  }

  function Cached(cache: map<Peer, seq<Entry>>, p: Peer): seq<Entry> { if p in cache then cache[p] else [] }

  /** The status column of a message table, keyed (conversation, sender, timestamp). */
  type Statuses = map<(Peer, string, string), string>

  /** UPDATE ... SET status WHERE the conversation and the timestamp match. */
  function Written(t: Statuses, p: Peer, ts: string, status: string): Statuses
  {
    map k | k in t :: if k.0 == p && k.2 == ts then status else t[k]
  }

  /** direct and group are the SQLite tables messages and group_messages. */
  class ChatModel {
    var active: Peer
    var entries: seq<Entry>
    var cache: map<Peer, seq<Entry>>
    var direct: Statuses
    var group: Statuses

    /** What is shown is what is cached for the active peer, entry by entry. */
    ghost predicate Agrees()
      reads this
    {
      entries == Cached(cache, active)
    }

    constructor ()
      ensures Agrees() && active == "" && cache == map[]
    {
      active, entries, cache, direct, group := "", [], map[], map[], map[];
    }

    method AppendAndCache(p: Peer, e: Entry)
      requires Agrees()
      modifies this`cache, this`entries
      ensures Agrees()
      ensures forall q :: Cached(cache, q) == Cached(old(cache), q) + if q == p then [e] else []
    {
      cache := cache[p := Cached(cache, p) + [e]];
      if active == p {
        entries := entries + [e];
      }
    }

    method SwitchConversation(p: Peer)
      modifies this`active, this`entries
      ensures Agrees() && active == p
    {
      active := p;
      entries := [];
      if p in cache {
        entries := cache[p];
      }
    }

    /** One list, marked in place. */
    method MarkList(es: seq<Entry>, ts: string, status: string) returns (r: seq<Entry>)
      ensures r == MarkAll(es, ts, status)
      ensures |r| == |es| && forall i :: 0 <= i < |es| ==>
                r[i] == if es[i].ts == ts then es[i].(status := status) else es[i]
    {
      r := es;
      for i := 0 to |r|
        invariant |r| == |es|
        invariant forall j :: 0 <= j < |es| ==> r[j] == if j < i then Marked(es[j], ts, status) else es[j]
      {
        if r[i].ts == ts {
          r := r[i := r[i].(status := status)];
        }
      }
    }

    /** One table and both copies are updated; other peers' caches are not touched. */
    method UpdateStatus(p: Peer, ts: string, status: string, isGroup: bool)
      requires Agrees()
      modifies this`direct, this`group, this`entries, this`cache
      ensures Agrees()
      ensures group == if isGroup then Written(old(group), p, ts, status) else old(group)
      ensures direct == if isGroup then old(direct) else Written(old(direct), p, ts, status)
      ensures forall k :: (k in group <==> k in old(group)) && (k in direct <==> k in old(direct))
      ensures forall k :: k in group ==>
                group[k] == if isGroup && k.0 == p && k.2 == ts then status else old(group)[k]
      ensures forall k :: k in direct ==>
                direct[k] == if !isGroup && k.0 == p && k.2 == ts then status else old(direct)[k]
      ensures |Cached(cache, p)| == |Cached(old(cache), p)|
      ensures forall i :: 0 <= i < |Cached(cache, p)| ==>
                var e := Cached(old(cache), p)[i]; Cached(cache, p)[i] == if e.ts == ts then e.(status := status) else e
      ensures forall q :: Cached(cache, q) == if q == p then MarkAll(Cached(old(cache), q), ts, status)
                                              else Cached(old(cache), q)
    {
      if isGroup {
        group := Written(group, p, ts, status);
      } else {
        direct := Written(direct, p, ts, status);
      }
      if active == p {
        entries := MarkList(entries, ts, status);
      }
      if p in cache {
        var marked := MarkList(cache[p], ts, status);
        cache := cache[p := marked];
      }
    }

    method ClearAll()
      modifies this`active, this`cache, this`entries
      ensures Agrees() && active == "" && cache == map[]
    {
      active, cache, entries := "", map[], [];
    }

    /** Empties the view alone: afterwards the two agree only if nothing was cached for the peer. */
    method ClearHistory()
      requires Agrees()
      modifies this`entries
      ensures Agrees() <==> Cached(old(cache), old(active)) == []
    {
      entries := [];
    }
  }
}
