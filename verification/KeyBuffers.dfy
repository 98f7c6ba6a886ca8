/** The client's key buffers as they run: queues drained and lists rewritten in place. */
module KeyBuffers {
  import opened Wrappers
  import opened PendingKeys

  lemma ReadySnoc(cs: seq<Creation>, c: Creation)
    ensures Ready(cs + [c]) == Ready(cs) + if c.waiting == [] then [c] else []
    ensures Unready(cs + [c]) == Unready(cs) + if c.waiting == [] then [] else [c]
  {
    assert (cs + [c])[..|cs|] == cs;
  }

  lemma KnownSnoc(keys: map<Peer, PubKey>, members: seq<Peer>, m: Peer, aes: nat)
    ensures Known(keys, members + [m], aes)
            == if m in keys then Known(keys, members, aes)[m := Wrapped(aes, keys[m])] else Known(keys, members, aes)
    ensures Missing(keys, members + [m]) == Missing(keys, members) + if m in keys then [] else [m]
  {
    assert (members + [m])[..|members|] == members;
  }

  lemma UpdateSum(mine: map<Peer, Wrapped>, known: map<Peer, Wrapped>, m: Peer, aes: nat, keys: map<Peer, PubKey>)
    ensures m in keys ==>
              mine + known[m := Wrapped(aes, keys[m])] == (mine + known)[m := Wrapped(aes, keys[m])]
  {
  }

  lemma NothingKnown(keys: map<Peer, PubKey>, mine: map<Peer, Wrapped>, aes: nat)
    ensures mine + Known(keys, [], aes) == mine
  {
    assert Known(keys, [], aes) == map[];
  }

  class KeyRing {
    var s: State

    constructor ()
      ensures s == START
    {
      s := START;
    }

    method SendText(d: Draft)
      modifies this
      ensures s == Next(old(s), SendMessage(d))
    {
      var before := if d.to in s.pending then s.pending[d.to] else [];
      s := s.(given := s.given + [d]);
      if d.to !in s.keys {
        s := s.(pending := s.pending[d.to := before + [d]]);
        return;
      }
      s := s.(handed := s.handed + [d]);
    }

    /** Hands the peer's waiting messages to encryptAndSend, oldest first. */
    method DrainMessages(p: Peer)
      modifies this
      ensures s == old(s).(pending := old(s).pending - {p}, handed := old(s).handed + PendingFor(old(s), p))
    {
      if p !in s.pending {
        assert s.pending - {p} == s.pending && s.handed + [] == s.handed;
        return;
      }
      var taken := s.pending[p];
      s := s.(pending := s.pending - {p});
      for i := 0 to |taken|
        invariant s == old(s).(pending := old(s).pending - {p}, handed := old(s).handed + taken[..i])
      {
        assert taken[..i + 1] == taken[..i] + [taken[i]];
        assert old(s).handed + taken[..i + 1] == (old(s).handed + taken[..i]) + [taken[i]];
        s := s.(handed := s.handed + [taken[i]]);
      }
      assert taken[..|taken|] == taken;
    }

    /** Takes the peer off every waiting list it is on. */
    method ServeCreations(p: Peer, key: PubKey)
      modifies this
      ensures s == old(s).(creations := ServedAll(old(s).creations, p, key))
    {
      var cs := s.creations;
      for i := 0 to |cs|
        invariant s == old(s) && |cs| == |s.creations|
        invariant forall j :: 0 <= j < |cs| ==> cs[j] == if j < i then Served(s.creations[j], p, key) else s.creations[j]
      {
        if p in cs[i].waiting {
          var c := cs[i].(waiting := RemoveOne(cs[i].waiting, p));
          if key.usable {
            c := c.(collected := c.collected[p := Wrapped(c.aes, key)]);
          }
          cs := cs[i := c];
        }
      }
      assert cs == ServedAll(s.creations, p, key);
      s := s.(creations := cs);
    }

    /** Sends and erases the creations nobody is waited for in. */
    method SendReady()
      modifies this
      ensures s == old(s).(creations := Unready(old(s).creations), created := old(s).created + Ready(old(s).creations))
    {
      var cs, kept, sent := s.creations, [], [];
      for i := 0 to |cs|
        invariant s == old(s) && kept == Unready(cs[..i]) && sent == Ready(cs[..i])
      {
        ReadySnoc(cs[..i], cs[i]);
        assert cs[..i + 1] == cs[..i] + [cs[i]];
        if cs[i].waiting == [] {
          sent := sent + [cs[i]];
        } else {
          kept := kept + [cs[i]];
        }
      }
      assert cs[..|cs|] == cs;
      s := s.(creations := kept, created := s.created + sent);
    }

    method HandleKeyExchangeResponse(p: Peer, key: PubKey)
      modifies this
      ensures s == Next(old(s), KeyArrives(p, key))
    {
      s := s.(keys := s.keys[p := key]);
      DrainMessages(p);
      ServeCreations(p, key);
      SendReady();
    }

    /** Wraps the group key for the known members, lists the others; fails on an unusable key. */
    method CollectKeys(members: seq<Peer>, aes: nat, mine: map<Peer, Wrapped>)
      returns (ok: bool, collected: map<Peer, Wrapped>, waiting: seq<Peer>)
      ensures ok <==> forall m :: m in members && m in s.keys ==> s.keys[m].usable
      ensures ok ==> collected == mine + Known(s.keys, members, aes) && waiting == Missing(s.keys, members)
    {
      ok, collected, waiting := true, mine, [];
      NothingKnown(s.keys, mine, aes);
      for i := 0 to |members|
        invariant ok && forall j :: 0 <= j < i && members[j] in s.keys ==> s.keys[members[j]].usable
        invariant waiting == Missing(s.keys, members[..i])
        invariant collected == mine + Known(s.keys, members[..i], aes)
      {
        var m := members[i];
        KnownSnoc(s.keys, members[..i], m, aes);
        UpdateSum(mine, Known(s.keys, members[..i], aes), m, aes, s.keys);
        assert members[..i + 1] == members[..i] + [m];
        if m !in s.keys {
          waiting := waiting + [m];
        } else if s.keys[m].usable {
          collected := collected[m := Wrapped(aes, s.keys[m])];
        } else {
          ok := false;
          return;
        }
      }
      assert members[..|members|] == members;
    }

    /** Nothing is kept of a creation whose set-up throws. */
    method StartGroup(name: string, members: seq<Peer>, aes: nat)
      modifies this
      ensures s == Next(old(s), CreateGroup(name, members, aes))
    {
      var mine: map<Peer, Wrapped> := map[];
      if s.own.Some? {
        if !s.own.value.usable { return; }
        mine := map[s.me := Wrapped(aes, s.own.value)];
      }
      var ok, collected, waiting := CollectKeys(members, aes, mine);
      if !ok { return; }
      var c := Creation(s.nextId, name, members, aes, s.me, collected, waiting);
      assert c == NewCreation(s, name, members, aes);
      if waiting == [] {
        s := s.(created := s.created + [c], nextId := s.nextId + 1);
      } else {
        s := s.(creations := s.creations + [c], nextId := s.nextId + 1);
      }
    }

    method LogOut()
      modifies this
      ensures s == Next(old(s), Logout)
      ensures s.creations == old(s).creations
    {
      s := s.(me := "", own := None, keys := map[], pending := map[], given := [], handed := []);
    }
  }
}
