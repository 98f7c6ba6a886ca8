/** The shared map of sessions; each method is one critical section. */
module ClientRegistry {
  import opened Wrappers
  import opened Connections

  lemma {:induction false} WithoutSnoc(s: seq<nat>, c: nat, x: nat)
    ensures Without(s + [x], c) == Without(s, c) + if x == c then [] else [x]
  {
    if s == [] {
      assert s + [x] == [x];
    } else {
      WithoutSnoc(s[1..], c, x);
      assert (s + [x])[1..] == s[1..] + [x];
    }
  }

  class Registry {
    var clients: Clients

    constructor ()
      ensures clients == map[]
    {
      clients := map[];
    }

    method AddClient(u: Name, c: nat)
      modifies this
      ensures clients == Connections.AddClient(old(clients), u, c)
      ensures Count(clients, u, c) == Count(old(clients), u, c) + 1
    {
      CountAfterAdd(clients, u, c, u, c);
      if u !in clients {
        clients := clients[u := []];
      }
      clients := clients[u := clients[u] + [c]];
    }

    /** Erases every occurrence of c, then the name when nothing is left. */
    method RemoveClient(u: Name, c: nat)
      modifies this
      ensures clients == Connections.RemoveClient(old(clients), u, c)
      ensures forall v, d :: Count(clients, v, d) == if v == u && d == c then 0 else Count(old(clients), v, d)
      ensures NoEmptyLists(old(clients)) ==> NoEmptyLists(clients)
    {
      forall v, d {
        CountAfterRemove(clients, u, c, v, d);
      }
      if u !in clients {
        return;
      }
      var vec, kept := clients[u], [];
      for i := 0 to |vec|
        invariant clients == old(clients)
        invariant kept == Without(vec[..i], c)
      {
        WithoutSnoc(vec[..i], c, vec[i]);
        assert vec[..i + 1] == vec[..i] + [vec[i]];
        if vec[i] != c {
          kept := kept + [vec[i]];
        }
      }
      assert vec[..|vec|] == vec;
      clients := if kept == [] then clients - {u} else clients[u := kept];
    }

    method FindClient(u: Name) returns (r: Option<nat>)
      ensures r == Connections.FindClient(clients, u)
      ensures r.Some? <==> exists c :: Count(clients, u, c) > 0
      ensures r.Some? ==> Count(clients, u, r.value) > 0
    {
      if u !in clients || |clients[u]| == 0 {
        r := None;
      } else {
        r := Some(clients[u][0]);
        CountIsMembership(clients, u, clients[u][0]);
      }
    }

    method GetSessionsForUser(u: Name) returns (r: seq<nat>)
      ensures forall c :: multiset(r)[c] == Count(clients, u, c)
    {
      r := [];
      if u in clients {
        r := clients[u];
      }
    }
  }
}
