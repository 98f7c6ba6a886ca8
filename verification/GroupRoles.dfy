/** Who is creator or admin after any sequence of packets, told from the packets alone. */
module GroupRoles {
  import opened Wrappers
  import opened Groups
  import opened GroupCauses
  import opened Runs

  // ---------------------------------------------------------------------------
  // Admin rows
  // ---------------------------------------------------------------------------

  /** A revocation, a leave or kick, or the deletion of the group takes u's row out of Admin. */
  predicate Clears(t: Tables, r: Request, g: int, u: Name)
  {
    Demoted(t, r, g, u) || Left(t, r, g, u) || Destroyed(t, r, g)
  }

  lemma AdminApply(t: Tables, e: Effect, g: int, u: Name)
    requires Linked(t) && Sound(t, e)
    ensures Apply(t, e).Is(g, u, Admin) <==>
            || (e == SetRole(g, u, Admin) && t.Has(g, u))
            || (t.Is(g, u, Admin) && e != SetRole(g, u, Member) && e != Remove(g, u) && e != Drop(g))
  {
  }

  lemma AdminStep(ts: seq<Tables>, rs: seq<Request>, i: nat, g: int, u: Name)
    requires History(ts, rs) && i < |rs|
    ensures ts[i + 1].Is(g, u, Admin) <==>
            Promoted(ts[i], rs[i], g, u) || (ts[i].Is(g, u, Admin) && !Clears(ts[i], rs[i], g, u))
  {
    HistoryIsConsistent(ts, rs, i);
    assert Follows(ts, rs, i);
    EffectIsSound(ts[i], rs[i]);
    AdminApply(ts[i], EffectOf(ts[i], rs[i]), g, u);
    RoleEffect(ts[i], rs[i], g, u);
    LeftEffect(ts[i], rs[i], g, u);
    DestroyedEffect(ts[i], rs[i], g);
  }

  /** Request i granted u admin, by the creator of that moment, and nothing has cleared it since. */
  ghost predicate AdminSince(ts: seq<Tables>, rs: seq<Request>, i: int, g: int, u: Name)
    requires |ts| > |rs|
  {
    && 0 <= i < |rs|
    && Promoted(ts[i], rs[i], g, u)
    && forall j :: i < j < |rs| ==> !Clears(ts[j], rs[j], g, u)
  }

  /** An admin row exists exactly when some grant to that member still stands. */
  lemma AdminTrace(ts: seq<Tables>, rs: seq<Request>, g: int, u: Name)
    requires History(ts, rs)
    ensures ts[|rs|].Is(g, u, Admin) <==> exists i :: AdminSince(ts, rs, i, g, u)
  {
    var n := |rs|;
    var on := seq(n + 1, i requires 0 <= i <= n => ts[i].Is(g, u, Admin));
    var set_ := seq(n, i requires 0 <= i < n => Promoted(ts[i], rs[i], g, u));
    var clear := seq(n, i requires 0 <= i < n => Clears(ts[i], rs[i], g, u));
    forall i | 0 <= i < n ensures on[i + 1] == (set_[i] || (on[i] && !clear[i])) {
      AdminStep(ts, rs, i, g, u);
    }
    Latch(on, set_, clear);
    forall i | 0 <= i < n
      ensures AdminSince(ts, rs, i, g, u) <==> set_[i] && forall j :: i < j < n ==> !clear[j]
    {
      assert forall j :: i < j < n ==> clear[j] == Clears(ts[j], rs[j], g, u);
    }
  }

  // ---------------------------------------------------------------------------
  // The creator row
  // ---------------------------------------------------------------------------

  /** The founder's own name in the member list overwrites the creator row at once. */
  predicate ListsSelf(r: Request) { r.command.CreateGroupOf? && r.actor in r.command.invited }

  lemma FoundingStep(t: Tables, r: Request, g: int)
    requires Consistent(t) && g in Step(t, r).groups && g !in t.groups
    ensures Founded(t, r, g) && Step(t, r).groups[g].creator == r.actor
    ensures Step(t, r).Is(g, r.actor, Creator) <==> !ListsSelf(r)
  {
    assert EffectOf(t, r).NewGroup?;
  }

  lemma CreatorApply(t: Tables, e: Effect, g: int)
    requires Linked(t) && Sound(t, e) && g in Apply(t, e).groups && g in t.groups
    ensures var c := t.groups[g].creator;
            && Apply(t, e).groups[g] == t.groups[g]
            && (Apply(t, e).Is(g, c, Creator) <==> t.Is(g, c, Creator) && e != SetRole(g, c, Admin))
  {
  }

  lemma CreatorStep(t: Tables, r: Request, g: int)
    requires Consistent(t) && g in Step(t, r).groups && g in t.groups
    ensures Step(t, r).groups[g] == t.groups[g]
    ensures Step(t, r).Is(g, t.groups[g].creator, Creator)
       <==> t.Is(g, t.groups[g].creator, Creator) && !Promoted(t, r, g, r.actor)
  {
    EffectIsSound(t, r);
    CreatorApply(t, EffectOf(t, r), g);
    if t.Is(g, r.actor, Creator) {
      assert (g, r.actor) in t.members;
    }
  }

  /** Among the first n requests, the founder of g listed themself. */
  ghost predicate SelfListed(ts: seq<Tables>, rs: seq<Request>, n: int, g: int)
    requires n <= |rs| < |ts|
  {
    exists i :: 0 <= i < n && Founded(ts[i], rs[i], g) && ListsSelf(rs[i])
  }

  /** Among the first n requests, the creator of g granted admin to their own name. */
  ghost predicate SelfGranted(ts: seq<Tables>, rs: seq<Request>, n: int, g: int)
    requires n <= |rs| < |ts|
  {
    exists i :: 0 <= i < n && Promoted(ts[i], rs[i], g, rs[i].actor)
  }

  lemma NextGroupApply(t: Tables, e: Effect)
    ensures Apply(t, e).nextGroup == t.nextGroup + if e.NewGroup? then 1 else 0
  {
  }

  lemma {:induction false} NextGroupGrows(ts: seq<Tables>, rs: seq<Request>, i: nat, j: nat)
    requires History(ts, rs) && i <= j <= |rs|
    ensures ts[i].nextGroup <= ts[j].nextGroup
    ensures i < j && Creates(ts[i], rs[i]) ==> ts[i].nextGroup < ts[j].nextGroup
    decreases j - i
  {
    if i < j {
      assert Follows(ts, rs, i);
      NextGroupApply(ts[i], EffectOf(ts[i], rs[i]));
      NextGroupGrows(ts, rs, i + 1, j);
    }
  }

  /** No request before its founding can concern a group that does not exist yet. */
  lemma NothingBeforeFounding(ts: seq<Tables>, rs: seq<Request>, n: nat, g: int)
    requires History(ts, rs) && n <= |rs| && ts[n].nextGroup <= g
    ensures !SelfListed(ts, rs, n, g) && !SelfGranted(ts, rs, n, g)
  {
    forall i | 0 <= i < n
      ensures !Founded(ts[i], rs[i], g) && !Promoted(ts[i], rs[i], g, rs[i].actor)
    {
      NextGroupGrows(ts, rs, i, n);
      HistoryIsConsistent(ts, rs, i);
    }
  }

  /**
   * While a group exists, its creator row is there exactly when the founder did not list
   * themself and the creator never granted admin to their own name.
   */
  lemma {:induction false} CreatorRemainsIff(ts: seq<Tables>, rs: seq<Request>, n: nat, g: int)
    requires History(ts, rs) && n <= |rs| && g in ts[n].groups
    ensures ts[n].Is(g, ts[n].groups[g].creator, Creator)
       <==> !SelfListed(ts, rs, n, g) && !SelfGranted(ts, rs, n, g)
  {
    if n > 0 {
      var t, r := ts[n - 1], rs[n - 1];
      HistoryIsConsistent(ts, rs, n - 1);
      assert Follows(ts, rs, n - 1);
      if g in t.groups {
        CreatorStep(t, r, g);
        CreatorRemainsIff(ts, rs, n - 1, g);
      } else {
        FoundingStep(t, r, g);
        NothingBeforeFounding(ts, rs, n - 1, g);
      }
    }
  }

  /** At most one creator row per group, and it names the recorded creator. */
  lemma CreatorIsUnique(ts: seq<Tables>, rs: seq<Request>, n: nat, g: int, u: Name, v: Name)
    requires History(ts, rs) && n <= |rs| && ts[n].Is(g, u, Creator) && ts[n].Is(g, v, Creator)
    ensures u == v && g in ts[n].groups && ts[n].groups[g].creator == u
  {
    HistoryIsConsistent(ts, rs, n);
    assert (g, u) in ts[n].members && (g, v) in ts[n].members;
  }

  /** "Exactly one creator" fails as coded: a founder who lists themself leaves none. */
  lemma GroupWithoutCreator() returns (ts: seq<Tables>, rs: seq<Request>)
    ensures History(ts, rs) && |rs| == 2 && 1 in ts[2].groups
    ensures forall u :: !ts[2].Is(1, u, Creator)
  {
    rs := [Request("", RegisterUser("ann"), 0, None), Request("ann", CreateGroupOf("g", ["ann"], []), 0, None)];
    var t := EMPTY.(users := {"ann"});
    ts := [EMPTY, t, Step(t, rs[1])];
    assert EffectOf(EMPTY, rs[0]) == AddUser("ann");
    assert EffectOf(t, rs[1]) == NewGroup("g", "ann", ["ann"], []);
    assert ts[2].members == map[(1, "ann") := Member];
    forall i | 0 <= i < 2 ensures Follows(ts, rs, i) {
      if i == 0 {} else {}
    }
  }
}
