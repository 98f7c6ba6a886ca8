/** What each group table holds after any sequence of packets, told from the packets. */
module GroupTables {
  import opened Wrappers
  import opened FieldCodecs
  import opened Groups
  import opened GroupCauses
  import opened Runs

  // ---------------------------------------------------------------------------
  // Users
  // ---------------------------------------------------------------------------

  predicate Registered(r: Request, u: Name) { u != "" && r.command == RegisterUser(u) }

  lemma UserStep(ts: seq<Tables>, rs: seq<Request>, i: nat, u: Name)
    requires History(ts, rs) && i < |rs|
    ensures u in ts[i + 1].users <==> Registered(rs[i], u) || u in ts[i].users
  {
    assert Follows(ts, rs, i);
  }

  /** A user exists exactly when somebody has registered under that name. */
  lemma {:induction false} UserTrace(ts: seq<Tables>, rs: seq<Request>, n: nat, u: Name)
    requires History(ts, rs) && n <= |rs|
    ensures u in ts[n].users <==> exists i :: 0 <= i < n && Registered(rs[i], u)
  {
    if n > 0 {
      UserTrace(ts, rs, n - 1, u);
      UserStep(ts, rs, n - 1, u);
    }
  }

  // ---------------------------------------------------------------------------
  // Groups
  // ---------------------------------------------------------------------------

  /** This packet founds group g with that name and creator. */
  predicate FoundedAs(t: Tables, r: Request, g: int, row: GroupRow)
  {
    Founded(t, r, g) && row == GroupRow(r.command.title, r.actor)
  }

  predicate IsGroup(t: Tables, g: int, row: GroupRow) { g in t.groups && t.groups[g] == row }

  lemma GroupStep(ts: seq<Tables>, rs: seq<Request>, i: nat, g: int, row: GroupRow)
    requires History(ts, rs) && i < |rs|
    ensures IsGroup(ts[i + 1], g, row) <==>
            FoundedAs(ts[i], rs[i], g, row) || (IsGroup(ts[i], g, row) && !Destroyed(ts[i], rs[i], g))
  {
    HistoryIsConsistent(ts, rs, i);
    assert Follows(ts, rs, i);
    FoundedEffect(ts[i], rs[i], g);
    DestroyedEffect(ts[i], rs[i], g);
    GroupApply(ts[i], EffectOf(ts[i], rs[i]), g, row);
  }

  lemma GroupApply(t: Tables, e: Effect, g: int, row: GroupRow)
    requires Linked(t)
    ensures IsGroup(Apply(t, e), g, row) <==>
            || (e.NewGroup? && t.nextGroup == g && row == GroupRow(e.name, e.creator))
            || (IsGroup(t, g, row) && e != Drop(g))
  {
  }

  /** Request i founded the group so, and it has not been deleted since. */
  ghost predicate StandsSince(ts: seq<Tables>, rs: seq<Request>, i: int, g: int, row: GroupRow)
    requires |ts| > |rs|
  {
    0 <= i < |rs| && FoundedAs(ts[i], rs[i], g, row) && forall j :: i < j < |rs| ==> !Destroyed(ts[j], rs[j], g)
  }

  /** A group exists, with its name and creator, exactly from its founding to its deletion. */
  lemma GroupTrace(ts: seq<Tables>, rs: seq<Request>, g: int, row: GroupRow)
    requires History(ts, rs)
    ensures IsGroup(ts[|rs|], g, row) <==> exists i :: StandsSince(ts, rs, i, g, row)
  {
    var n := |rs|;
    var on := seq(n + 1, i requires 0 <= i <= n => IsGroup(ts[i], g, row));
    var set_ := seq(n, i requires 0 <= i < n => FoundedAs(ts[i], rs[i], g, row));
    var clear := seq(n, i requires 0 <= i < n => Destroyed(ts[i], rs[i], g));
    forall i | 0 <= i < n ensures on[i + 1] == (set_[i] || (on[i] && !clear[i])) {
      GroupStep(ts, rs, i, g, row);
    }
    Latch(on, set_, clear);
    forall i | 0 <= i < n
      ensures StandsSince(ts, rs, i, g, row) <==> set_[i] && forall j :: i < j < n ==> !clear[j]
    {
      assert forall j :: i < j < n ==> clear[j] == Destroyed(ts[j], rs[j], g);
    }
  }

  // ---------------------------------------------------------------------------
  // Members
  // ---------------------------------------------------------------------------

  predicate Gone(t: Tables, r: Request, g: int, u: Name) { Left(t, r, g, u) || Destroyed(t, r, g) }

  lemma MemberApply(t: Tables, e: Effect, g: int, u: Name)
    requires Linked(t)
    ensures (g, u) in Apply(t, e).members <==>
            || (e.NewGroup? && t.nextGroup == g && (u == e.creator || u in e.invited))
            || (e.Exchange? && e.g == g && |e.pairs| == 1 && e.pairs[0].0 == u && u in t.users)
            || ((g, u) in t.members && e != Remove(g, u) && e != Drop(g))
  {
  }

  lemma MemberStep(ts: seq<Tables>, rs: seq<Request>, i: nat, g: int, u: Name)
    requires History(ts, rs) && i < |rs|
    ensures (g, u) in ts[i + 1].members <==>
            Joined(ts[i], rs[i], g, u) || ((g, u) in ts[i].members && !Gone(ts[i], rs[i], g, u))
  {
    HistoryIsConsistent(ts, rs, i);
    assert Follows(ts, rs, i);
    FoundedEffect(ts[i], rs[i], g);
    ExchangedEffect(ts[i], rs[i], g);
    LeftEffect(ts[i], rs[i], g, u);
    DestroyedEffect(ts[i], rs[i], g);
    MemberApply(ts[i], EffectOf(ts[i], rs[i]), g, u);
  }

  /** Request i made u a member, and u has neither left nor been kicked since. */
  ghost predicate MemberSince(ts: seq<Tables>, rs: seq<Request>, i: int, g: int, u: Name)
    requires |ts| > |rs|
  {
    0 <= i < |rs| && Joined(ts[i], rs[i], g, u) && forall j :: i < j < |rs| ==> !Gone(ts[j], rs[j], g, u)
  }

  /**
   * A member row exists exactly from a founding, an invitation or a key exchange to the member's
   * own leave, a kick by somebody entitled to it, or the deletion by the creator.
   */
  lemma MemberTrace(ts: seq<Tables>, rs: seq<Request>, g: int, u: Name)
    requires History(ts, rs)
    ensures (g, u) in ts[|rs|].members <==> exists i :: MemberSince(ts, rs, i, g, u)
  {
    var n := |rs|;
    var on := seq(n + 1, i requires 0 <= i <= n => (g, u) in ts[i].members);
    var set_ := seq(n, i requires 0 <= i < n => Joined(ts[i], rs[i], g, u));
    var clear := seq(n, i requires 0 <= i < n => Gone(ts[i], rs[i], g, u));
    forall i | 0 <= i < n ensures on[i + 1] == (set_[i] || (on[i] && !clear[i])) {
      MemberStep(ts, rs, i, g, u);
    }
    Latch(on, set_, clear);
    forall i | 0 <= i < n
      ensures MemberSince(ts, rs, i, g, u) <==> set_[i] && forall j :: i < j < n ==> !clear[j]
    {
      assert forall j :: i < j < n ==> clear[j] == Gone(ts[j], rs[j], g, u);
    }
  }

  // ---------------------------------------------------------------------------
  // Messages
  // ---------------------------------------------------------------------------

  predicate IsMessage(t: Tables, m: int, row: MessageRow) { m in t.messages && t.messages[m] == row }

  lemma MessageApply(t: Tables, e: Effect, m: int, row: MessageRow)
    requires Linked(t) && Sound(t, e)
    ensures IsMessage(Apply(t, e), m, row) <==>
            || (e.NewMessage? && t.nextMessage == m && row == e.row)
            || (IsMessage(t, m, row) && e != Drop(row.group))
  {
  }

  lemma MessageStep(ts: seq<Tables>, rs: seq<Request>, i: nat, m: int, row: MessageRow)
    requires History(ts, rs) && i < |rs|
    ensures IsMessage(ts[i + 1], m, row) <==>
            Posted(ts[i], rs[i], m, row) || (IsMessage(ts[i], m, row) && !Destroyed(ts[i], rs[i], row.group))
  {
    HistoryIsConsistent(ts, rs, i);
    assert Follows(ts, rs, i);
    EffectIsSound(ts[i], rs[i]);
    PostedEffect(ts[i], rs[i], m, row);
    DestroyedEffect(ts[i], rs[i], row.group);
    MessageActor(ts[i], rs[i]);
    MessageApply(ts[i], EffectOf(ts[i], rs[i]), m, row);
  }

  lemma MessageActor(t: Tables, r: Request)
    ensures EffectOf(t, r).NewMessage? ==> EffectOf(t, r).actor == r.actor && EffectOf(t, r).g == EffectOf(t, r).row.group
  {
  }

  ghost predicate KeptSince(ts: seq<Tables>, rs: seq<Request>, i: int, m: int, row: MessageRow)
    requires |ts| > |rs|
  {
    && 0 <= i < |rs| && Posted(ts[i], rs[i], m, row)
    && forall j :: i < j < |rs| ==> !Destroyed(ts[j], rs[j], row.group)
  }

  /** A message is kept, as its sender wrote it, from its sending to the deletion of its group. */
  lemma MessageTrace(ts: seq<Tables>, rs: seq<Request>, m: int, row: MessageRow)
    requires History(ts, rs)
    ensures IsMessage(ts[|rs|], m, row) <==> exists i :: KeptSince(ts, rs, i, m, row)
  {
    var n := |rs|;
    var on := seq(n + 1, i requires 0 <= i <= n => IsMessage(ts[i], m, row));
    var set_ := seq(n, i requires 0 <= i < n => Posted(ts[i], rs[i], m, row));
    var clear := seq(n, i requires 0 <= i < n => Destroyed(ts[i], rs[i], row.group));
    forall i | 0 <= i < n ensures on[i + 1] == (set_[i] || (on[i] && !clear[i])) {
      MessageStep(ts, rs, i, m, row);
    }
    Latch(on, set_, clear);
    forall i | 0 <= i < n
      ensures KeptSince(ts, rs, i, m, row) <==> set_[i] && forall j :: i < j < n ==> !clear[j]
    {
      assert forall j :: i < j < n ==> clear[j] == Destroyed(ts[j], rs[j], row.group);
    }
  }

  // ---------------------------------------------------------------------------
  // Wrapped keys
  // ---------------------------------------------------------------------------

  /** The pairs up to and including j all name known users. */
  predicate KnownUpTo(users: set<Name>, ps: seq<Pair>, j: int)
  {
    forall i :: 0 <= i <= j && i < |ps| ==> ps[i].0 in users
  }

  /** Pair j is the last for its name before the first unknown user. */
  predicate LastKept(users: set<Name>, ps: seq<Pair>, j: int)
  {
    && 0 <= j < |ps| && KnownUpTo(users, ps, j)
    && forall k :: j < k < |ps| && ps[k].0 == ps[j].0 ==> !KnownUpTo(users, ps, k)
  }

  /** Saving the pairs one by one, until one names an unknown user, leaves u with key v. */
  ghost predicate Saves(users: set<Name>, ps: seq<Pair>, u: Name, v: string)
  {
    exists j :: LastKept(users, ps, j) && ps[j] == (u, v)
  }

  /** Some pair for u is saved. */
  ghost predicate Overwrites(users: set<Name>, ps: seq<Pair>, u: Name)
  {
    exists j :: 0 <= j < |ps| && ps[j].0 == u && KnownUpTo(users, ps, j)
  }

  lemma KnownTail(users: set<Name>, ps: seq<Pair>, j: int)
    requires |ps| > 0 && ps[0].0 in users && j >= 0
    ensures KnownUpTo(users, ps, j + 1) <==> KnownUpTo(users, ps[1..], j)
  {
    if KnownUpTo(users, ps, j + 1) {
      forall i | 0 <= i <= j && i < |ps[1..]| ensures ps[1..][i].0 in users { assert ps[1..][i] == ps[i + 1]; }
    } else {
      var i :| 0 <= i <= j + 1 && i < |ps| && ps[i].0 !in users;
      assert ps[1..][i - 1] == ps[i];
    }
  }

  lemma SavesHead(users: set<Name>, ps: seq<Pair>, u: Name, v: string)
    requires |ps| > 0 && ps[0].0 in users
    ensures Overwrites(users, ps, u) <==> ps[0].0 == u || Overwrites(users, ps[1..], u)
    ensures Saves(users, ps, u, v) <==>
            Saves(users, ps[1..], u, v) || (ps[0] == (u, v) && !Overwrites(users, ps[1..], u))
  {
    var rest := ps[1..];
    forall j | 0 <= j < |rest| ensures rest[j] == ps[j + 1] && (KnownUpTo(users, ps, j + 1) <==> KnownUpTo(users, rest, j)) {
      KnownTail(users, ps, j);
    }
    assert KnownUpTo(users, ps, 0);
    HeadOverwrites(users, ps, u);
    HeadSaves(users, ps, u, v);
  }

  lemma HeadOverwrites(users: set<Name>, ps: seq<Pair>, u: Name)
    requires |ps| > 0 && KnownUpTo(users, ps, 0)
    requires forall j :: 0 <= j < |ps| - 1 ==> (KnownUpTo(users, ps, j + 1) <==> KnownUpTo(users, ps[1..], j))
    ensures Overwrites(users, ps, u) <==> ps[0].0 == u || Overwrites(users, ps[1..], u)
  {
    if Overwrites(users, ps, u) && ps[0].0 != u {
      var j :| 0 <= j < |ps| && ps[j].0 == u && KnownUpTo(users, ps, j);
      assert ps[1..][j - 1] == ps[j] && KnownUpTo(users, ps, (j - 1) + 1);
    }
    if Overwrites(users, ps[1..], u) {
      var j :| 0 <= j < |ps[1..]| && ps[1..][j].0 == u && KnownUpTo(users, ps[1..], j);
      assert ps[j + 1].0 == u && KnownUpTo(users, ps, j + 1);
    }
  }

  lemma LastKeptTail(users: set<Name>, ps: seq<Pair>, j: int)
    requires |ps| > 0 && 0 <= j < |ps| - 1
    requires forall j :: 0 <= j < |ps| - 1 ==> (KnownUpTo(users, ps, j + 1) <==> KnownUpTo(users, ps[1..], j))
    ensures LastKept(users, ps, j + 1) <==> LastKept(users, ps[1..], j)
  {
    var rest := ps[1..];
    if LastKept(users, ps, j + 1) {
      forall k | j < k < |rest| && rest[k].0 == rest[j].0 ensures !KnownUpTo(users, rest, k) {
        assert ps[k + 1].0 == ps[j + 1].0;
      }
    }
    if LastKept(users, rest, j) {
      forall k | j + 1 < k < |ps| && ps[k].0 == ps[j + 1].0 ensures !KnownUpTo(users, ps, k) {
        assert rest[k - 1] == ps[k] && KnownUpTo(users, ps, (k - 1) + 1) == KnownUpTo(users, rest, k - 1);
      }
    }
  }

  lemma HeadSaves(users: set<Name>, ps: seq<Pair>, u: Name, v: string)
    requires |ps| > 0 && KnownUpTo(users, ps, 0)
    requires forall j :: 0 <= j < |ps| - 1 ==> (KnownUpTo(users, ps, j + 1) <==> KnownUpTo(users, ps[1..], j))
    ensures Saves(users, ps, u, v) <==>
            Saves(users, ps[1..], u, v) || (ps[0] == (u, v) && !Overwrites(users, ps[1..], u))
  {
    var rest := ps[1..];
    if Saves(users, ps, u, v) {
      var j :| LastKept(users, ps, j) && ps[j] == (u, v);
      if j > 0 {
        LastKeptTail(users, ps, j - 1);
        assert rest[j - 1] == (u, v);
      } else {
        forall k | 0 <= k < |rest| && rest[k].0 == u ensures !KnownUpTo(users, rest, k) {
          assert ps[k + 1].0 == u;
        }
      }
    }
    if Saves(users, rest, u, v) {
      var j :| LastKept(users, rest, j) && rest[j] == (u, v);
      LastKeptTail(users, ps, j);
      assert ps[j + 1] == (u, v);
    }
    if ps[0] == (u, v) && !Overwrites(users, rest, u) {
      forall k | 0 < k < |ps| && ps[k].0 == u ensures !KnownUpTo(users, ps, k) {
        assert rest[k - 1].0 == u && KnownUpTo(users, ps, (k - 1) + 1) == KnownUpTo(users, rest, k - 1);
      }
      assert LastKept(users, ps, 0);
    }
  }

  predicate HasKey(keys: map<(int, Name), string>, g: int, u: Name, v: string)
  {
    (g, u) in keys && keys[(g, u)] == v
  }

  /** The saving loop: the last pair before the stop wins, everything else stays. */
  lemma {:induction false} SaveKeysIs(keys: map<(int, Name), string>, users: set<Name>, g: int, ps: seq<Pair>,
                                      h: int, u: Name, v: string)
    ensures HasKey(SaveKeys(keys, users, g, ps), h, u, v) <==>
            || (h == g && Saves(users, ps, u, v))
            || (HasKey(keys, h, u, v) && !(h == g && Overwrites(users, ps, u)))
    decreases |ps|
  {
    if ps == [] {
    } else if ps[0].0 !in users {
      forall j | 0 <= j ensures !KnownUpTo(users, ps, j) {}
    } else {
      SaveKeysIs(keys[(g, ps[0].0) := ps[0].1], users, g, ps[1..], h, u, v);
      SavesHead(users, ps, u, v);
    }
  }

  /** A rotation: several pairs of distinct known users replace every key of the group. */
  predicate Rotated(t: Tables, r: Request, g: int)
  {
    && Exchanged(t, r, g) && |r.command.pairs| > 1 && DistinctNames(r.command.pairs)
    && forall p :: p in r.command.pairs ==> p.0 in t.users
  }

  /** One pair for a known user. */
  predicate HandedTo(t: Tables, r: Request, g: int, u: Name)
  {
    Exchanged(t, r, g) && |r.command.pairs| == 1 && r.command.pairs[0].0 == u && u in t.users
  }

  /** This packet leaves u with key v for group g. */
  ghost predicate GivesKey(t: Tables, r: Request, g: int, u: Name, v: string)
  {
    || (Founded(t, r, g) && Saves(t.users, r.command.pairs, u, v))
    || (HandedTo(t, r, g, u) && r.command.pairs[0].1 == v)
    || (Rotated(t, r, g) && (u, v) in r.command.pairs)
  }

  /** This packet takes u's key for group g away, or puts another in its place. */
  ghost predicate TakesKey(t: Tables, r: Request, g: int, u: Name)
  {
    || (Founded(t, r, g) && Overwrites(t.users, r.command.pairs, u))
    || HandedTo(t, r, g, u) || Rotated(t, r, g)
    || Left(t, r, g, u) || Destroyed(t, r, g)
  }

  /** With distinct known names every pair is saved. */
  lemma AllSaved(users: set<Name>, ps: seq<Pair>, u: Name, v: string)
    requires DistinctNames(ps) && forall p :: p in ps ==> p.0 in users
    ensures Saves(users, ps, u, v) <==> (u, v) in ps
  {
    if (u, v) in ps {
      var j :| 0 <= j < |ps| && ps[j] == (u, v);
      assert KnownUpTo(users, ps, j);
      assert LastKept(users, ps, j);
    }
  }

  lemma ExchangeApply(t: Tables, g: int, ps: seq<Pair>, h: int, u: Name, v: string)
    ensures var keys := ExchangeKeys(t, g, ps).keys;
            var one := |ps| == 1 && ps[0].0 in t.users;
            var all := |ps| > 1 && DistinctNames(ps) && forall p :: p in ps ==> p.0 in t.users;
            HasKey(keys, h, u, v) <==>
            || (h == g && one && ps[0] == (u, v))
            || (h == g && all && (u, v) in ps)
            || (HasKey(t.keys, h, u, v) && !(h == g && one && ps[0].0 == u) && !(h == g && all))
  {
    if |ps| > 1 && DistinctNames(ps) && forall p :: p in ps ==> p.0 in t.users {
      var others := map k | k in t.keys && k.0 != g :: t.keys[k];
      SaveKeysIs(others, t.users, g, ps, h, u, v);
      AllSaved(t.users, ps, u, v);
    }
  }

  lemma KeyApply(t: Tables, e: Effect, g: int, u: Name, v: string)
    requires !e.Exchange?
    ensures HasKey(Apply(t, e).keys, g, u, v) <==>
            || (e.NewGroup? && t.nextGroup == g && Saves(t.users, e.pairs, u, v))
            || (HasKey(t.keys, g, u, v) && e != Remove(g, u) && e != Drop(g)
                && !(e.NewGroup? && t.nextGroup == g && Overwrites(t.users, e.pairs, u)))
  {
    if e.NewGroup? { SaveKeysIs(t.keys, t.users, t.nextGroup, e.pairs, g, u, v); }
  }

  lemma KeyStep(ts: seq<Tables>, rs: seq<Request>, i: nat, g: int, u: Name, v: string)
    requires History(ts, rs) && i < |rs|
    ensures HasKey(ts[i + 1].keys, g, u, v) <==>
            || GivesKey(ts[i], rs[i], g, u, v)
            || (HasKey(ts[i].keys, g, u, v) && !TakesKey(ts[i], rs[i], g, u))
  {
    var t, r := ts[i], rs[i];
    assert Follows(ts, rs, i);
    FoundedEffect(t, r, g);
    ExchangedEffect(t, r, g);
    LeftEffect(t, r, g, u);
    DestroyedEffect(t, r, g);
    var e := EffectOf(t, r);
    if e.Exchange? { ExchangeApply(t, e.g, e.pairs, g, u, v); } else { KeyApply(t, e, g, u, v); }
  }

  /** Request i gave u this key for the group, and nothing has replaced or removed it since. */
  ghost predicate KeySince(ts: seq<Tables>, rs: seq<Request>, i: int, g: int, u: Name, v: string)
    requires |ts| > |rs|
  {
    0 <= i < |rs| && GivesKey(ts[i], rs[i], g, u, v) && forall j :: i < j < |rs| ==> !TakesKey(ts[j], rs[j], g, u)
  }

  /**
   * The key table holds v for u in group g exactly when the founding of g, or a key exchange by its
   * creator or an admin, gave u that key, no later one replaced it, u has not left, and g stands.
   */
  lemma KeyTrace(ts: seq<Tables>, rs: seq<Request>, g: int, u: Name, v: string)
    requires History(ts, rs)
    ensures HasKey(ts[|rs|].keys, g, u, v) <==> exists i :: KeySince(ts, rs, i, g, u, v)
  {
    var n := |rs|;
    var on := seq(n + 1, i requires 0 <= i <= n => HasKey(ts[i].keys, g, u, v));
    var set_ := seq(n, i requires 0 <= i < n => GivesKey(ts[i], rs[i], g, u, v));
    var clear := seq(n, i requires 0 <= i < n => TakesKey(ts[i], rs[i], g, u));
    forall i | 0 <= i < n ensures on[i + 1] == (set_[i] || (on[i] && !clear[i])) {
      KeyStep(ts, rs, i, g, u, v);
    }
    Latch(on, set_, clear);
    forall i | 0 <= i < n
      ensures KeySince(ts, rs, i, g, u, v) <==> set_[i] && forall j :: i < j < n ==> !clear[j]
    {
      assert forall j :: i < j < n ==> clear[j] == TakesKey(ts[j], rs[j], g, u);
    }
  }
}
