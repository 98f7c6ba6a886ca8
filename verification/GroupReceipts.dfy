/** Which receipt rows the server holds after any sequence of packets, and what they say. */
module GroupReceipts {
  import opened Wrappers
  import opened Groups
  import opened GroupCauses
  import opened Runs

  type RowKey = (int, Name)

  /** Message k.0 is sent while k.1 is a member and not the session's user. */
  predicate Snapshots(t: Tables, r: Request, k: RowKey)
  {
    && r.command.SendTo? && t.nextMessage == k.0 && (r.command.g, r.actor) in t.members
    && r.command.from in t.users && r.stamp.Some? && (r.command.g, k.1) in t.members && k.1 != r.actor
  }

  /** k.1 leaves or is kicked out of the message's group, or the whole group goes. */
  predicate Prunes(t: Tables, r: Request, k: RowKey)
  {
    k.0 in t.messages && (Left(t, r, t.messages[k.0].group, k.1) || Destroyed(t, r, t.messages[k.0].group))
  }

  lemma RowApply(t: Tables, e: Effect, k: RowKey)
    requires Consistent(t) && Sound(t, e)
    ensures k in Apply(t, e).receipts <==>
            || (e.NewMessage? && t.nextMessage == k.0 && t.Has(e.g, k.1) && k.1 != e.actor)
            || (k in t.receipts && e != Remove(t.messages[k.0].group, k.1)
                && e != Drop(t.messages[k.0].group))
  {
    match e
    case NewMessage(g, actor, _) => assert k.1 in t.MembersOf(g) <==> (g, k.1) in t.members;
    case _ =>
  }

  lemma RowStep(ts: seq<Tables>, rs: seq<Request>, i: nat, k: RowKey)
    requires History(ts, rs) && i < |rs|
    ensures k in ts[i + 1].receipts <==>
            Snapshots(ts[i], rs[i], k) || (k in ts[i].receipts && !Prunes(ts[i], rs[i], k))
  {
    HistoryIsConsistent(ts, rs, i);
    assert Follows(ts, rs, i);
    EffectIsSound(ts[i], rs[i]);
    RowApply(ts[i], EffectOf(ts[i], rs[i]), k);
    if k.0 in ts[i].messages {
      LeftEffect(ts[i], rs[i], ts[i].messages[k.0].group, k.1);
      DestroyedEffect(ts[i], rs[i], ts[i].messages[k.0].group);
    }
  }

  /** Request i sent the message while k.1 was another member, who has stayed ever since. */
  ghost predicate RecipientSince(ts: seq<Tables>, rs: seq<Request>, i: int, k: RowKey)
    requires |ts| > |rs|
  {
    && 0 <= i < |rs| && Snapshots(ts[i], rs[i], k)
    && forall j :: i < j < |rs| ==> !Prunes(ts[j], rs[j], k)
  }

  /**
   * A receipt row exists exactly for those who were members other than the session's user when
   * the message was sent and have not left since; a rejoin does not bring a row back.
   */
  lemma ReceiptTrace(ts: seq<Tables>, rs: seq<Request>, k: RowKey)
    requires History(ts, rs)
    ensures k in ts[|rs|].receipts <==> exists i :: RecipientSince(ts, rs, i, k)
  {
    var n := |rs|;
    var on := seq(n + 1, i requires 0 <= i <= n => k in ts[i].receipts);
    var set_ := seq(n, i requires 0 <= i < n => Snapshots(ts[i], rs[i], k));
    var clear := seq(n, i requires 0 <= i < n => Prunes(ts[i], rs[i], k));
    forall i | 0 <= i < n ensures on[i + 1] == (set_[i] || (on[i] && !clear[i])) {
      RowStep(ts, rs, i, k);
    }
    Latch(on, set_, clear);
    forall i | 0 <= i < n
      ensures RecipientSince(ts, rs, i, k) <==> set_[i] && forall j :: i < j < n ==> !clear[j]
    {
      assert forall j :: i < j < n ==> clear[j] == Prunes(ts[j], rs[j], k);
    }
  }

  // ---------------------------------------------------------------------------
  // Stamps
  // ---------------------------------------------------------------------------

  /** Stamps that are set stay as they are. */
  predicate Keeps(a: Receipt, b: Receipt)
  {
    (a.seen.Some? ==> b.seen == a.seen) && (a.delivered.Some? ==> b.delivered == a.delivered)
  }

  lemma StampApply(t: Tables, e: Effect, k: RowKey)
    requires Consistent(t) && k in t.receipts && k in Apply(t, e).receipts
    ensures var a, b := t.receipts[k], Apply(t, e).receipts[k];
            var hit := e.Mark? && e.user == k.1 && k.0 in t.messages
                       && e.g == t.messages[k.0].group && e.stamp == t.messages[k.0].stamp;
            && Keeps(a, b)
            && (b.seen.Some? <==> a.seen.Some? || (hit && e.seen))
            && (b.delivered.Some? <==> a.delivered.Some? || hit)
            && (a.seen.None? && b.seen.Some? ==> b.seen == Some(e.now))
            && (a.delivered.None? && b.delivered.Some? ==> b.delivered == Some(e.now))
  {
  }

  /** Who sets a stamp, and to what: the clock of the first receipt. */
  lemma StampStep(ts: seq<Tables>, rs: seq<Request>, i: nat, k: RowKey)
    requires History(ts, rs) && i < |rs| && k in ts[i].receipts && k in ts[i + 1].receipts
    ensures var a, b := ts[i].receipts[k], ts[i + 1].receipts[k];
            && Keeps(a, b)
            && (b.seen.Some? <==> a.seen.Some? || Read(ts[i], rs[i], k.0, k.1))
            && (b.delivered.Some? <==>
                a.delivered.Some? || Read(ts[i], rs[i], k.0, k.1) || Acknowledged(ts[i], rs[i], k.0, k.1))
            && (a.seen.None? && b.seen.Some? ==> b.seen == Some(rs[i].now))
            && (a.delivered.None? && b.delivered.Some? ==> b.delivered == Some(rs[i].now))
  {
    HistoryIsConsistent(ts, rs, i);
    assert Follows(ts, rs, i);
    StampApply(ts[i], EffectOf(ts[i], rs[i]), k);
    MarkEffect(ts[i], rs[i], k.0, k.1);
    MarkTimes(ts[i], rs[i]);
  }

  lemma MarkTimes(t: Tables, r: Request)
    ensures EffectOf(t, r).Mark? ==> EffectOf(t, r).now == r.now
  {
  }

  lemma FreshApply(t: Tables, e: Effect, k: RowKey)
    requires Consistent(t) && k !in t.receipts && k in Apply(t, e).receipts
    ensures Apply(t, e).receipts[k] == Receipt(None, None) && t.nextMessage == k.0
  {
  }

  lemma NextMessageApply(t: Tables, e: Effect)
    ensures Apply(t, e).nextMessage >= t.nextMessage
  {
  }

  lemma {:induction false} NextMessageGrows(ts: seq<Tables>, rs: seq<Request>, i: nat, j: nat)
    requires History(ts, rs) && i <= j <= |rs|
    ensures ts[i].nextMessage <= ts[j].nextMessage
    decreases j - i
  {
    if i < j {
      assert Follows(ts, rs, i);
      NextMessageApply(ts[i], EffectOf(ts[i], rs[i]));
      NextMessageGrows(ts, rs, i + 1, j);
    }
  }

  /** A row that appears in step n - 1 is new and unstamped, and was nowhere before. */
  lemma FreshRow(ts: seq<Tables>, rs: seq<Request>, n: nat, k: RowKey)
    requires History(ts, rs) && 0 < n <= |rs| && k !in ts[n - 1].receipts && k in ts[n].receipts
    ensures ts[n].receipts[k] == Receipt(None, None)
    ensures forall i :: 0 <= i < n ==> k !in ts[i].receipts
  {
    HistoryIsConsistent(ts, rs, n - 1);
    assert Follows(ts, rs, n - 1);
    FreshApply(ts[n - 1], EffectOf(ts[n - 1], rs[n - 1]), k);
    forall i | 0 <= i < n ensures k !in ts[i].receipts {
      HistoryIsConsistent(ts, rs, i);
      NextMessageGrows(ts, rs, i, n - 1);
    }
  }

  /** While a row exists its stamps, once set, never change. */
  lemma {:induction false} StampsNeverChange(ts: seq<Tables>, rs: seq<Request>, i: nat, j: nat, k: RowKey)
    requires History(ts, rs) && i <= j <= |rs|
    requires k in ts[i].receipts && k in ts[j].receipts
    ensures Keeps(ts[i].receipts[k], ts[j].receipts[k])
    decreases j - i
  {
    if i < j {
      if k !in ts[j - 1].receipts {
        FreshRow(ts, rs, j, k);
        assert false;
      }
      StampStep(ts, rs, j - 1, k);
      StampsNeverChange(ts, rs, i, j - 1, k);
    }
  }

  /** Among the first n requests, the member read the message while the row stood. */
  ghost predicate HasRead(ts: seq<Tables>, rs: seq<Request>, n: int, k: RowKey)
    requires n <= |rs| < |ts|
  {
    exists i :: 0 <= i < n && k in ts[i].receipts && Read(ts[i], rs[i], k.0, k.1)
  }

  /** Among the first n requests, the member acknowledged delivery while the row stood. */
  ghost predicate HasAcked(ts: seq<Tables>, rs: seq<Request>, n: int, k: RowKey)
    requires n <= |rs| < |ts|
  {
    exists i :: 0 <= i < n && k in ts[i].receipts && Acknowledged(ts[i], rs[i], k.0, k.1)
  }

  /**
   * The server says seen exactly when that member sent a READ_RECEIPT for the message, and
   * delivered exactly when they sent one or a delivered ACK, while the row stood.
   */
  lemma {:induction false} StampTrace(ts: seq<Tables>, rs: seq<Request>, n: nat, k: RowKey)
    requires History(ts, rs) && n <= |rs| && k in ts[n].receipts
    ensures ts[n].receipts[k].seen.Some? <==> HasRead(ts, rs, n, k)
    ensures ts[n].receipts[k].delivered.Some? <==> HasRead(ts, rs, n, k) || HasAcked(ts, rs, n, k)
  {
    if n > 0 {
      if k in ts[n - 1].receipts {
        StampTrace(ts, rs, n - 1, k);
        StampStep(ts, rs, n - 1, k);
      } else {
        FreshRow(ts, rs, n, k);
      }
    }
  }
}
