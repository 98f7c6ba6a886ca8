/** The local receipt table as it runs: inserts, updates and deletes row by row. */
module RecipientTable {
  import opened RecipientStore

  lemma RefreshTwice(s: Store, g: string, first: string -> bool, second: string -> bool,
                     both: string -> bool)
    requires forall x :: both(x) <==> first(x) || second(x)
    ensures Refresh(Refresh(s, g, first), g, second) == Refresh(s, g, both)
  {
    forall ts ensures Aggregate(Refresh(s, g, first), g, ts) == Aggregate(s, g, ts) {
      SameAggregate(Refresh(s, g, first), s, g, ts);
    }
  }

  lemma AddRowsSnoc(rows: map<RowKey, Row>, g: string, ts: string, members: seq<string>, m: string)
    ensures var now := AddRows(rows, g, ts, members);
            AddRows(rows, g, ts, members + [m])
            == if (g, ts, m) in now then now else now[(g, ts, m) := FRESH]
  {
    var now, then_ := AddRows(rows, g, ts, members), AddRows(rows, g, ts, members + [m]);
    assert then_.Keys == now.Keys + {(g, ts, m)};
    assert forall k :: k in now ==> then_[k] == now[k];
  }

  class LocalReceipts {
    var s: Store

    constructor ()
      ensures s == Store(map[], map[])
    {
      s := Store(map[], map[]);
    }

    /** INSERT OR IGNORE for every member. */
    method SaveRecipientSnapshot(g: string, ts: string, members: seq<string>)
      modifies this
      ensures s == Step(old(s), Snapshot(g, ts, members))
    {
      var rows := s.rows;
      for i := 0 to |members|
        invariant s == old(s) && rows == AddRows(s.rows, g, ts, members[..i])
      {
        AddRowsSnoc(s.rows, g, ts, members[..i], members[i]);
        assert members[..i + 1] == members[..i] + [members[i]];
        if (g, ts, members[i]) !in rows {
          rows := rows[(g, ts, members[i]) := FRESH];
        }
      }
      assert members[..|members|] == members;
      s := s.(rows := rows);
    }

    /** recomputeGroupAggregate. */
    method Recompute(g: string, ts: string)
      modifies this
      ensures s == Refresh(old(s), g, x => x == ts)
    {
      if !HasRows(s, g, ts) {
        assert Refresh(s, g, x => x == ts).status == s.status;
        return;
      }
      if AllSeen(s, g, ts) {
        s := s.(status := map k | k in s.status :: if k.0 == g && k.2 == ts then Seen else s.status[k]);
      } else if AllDelivered(s, g, ts) {
        s := s.(status := map k | k in s.status :: if k.0 == g && k.2 == ts then Delivered else s.status[k]);
      } else {
        assert Refresh(s, g, x => x == ts).status == s.status;
      }
    }

    /** updateGroupMessageStatus, as the interface calls it. */
    method UpdateStatus(g: string, ts: string, status: Status)
      modifies this
      ensures s == Step(old(s), SetStatus(g, ts, status))
    {
      s := s.(status := map k | k in s.status :: if k.0 == g && k.2 == ts then status else s.status[k]);
    }

    /** handleGroupDelivered and the group branch of handleReadReceipt. */
    method HandleReceipt(g: string, ts: string, member: string, seen: bool)
      modifies this
      ensures s == Step(old(s), if seen then MarkSeen(g, ts, member) else MarkDelivered(g, ts, member))
    {
      s := s.(rows := MarkRow(s.rows, (g, ts, member), seen));
      Recompute(g, ts);
    }

    /** Deletes the rows of ex-members one by one and returns their timestamps. */
    method DeleteRows(doomed: set<RowKey>) returns (times: seq<string>)
      modifies this
      ensures s == old(s).(rows := old(s).rows - doomed)
      ensures forall ts :: ts in times <==> exists k :: k in doomed && k.1 == ts
    {
      var rows, gone := s.rows, {};
      times := [];
      while gone != doomed
        invariant s == old(s) && gone <= doomed && rows == s.rows - gone
        invariant forall ts :: ts in times <==> exists k :: k in gone && k.1 == ts
        decreases |doomed - gone|
      {
        var k :| k in doomed - gone;
        assert doomed - (gone + {k}) == (doomed - gone) - {k};
        rows, gone := rows - {k}, gone + {k};
        if k.1 !in times {
          times := times + [k.1];
        }
      }
      s := s.(rows := rows);
    }

    /** Only timestamps that still have rows can complete their aggregate. */
    method WithRows(g: string, times: seq<string>) returns (affected: seq<string>)
      ensures forall ts :: ts in affected <==> ts in times && HasRows(s, g, ts)
    {
      affected := [];
      for i := 0 to |times|
        invariant forall ts :: ts in affected <==> ts in times[..i] && HasRows(s, g, ts)
      {
        if HasRows(s, g, times[i]) {
          affected := affected + [times[i]];
        }
      }
    }

    method RemoveRecipientsNotIn(g: string, members: seq<string>) returns (affected: seq<string>)
      modifies this
      ensures s == old(s).(rows := KeepMembers(old(s).rows, g, members))
      ensures forall k :: k in s.rows <==> k in old(s).rows && (k.0 == g ==> k.2 in members)
      ensures forall ts :: ts in affected <==> Affected(old(s).rows, g, members, ts)
    {
      var doomed := set k | k in s.rows && k.0 == g && k.2 !in members;
      var times := DeleteRows(doomed);
      assert s.rows == KeepMembers(old(s).rows, g, members);
      affected := WithRows(g, times);
      forall ts ensures ts in affected <==> Affected(old(s).rows, g, members, ts) {
        assert HasRows(s, g, ts) <==>
          exists k :: k in old(s).rows && k.0 == g && k.1 == ts && k.2 in members;
      }
    }

    /** The churn rule of handleGroupInfo. */
    method DropExMembers(g: string, members: seq<string>)
      modifies this
      ensures s == Step(old(s), Prune(g, members))
    {
      var affected := RemoveRecipientsNotIn(g, members);
      ghost var mid := s;
      assert Refresh(mid, g, x => false).status == mid.status;
      for i := 0 to |affected|
        invariant s == Refresh(mid, g, x => x in affected[..i])
      {
        RefreshTwice(mid, g, x => x in affected[..i], x => x == affected[i],
                     x => x in affected[..i + 1]);
        Recompute(g, affected[i]);
      }
      assert forall x :: x in affected[..|affected|] <==> Affected(old(s).rows, g, members, x);
      assert Refresh(mid, g, x => x in affected[..|affected|]).status
          == Step(old(s), Prune(g, members)).status;
    }
  }
}
