/** Lists packed into one packet field with `,` `;` `|` and `:`, and their survival on the wire. */
module FieldCodecs {
  import opened Wrappers
  import opened Text
  import opened Wire
  import opened StreamParser

  /** The lines a `while (std::getline(ss, piece, d))` loop sees. */
  function Pieces(s: string, d: char): seq<string>
    decreases |s|
  {
    var i := IndexOf(s, d);
    if s == "" then [] else if i == |s| then [s] else [s[..i]] + Pieces(s[i + 1..], d)
  }

  function NonEmpty(ps: seq<string>): seq<string>
  {
    if ps == [] then [] else (if ps[0] == "" then [] else [ps[0]]) + NonEmpty(ps[1..])
  }

  /** parseMembers on the server; QString::split with SkipEmptyParts on the client. */
  function Fields(s: string, d: char): seq<string>
  {
    NonEmpty(Pieces(s, d))
  }

  lemma {:induction false} PiecesAreFree(s: string, d: char, p: string)
    requires p in Pieces(s, d)
    ensures Free(p, d)
    decreases |s|
  {
    var i := IndexOf(s, d);
    if i < |s| && p != s[..i] {
      PiecesAreFree(s[i + 1..], d, p);
    }
  }

  lemma {:induction false} NonEmptyMember(ps: seq<string>, p: string)
    requires p in NonEmpty(ps)
    ensures p in ps && p != ""
  {
    if ps[0] == "" || p != ps[0] {
      NonEmptyMember(ps[1..], p);
    }
  }

  lemma FieldsAreFree(s: string, d: char, p: string)
    requires p in Fields(s, d)
    ensures p != "" && Free(p, d)
  {
    NonEmptyMember(Pieces(s, d), p);
    PiecesAreFree(s, d, p);
  }

  function Join(parts: seq<string>, d: char): string
  {
    if parts == [] then "" else if |parts| == 1 then parts[0]
    else parts[0] + [d] + Join(parts[1..], d)
  }

  lemma {:induction false} PiecesOfHead(p: string, d: char, rest: string)
    requires Free(p, d)
    ensures Pieces(p + [d] + rest, d) == [p] + Pieces(rest, d)
  {
    IndexOfAfter(p, d, rest);
    var s := p + [d] + rest;
    assert s[..|p|] == p && s[|p| + 1..] == rest;
  }

  lemma {:induction false} NonEmptyHead(p: string, ps: seq<string>)
    requires p != ""
    ensures NonEmpty([p] + ps) == [p] + NonEmpty(ps)
  {
    assert ([p] + ps)[1..] == ps;
  }

  lemma {:induction false} PiecesOfJoin(parts: seq<string>, d: char)
    requires forall p :: p in parts ==> p != "" && Free(p, d)
    ensures Pieces(Join(parts, d), d) == parts && NonEmpty(parts) == parts
    ensures parts != [] ==> Join(parts, d) != ""
  {
    if |parts| == 1 {
      assert parts == [parts[0]];
    } else if |parts| > 1 {
      var rest := Join(parts[1..], d);
      assert forall p :: p in parts[1..] ==> p in parts;
      PiecesOfJoin(parts[1..], d);
      assert parts[0] in parts;
      PiecesOfHead(parts[0], d, rest);
      NonEmptyHead(parts[0], parts[1..]);
      assert parts == [parts[0]] + parts[1..];
    }
  }

  /** Fields each followed by the delimiter, and a last text. */
  function Packed(fields: seq<string>, last: string, d: char): string
  {
    if fields == [] then last else fields[0] + [d] + Packed(fields[1..], last, d)
  }

  lemma {:induction false} PiecesOfPacked(fields: seq<string>, last: string, d: char)
    requires last != "" && Free(last, d) && forall i :: 0 <= i < |fields| ==> Free(fields[i], d)
    ensures Pieces(Packed(fields, last, d), d) == fields + [last]
  {
    if fields == [] {
      assert fields + [last] == [last];
    } else {
      PiecesOfPacked(fields[1..], last, d);
      HeadPiece(fields[0], Packed(fields[1..], last, d), fields[1..], last, d);
      assert fields == [fields[0]] + fields[1..];
    }
  }

  lemma HeadPiece(f: string, text: string, fields: seq<string>, last: string, d: char)
    requires Free(f, d) && Pieces(text, d) == fields + [last]
    ensures Pieces(f + [d] + text, d) == ([f] + fields) + [last]
  {
    PiecesOfHead(f, d, text);
    assert [f] + (fields + [last]) == ([f] + fields) + [last];
  }

  lemma PackedFrom(fields: seq<string>, i: nat, last: string, d: char)
    requires i < |fields|
    ensures Packed(fields[i..], last, d) == fields[i] + [d] + Packed(fields[i + 1..], last, d)
  {
    assert fields[i..][1..] == fields[i + 1..];
  }

  lemma PackedSeven(a: seq<string>, last: string, d: char)
    requires |a| == 7
    ensures Packed(a, last, d)
         == a[0] + [d] + (a[1] + [d] + (a[2] + [d] + (a[3] + [d] + (a[4] + [d] + (a[5] + [d] + (a[6] + [d] + last))))))
  {
    assert a[0..] == a && a[7..] == [] && Packed([], last, d) == last;
    PackedFrom(a, 6, last, d);
    PackedFrom(a, 5, last, d);
    PackedFrom(a, 4, last, d);
    PackedFrom(a, 3, last, d);
    PackedFrom(a, 2, last, d);
    PackedFrom(a, 1, last, d);
    PackedFrom(a, 0, last, d);
  }

  /** The eight fields of a packet, in the order the wire carries them. */
  lemma WireOrder(p: Packet)
    requires Clean(p) && p.errorMsg != "" && Free(p.errorMsg, '|')
    ensures Pieces(Serialize(p), '|')
         == [ToString(Code(p.kind)), ToString(p.version), p.from, p.to, p.body, p.key, p.timestamp, p.errorMsg]
  {
    var code, version := ToString(Code(p.kind)), ToString(p.version);
    NumbersAreFree(Code(p.kind));
    NumbersAreFree(p.version);
    var fields := [code, version, p.from, p.to, p.body, p.key, p.timestamp];
    PackedSeven(fields, p.errorMsg, '|');
    assert Serialize(p) == Packed(fields, p.errorMsg, '|');
    PiecesOfPacked(fields, p.errorMsg, '|');
  }

  lemma NumbersAreFree(n: int)
    ensures Free(ToString(n), '|')
  {
    var d := Decimal(if n < 0 then -n else n);
    assert AllDigits(d) && !IsDigit('|');
  }

  /** A list survives packing exactly when no element is empty or holds the delimiter. */
  lemma ListRoundTripIff(parts: seq<string>, d: char)
    ensures Fields(Join(parts, d), d) == parts
       <==> forall p :: p in parts ==> p != "" && Free(p, d)
  {
    if forall p :: p in parts ==> p != "" && Free(p, d) {
      PiecesOfJoin(parts, d);
    } else if Fields(Join(parts, d), d) == parts {
      forall p | p in parts ensures p != "" && Free(p, d) { FieldsAreFree(Join(parts, d), d, p); }
    }
  }

  // ---------------------------------------------------------------------------
  // name:value entries
  // ---------------------------------------------------------------------------

  type Pair = (string, string)

  function Entry(p: Pair): string { p.0 + [':'] + p.1 }

  function Entries(ps: seq<Pair>): (r: seq<string>)
    ensures |r| == |ps| && forall i :: 0 <= i < |ps| ==> r[i] == Entry(ps[i])
  {
    if ps == [] then [] else [Entry(ps[0])] + Entries(ps[1..])
  }

  /** One entry of parseKeyPairs: no colon, an empty name or an empty key drops it. */
  function PairOf(entry: string): (r: Option<Pair>)
    ensures r.Some? ==> r.value.0 != "" && r.value.1 != "" && Free(r.value.0, ':')
    ensures r.Some? ==> entry == Entry(r.value)
  {
    var i := IndexOf(entry, ':');
    if i == |entry| || i == 0 || i + 1 == |entry| then None
    else Some((entry[..i], entry[i + 1..]))
  }

  /** One entry of the client's GROUP_INFO decoder: only a missing colon drops it. */
  function MemberOf(entry: string): (r: Option<Pair>)
    ensures r.Some? ==> Free(r.value.0, ':') && entry == Entry(r.value)
  {
    var i := IndexOf(entry, ':');
    if i == |entry| then None else Some((entry[..i], entry[i + 1..]))
  }

  function Decoded(entries: seq<string>, decode: string -> Option<Pair>): (r: seq<Pair>)
  {
    if entries == [] then []
    else
      (match decode(entries[0]) case Some(p) => [p] case None => []) + Decoded(entries[1..], decode)
  }

  /** parseKeyPairs with `;` (CREATE_GROUP) and parseKeyPairsGKE with `|`. */
  function KeyPairs(s: string, d: char): seq<Pair> { Decoded(Pieces(s, d), PairOf) }

  /** The member:role list of GROUP_INFO as the client reads it. */
  function MemberRoles(s: string): seq<Pair> { Decoded(Fields(s, ';'), MemberOf) }

  lemma {:induction false} EntryDecodes(p: Pair)
    requires Free(p.0, ':')
    ensures MemberOf(Entry(p)) == Some(p)
    ensures p.0 != "" && p.1 != "" ==> PairOf(Entry(p)) == Some(p)
  {
    IndexOfAfter(p.0, ':', p.1);
    assert Entry(p)[..|p.0|] == p.0 && Entry(p)[|p.0| + 1..] == p.1;
  }

  lemma {:induction false} DecodedEntries(ps: seq<Pair>, decode: string -> Option<Pair>)
    requires forall p :: p in ps ==> decode(Entry(p)) == Some(p)
    ensures Decoded(Entries(ps), decode) == ps
  {
    if ps != [] {
      assert ps[0] in ps && Entries(ps)[1..] == Entries(ps[1..]);
      DecodedEntries(ps[1..], decode);
    }
  }

  /** Everything a decoder returns was some entry, read back faithfully. */
  lemma {:induction false} DecodedFrom(entries: seq<string>, decode: string -> Option<Pair>, p: Pair)
    requires p in Decoded(entries, decode)
    ensures exists e :: e in entries && decode(e) == Some(p)
  {
    if decode(entries[0]) != Some(p) {
      DecodedFrom(entries[1..], decode, p);
    }
  }

  /** Names and keys that the key-map encoding carries. */
  predicate PackablePair(p: Pair, d: char)
  {
    p.0 != "" && Free(p.0, ':') && Free(p.0, d) && p.1 != "" && Free(p.1, d)
  }

  lemma EntriesAreFields(ps: seq<Pair>, d: char)
    requires forall p :: p in ps ==> Free(p.0, d) && Free(p.1, d)
    requires d != ':'
    ensures forall e :: e in Entries(ps) ==> e != "" && Free(e, d)
  {
    forall e | e in Entries(ps)
      ensures e != "" && Free(e, d)
    {
      var i :| 0 <= i < |ps| && e == Entry(ps[i]);
      assert ps[i] in ps;
    }
  }

  /** The key map decodes to what was encoded exactly when every pair is packable. */
  lemma KeyMapRoundTripIff(ps: seq<Pair>, d: char)
    requires d != ':'
    ensures KeyPairs(Join(Entries(ps), d), d) == ps <==> forall p :: p in ps ==> PackablePair(p, d)
  {
    if forall p :: p in ps ==> PackablePair(p, d) {
      EntriesAreFields(ps, d);
      PiecesOfJoin(Entries(ps), d);
      forall p | p in ps ensures PairOf(Entry(p)) == Some(p) { EntryDecodes(p); }
      DecodedEntries(ps, PairOf);
    } else if KeyPairs(Join(Entries(ps), d), d) == ps {
      forall p | p in ps ensures PackablePair(p, d) {
        DecodedFrom(Pieces(Join(Entries(ps), d), d), PairOf, p);
        PiecesAreFree(Join(Entries(ps), d), d, Entry(p));
      }
    }
  }

  /** The member:role list decodes exactly when names avoid `:` and `;` and roles avoid `;`. */
  lemma MemberListRoundTripIff(ps: seq<Pair>)
    ensures MemberRoles(Join(Entries(ps), ';')) == ps
       <==> forall p :: p in ps ==> Free(p.0, ':') && Free(p.0, ';') && Free(p.1, ';')
  {
    if forall p :: p in ps ==> Free(p.0, ':') && Free(p.0, ';') && Free(p.1, ';') {
      EntriesAreFields(ps, ';');
      PiecesOfJoin(Entries(ps), ';');
      forall p | p in ps ensures MemberOf(Entry(p)) == Some(p) { EntryDecodes(p); }
      DecodedEntries(ps, MemberOf);
    } else if MemberRoles(Join(Entries(ps), ';')) == ps {
      forall p | p in ps ensures Free(p.0, ':') && Free(p.0, ';') && Free(p.1, ';') {
        DecodedFrom(Fields(Join(Entries(ps), ';'), ';'), MemberOf, p);
        FieldsAreFree(Join(Entries(ps), ';'), ';', Entry(p));
      }
    }
  }

  // ---------------------------------------------------------------------------
  // Through the packet format
  // ---------------------------------------------------------------------------

  predicate Packable(name: string) { name != "" && Free(name, ',') && Free(name, '|') }

  lemma {:induction false} JoinIsFree(parts: seq<string>, d: char, c: char)
    requires d != c && forall p :: p in parts ==> Free(p, c)
    ensures Free(Join(parts, d), c)
  {
    if |parts| == 1 {
      assert parts[0] in parts;
    } else if |parts| > 1 {
      assert parts[0] in parts;
      JoinIsFree(parts[1..], d, c);
    }
  }

  lemma EntriesAreFree(ps: seq<Pair>, c: char)
    requires c != ':' && forall p :: p in ps ==> Free(p.0, c) && Free(p.1, c)
    ensures forall e :: e in Entries(ps) ==> Free(e, c)
  {
    forall e | e in Entries(ps) ensures Free(e, c) {
      var i :| 0 <= i < |ps| && e == Entry(ps[i]);
      assert ps[i] in ps;
    }
  }

  /** CREATE_GROUP: the server decodes the very members and keys the client packed. */
  lemma CreateGroupSurvivesWire(p: Packet, members: seq<string>, keys: seq<Pair>, garbage: int)
    requires Clean(p.(body := "", key := ""))
    requires p.body == Join(members, ',') && p.key == Join(Entries(keys), ';')
    requires forall m :: m in members ==> Packable(m)
    requires forall k :: k in keys ==> PackablePair(k, ';') && Free(k.0, '|') && Free(k.1, '|')
    ensures Deserialize(Serialize(p), garbage) == Ok(p)
    ensures Fields(p.body, ',') == members && KeyPairs(p.key, ';') == keys
  {
    JoinIsFree(members, ',', '|');
    EntriesAreFree(keys, '|');
    JoinIsFree(Entries(keys), ';', '|');
    RoundTrip(p, garbage);
    ListRoundTripIff(members, ',');
    KeyMapRoundTripIff(keys, ';');
  }

  /** GROUP_INFO: the client decodes the very member:role list the server packed. */
  lemma GroupInfoSurvivesWire(p: Packet, roles: seq<Pair>, garbage: int)
    requires Clean(p.(key := "")) && p.key == Join(Entries(roles), ';')
    requires forall r :: r in roles ==> Free(r.0, ':') && Free(r.0, ';') && Free(r.0, '|')
    requires forall r :: r in roles ==> Free(r.1, ';') && Free(r.1, '|')
    ensures Deserialize(Serialize(p), garbage) == Ok(p)
    ensures MemberRoles(p.key) == roles
  {
    EntriesAreFree(roles, '|');
    JoinIsFree(Entries(roles), ';', '|');
    RoundTrip(p, garbage);
    MemberListRoundTripIff(roles);
  }

  /** Send-ACK: the client decodes the very recipient snapshot the server packed. */
  lemma SendAckSurvivesWire(p: Packet, recipients: seq<string>, garbage: int)
    requires Clean(p.(key := "")) && p.key == Join(recipients, ';')
    requires forall r :: r in recipients ==> r != "" && Free(r, ';') && Free(r, '|')
    ensures Deserialize(Serialize(p), garbage) == Ok(p)
    ensures Fields(p.key, ';') == recipients
  {
    JoinIsFree(recipients, ';', '|');
    RoundTrip(p, garbage);
    ListRoundTripIff(recipients, ';');
  }

  /**
   * The `|` split of the key exchange finds at most one pair in any packet that came off the
   * wire, so the rotation branch for several pairs is never taken.
   */
  lemma AtMostOnePairOffTheWire(data: string, garbage: int)
    requires Deserialize(data, garbage).Ok?
    ensures |KeyPairs(Deserialize(data, garbage).value.key, '|')| <= 1
  {
    AcceptedIsClean(data, garbage);
    var key := Deserialize(data, garbage).value.key;
    assert Pieces(key, '|') == if key == "" then [] else [key];
    assert Decoded([key][1..], PairOf) == [];
  }

  // ---------------------------------------------------------------------------
  // The loops
  // ---------------------------------------------------------------------------

  /** The lines a getline loop has still to read. */
  ghost function Pending(s: Stream, d: char): seq<string>
  {
    if s.eof then [] else Pieces(s.rest, d)
  }

  /** `std::getline(ss, line, d)` as the condition of a while loop. */
  method NextPiece(ss: InputStream, prior: string, d: char) returns (line: string, ghost todo: seq<string>)
    requires !ss.fail
    modifies ss
    ensures Pending(old(ss.View()), d) == if ss.fail then [] else [line] + todo
    ensures !ss.fail ==> todo == Pending(ss.View(), d)
  {
    line := ss.GetLine(prior, d);
    todo := Pending(ss.View(), d);
  }

  /** One turn of the filtering loop: `done` grows by the head of `todo`, if that is kept. */
  lemma {:induction false} KeepHead(done: seq<string>, todo: seq<string>)
    requires todo != []
    ensures done + NonEmpty(todo)
         == (if todo[0] == "" then done else done + [todo[0]]) + NonEmpty(todo[1..])
  {
    if todo[0] != "" { Regroup(done, todo[0], NonEmpty(todo[1..])); }
  }

  lemma Regroup<T>(a: seq<T>, x: T, b: seq<T>)
    ensures a + ([x] + b) == (a + [x]) + b
  {
  }

  lemma {:induction false} DecodeHead(done: seq<Pair>, todo: seq<string>)
    requires todo != []
    ensures done + Decoded(todo, PairOf)
         == (match PairOf(todo[0]) case Some(p) => done + [p] case None => done)
            + Decoded(todo[1..], PairOf)
  {
    match PairOf(todo[0])
    case Some(p) => Regroup(done, p, Decoded(todo[1..], PairOf));
    case None =>
  }

  method ParseMembers(body: string) returns (members: seq<string>)
    ensures members == Fields(body, ',')
  {
    members := [];
    var ss := new InputStream(body);
    var m, todo := NextPiece(ss, "", ',');
    while !ss.fail
      invariant !ss.fail ==> todo == Pending(ss.View(), ',')
      invariant Fields(body, ',') == members + NonEmpty(if ss.fail then [] else [m] + todo)
      decreases !ss.fail, |todo|
    {
      KeepHead(members, [m] + todo);
      if m != "" {
        members := members + [m];
      }
      m, todo := NextPiece(ss, m, ',');
    }
  }

  method ParseKeyPairs(field: string, d: char) returns (pairs: seq<Pair>)
    ensures pairs == KeyPairs(field, d)
  {
    pairs := [];
    var ss := new InputStream(field);
    var entry, todo := NextPiece(ss, "", d);
    while !ss.fail
      invariant !ss.fail ==> todo == Pending(ss.View(), d)
      invariant KeyPairs(field, d) == pairs + Decoded(if ss.fail then [] else [entry] + todo, PairOf)
      decreases !ss.fail, |todo|
    {
      DecodeHead(pairs, [entry] + todo);
      var colon := IndexOf(entry, ':');
      if colon < |entry| && colon != 0 {
        var user, key := entry[..colon], entry[colon + 1..];
        if user != "" && key != "" {
          pairs := pairs + [(user, key)];
        }
      }
      entry, todo := NextPiece(ss, entry, d);
    }
  }

  lemma {:induction false} JoinSnoc(parts: seq<string>, last: string, d: char)
    ensures Join(parts + [last], d) == if parts == [] then last else Join(parts, d) + [d] + last
  {
    if |parts| == 1 {
      assert (parts + [last])[1..] == [last];
    } else if |parts| > 1 {
      assert (parts + [last])[1..] == parts[1..] + [last];
      JoinSnoc(parts[1..], last, d);
      assert Join(parts + [last], d) == parts[0] + [d] + (Join(parts[1..], d) + [d] + last);
    }
  }

  /** The joining loop of GroupMessageHandler and GroupInfoHandler. */
  method JoinAll(parts: seq<string>) returns (joined: string)
    requires forall p :: p in parts ==> p != ""
    ensures joined == Join(parts, ';')
  {
    joined := "";
    for i := 0 to |parts|
      invariant joined == Join(parts[..i], ';')
      invariant joined == "" <==> i == 0
    {
      JoinSnoc(parts[..i], parts[i], ';');
      assert parts[..i + 1] == parts[..i] + [parts[i]];
      assert parts[i] in parts;
      if joined != "" {
        joined := joined + ";";
      }
      joined := joined + parts[i];
    }
    assert parts[..|parts|] == parts;
  }
}
