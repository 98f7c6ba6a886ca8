/** The pipe-delimited packet and the C++ stream extraction that reads it back. */
module Wire {
  import opened Wrappers
  import opened Text

  const PROTOCOL_VERSION := 1

  datatype PacketType =
    | LOGIN | REGISTER | MESSAGE | KEY_EXCHANGE | ACK | ERR | SYNC_HISTORY | CREATE_GROUP
    | READ_RECEIPT | GROUP_MESSAGE | GROUP_KEY_EXCHANGE | GROUP_INVITE | GROUP_LEAVE | GROUP_INFO
    | DELETE_GROUP | DELETE_CONVERSATION

  const TYPES: seq<PacketType> :=
    [LOGIN, REGISTER, MESSAGE, KEY_EXCHANGE, ACK, ERR, SYNC_HISTORY, CREATE_GROUP,
     READ_RECEIPT, GROUP_MESSAGE, GROUP_KEY_EXCHANGE, GROUP_INVITE, GROUP_LEAVE, GROUP_INFO,
     DELETE_GROUP, DELETE_CONVERSATION]

  function Code(t: PacketType): (c: int)
    ensures 0 <= c < |TYPES| && TYPES[c] == t
  {
    match t
    case LOGIN => 0 case REGISTER => 1 case MESSAGE => 2 case KEY_EXCHANGE => 3 case ACK => 4
    case ERR => 5 case SYNC_HISTORY => 6 case CREATE_GROUP => 7 case READ_RECEIPT => 8
    case GROUP_MESSAGE => 9 case GROUP_KEY_EXCHANGE => 10 case GROUP_INVITE => 11
    case GROUP_LEAVE => 12 case GROUP_INFO => 13 case DELETE_GROUP => 14
    case DELETE_CONVERSATION => 15
  }

  datatype Packet = Packet(
    kind: PacketType, version: int, from: string, to: string, body: string, key: string,
    timestamp: string, errorMsg: string)

  /** A default-constructed packet whose type has been set. */
  function Blank(kind: PacketType): Packet
  {
    Packet(kind, PROTOCOL_VERSION, "", "", "", "", "", "")
  }

  function PrintFields(p: Packet): string
  {
    p.from + "|" + (p.to + "|" + (p.body + "|" + (p.key + "|" + (p.timestamp + "|" + p.errorMsg))))
  }

  /** ProtocolParser::serialize, and the client's sendPacket. */
  function Serialize(p: Packet): string
  {
    ToString(Code(p.kind)) + "|" + (ToString(p.version) + "|" + PrintFields(p))
  }

  // ---------------------------------------------------------------------------
  // Stream extraction: unread text plus the eofbit and failbit
  // ---------------------------------------------------------------------------

  datatype Stream = Stream(rest: string, eof: bool, fail: bool) {
    predicate Good() { !eof && !fail }
  }

  /** A variable filled by an extraction, with the stream after it. */
  datatype Read<T> = Read(stream: Stream, value: T)

  function Clamp(v: int): (c: int)
    ensures IsInt32(c) && (IsInt32(v) ==> c == v) && (v > INT_MAX ==> c == INT_MAX) && (v < INT_MIN ==> c == INT_MIN)
  {
    if v < INT_MIN then INT_MIN else if v > INT_MAX then INT_MAX else v
  }

  /** `is >> n`: the sentry leaves n alone, a bad numeral gives 0, an overflow the nearest int. */
  function ReadInt(s: Stream, prior: int): (r: Read<int>)
    ensures IsInt32(prior) ==> IsInt32(r.value)
  {
    var text := SkipSpace(s.rest);
    if !s.Good() then Read(s.(fail := true), prior)
    else if text == "" then Read(Stream("", true, true), prior)
    else
      match ReadNumeral(text)
      case NoDigits(after) => Read(Stream(after, after == "", true), 0)
      case Numeral(v, after) =>
        Read(Stream(after, after == "", !IsInt32(v)), Clamp(v))
  }

  /** `is >> c`: skips blanks; taking the last character does not set eof. */
  function ReadChar(s: Stream): Stream
  {
    var text := SkipSpace(s.rest);
    if !s.Good() then s.(fail := true)
    else if text == "" then Stream("", true, true)
    else Stream(text[1..], false, false)
  }

  /** `std::getline(is, str, delim)`: str is only touched when the sentry succeeds. */
  function ReadLine(s: Stream, prior: string, delim: char): (r: Read<string>)
    ensures Free(prior, delim) ==> Free(r.value, delim)
  {
    var i := IndexOf(s.rest, delim);
    if !s.Good() then Read(s.(fail := true), prior)
    else if s.rest == "" then Read(Stream("", true, true), "")
    else if i < |s.rest| then Read(Stream(s.rest[i + 1..], false, false), s.rest[..i])
    else Read(Stream("", true, false), s.rest)
  }

  datatype Header = Header(code: int, version: int, stream: Stream)

  /** `is >> t >> sep >> version >> sep`; the separators are taken unchecked. */
  function ReadHeader(s: Stream, garbage: int): (h: Header)
    ensures IsInt32(h.version)
  {
    var t := ReadInt(s, garbage);
    var v := ReadInt(ReadChar(t.stream), PROTOCOL_VERSION);
    Header(t.value, v.value, ReadChar(v.stream))
  }

  /** The six textual fields, read one after the other. */
  function ReadFields(s: Stream): (r: (Stream, seq<string>))
    ensures |r.1| == 6 && Free(r.1[5], '\n')
    ensures forall i :: 0 <= i < 5 ==> Free(r.1[i], '|')
  {
    var f1 := ReadLine(s, "", '|');
    var f2 := ReadLine(f1.stream, "", '|');
    var f3 := ReadLine(f2.stream, "", '|');
    var f4 := ReadLine(f3.stream, "", '|');
    var f5 := ReadLine(f4.stream, "", '|');
    var f6 := ReadLine(f5.stream, "", '\n');
    (f6.stream, [f1.value, f2.value, f3.value, f4.value, f5.value, f6.value])
  }

  /**
   * Packet's operator>> on a fresh packet. `garbage` is whatever the uninitialised local that
   * receives the type code held before the call.
   */
  function ReadPacket(s0: Stream, garbage: int): (Stream, Result<Packet>)
  {
    var h := ReadHeader(s0, garbage);
    var (s, f) := ReadFields(h.stream);
    Finish(h, s, f)
  }

  /** End of input clears the flags; then the type code is checked. */
  function Finish(h: Header, s: Stream, f: seq<string>): (Stream, Result<Packet>)
    requires |f| == 6
  {
    var done := if s.eof then Stream(s.rest, false, false) else s;
    if 0 <= h.code < |TYPES|
    then (done, Ok(Packet(TYPES[h.code], h.version, f[0], f[1], f[2], f[3], f[4], f[5])))
    else (done, Rejected)
  }

  /** ProtocolParser::deserialize. */
  function Deserialize(data: string, garbage: int): Result<Packet>
  {
    if data == "" then Rejected else Checked(ReadPacket(Stream(data, false, false), garbage))
  }

  function Checked(r: (Stream, Result<Packet>)): Result<Packet> { if r.0.fail then Rejected else r.1 }

  // ---------------------------------------------------------------------------
  // Round trip
  // ---------------------------------------------------------------------------

  /** What the wire format can carry: C++ ints, no delimiter in a delimited field. */
  predicate Clean(p: Packet)
  {
    && IsInt32(p.version)
    && Free(p.from, '|') && Free(p.to, '|') && Free(p.body, '|') && Free(p.key, '|')
    && Free(p.timestamp, '|') && Free(p.errorMsg, '\n')
  }

  lemma ReadIntOfPrinted(n: int, sep: char, rest: string, prior: int)
    requires IsInt32(n) && !IsDigit(sep)
    ensures ReadInt(Stream(ToString(n) + [sep] + rest, false, false), prior)
         == Read(Stream([sep] + rest, false, false), n)
  {
    var tail := [sep] + rest;
    assert ToString(n) + [sep] + rest == ToString(n) + tail;
    ReadNumeralOfToString(n, tail);
  }

  lemma ReadSeparator(sep: char, rest: string)
    requires !IsSpace(sep)
    ensures ReadChar(Stream([sep] + rest, false, false)) == Stream(rest, false, false)
  {
    assert ([sep] + rest)[1..] == rest;
  }

  lemma ReadLineOfField(field: string, rest: string)
    requires Free(field, '|')
    ensures ReadLine(Stream(field + "|" + rest, false, false), "", '|')
         == Read(Stream(rest, false, false), field)
  {
    var text := field + "|" + rest;
    assert text == field + ['|'] + rest;
    IndexOfAfter(field, '|', rest);
    assert text[..|field|] == field && text[|field| + 1..] == rest;
  }

  lemma ReadFieldsOfPrinted(p: Packet)
    requires Clean(p)
    ensures var (s, f) := ReadFields(Stream(PrintFields(p), false, false));
            s.eof && f == [p.from, p.to, p.body, p.key, p.timestamp, p.errorMsg]
  {
    var r5 := p.timestamp + "|" + p.errorMsg;
    var r4 := p.key + "|" + r5;
    var r3 := p.body + "|" + r4;
    var r2 := p.to + "|" + r3;
    ReadLineOfField(p.from, r2);
    ReadLineOfField(p.to, r3);
    ReadLineOfField(p.body, r4);
    ReadLineOfField(p.key, r5);
    ReadLineOfField(p.timestamp, p.errorMsg);
    assert ReadLine(Stream(p.errorMsg, false, false), "", '\n').stream.eof;
    assert ReadLine(Stream(p.errorMsg, false, false), "", '\n').value == p.errorMsg;
  }

  /** A printed header with any separators before any fields. */
  function WithHeader(kind: PacketType, version: int, c: char, d: char, fields: string): string
  {
    ToString(Code(kind)) + [c] + (ToString(version) + [d] + fields)
  }

  lemma ReadHeaderOfPrinted(kind: PacketType, version: int, c: char, d: char, fields: string, garbage: int)
    requires IsInt32(version) && !IsDigit(c) && !IsSpace(c) && !IsDigit(d) && !IsSpace(d)
    ensures ReadHeader(Stream(WithHeader(kind, version, c, d, fields), false, false), garbage)
         == Header(Code(kind), version, Stream(fields, false, false))
  {
    var r := ToString(version) + [d] + fields;
    ReadIntOfPrinted(Code(kind), c, r, garbage);
    ReadSeparator(c, r);
    ReadIntOfPrinted(version, d, fields, PROTOCOL_VERSION);
    ReadSeparator(d, fields);
  }

  /** A header and six fields that reach the end of the text make an accepted packet. */
  lemma Assemble(data: string, garbage: int, p: Packet, fields: Stream)
    requires data != ""
    requires ReadHeader(Stream(data, false, false), garbage) == Header(Code(p.kind), p.version, fields)
    requires ReadFields(fields).0.eof
    requires ReadFields(fields).1 == [p.from, p.to, p.body, p.key, p.timestamp, p.errorMsg]
    ensures Deserialize(data, garbage) == Ok(p)
  {
    FinishIs(ReadHeader(Stream(data, false, false), garbage), ReadFields(fields).0, ReadFields(fields).1, p);
  }

  lemma FinishIs(h: Header, s: Stream, f: seq<string>, p: Packet)
    requires h.code == Code(p.kind) && h.version == p.version && s.eof
    requires f == [p.from, p.to, p.body, p.key, p.timestamp, p.errorMsg]
    ensures Checked(Finish(h, s, f)) == Ok(p)
  {
  }

  /** Text survives the wire when it is clean, the empty last field included. */
  lemma RoundTrip(p: Packet, garbage: int)
    requires Clean(p)
    ensures Deserialize(Serialize(p), garbage) == Ok(p)
  {
    SeparatorsAreUnchecked(p, '|', '|', garbage);
    assert Serialize(p) == WithHeader(p.kind, p.version, '|', '|', PrintFields(p));
  }

  /** The two separators of the header may be anything but digits and blanks. */
  lemma SeparatorsAreUnchecked(p: Packet, c: char, d: char, garbage: int)
    requires Clean(p) && !IsDigit(c) && !IsSpace(c) && !IsDigit(d) && !IsSpace(d)
    ensures Deserialize(WithHeader(p.kind, p.version, c, d, PrintFields(p)), garbage) == Ok(p)
  {
    ReadHeaderOfPrinted(p.kind, p.version, c, d, PrintFields(p), garbage);
    ReadFieldsOfPrinted(p);
    Assemble(WithHeader(p.kind, p.version, c, d, PrintFields(p)), garbage, p, Stream(PrintFields(p), false, false));
  }

  /** A packet cut off after its first field is accepted, the others empty: end of input clears the failure. */
  lemma ShortPacketIsAccepted(kind: PacketType, version: int, from: string, garbage: int)
    requires IsInt32(version) && from != "" && Free(from, '|')
    ensures Deserialize(WithHeader(kind, version, '|', '|', from), garbage)
         == Ok(Packet(kind, version, from, "", "", "", "", ""))
  {
    ReadHeaderOfPrinted(kind, version, '|', '|', from, garbage);
    Assemble(WithHeader(kind, version, '|', '|', from), garbage, Packet(kind, version, from, "", "", "", "", ""),
             Stream(from, false, false));
  }

  /** The numbers of the packet types, in the order the enumeration lists them. */
  lemma CodesInOrder()
    ensures Code(LOGIN) == 0 && Code(REGISTER) == 1 && Code(MESSAGE) == 2 && Code(KEY_EXCHANGE) == 3
    ensures Code(ACK) == 4 && Code(ERR) == 5 && Code(SYNC_HISTORY) == 6 && Code(CREATE_GROUP) == 7
  {
  }

  lemma LaterCodesInOrder()
    ensures Code(READ_RECEIPT) == 8 && Code(GROUP_MESSAGE) == 9 && Code(GROUP_KEY_EXCHANGE) == 10
    ensures Code(GROUP_INVITE) == 11 && Code(GROUP_LEAVE) == 12 && Code(GROUP_INFO) == 13
    ensures Code(DELETE_GROUP) == 14 && Code(DELETE_CONVERSATION) == 15
  {
  }

  lemma AcceptedIsClean(data: string, garbage: int)
    requires Deserialize(data, garbage).Ok?
    ensures Clean(Deserialize(data, garbage).value)
  {
    var (_, f) := ReadFields(ReadHeader(Stream(data, false, false), garbage).stream);
    assert Free(f[0], '|') && Free(f[1], '|') && Free(f[2], '|') && Free(f[3], '|') && Free(f[4], '|');
  }

  /** Whatever comes off the wire can be put back on it, and is then read as itself. */
  lemma AcceptedIsFixedPoint(data: string, garbage: int, again: int)
    requires Deserialize(data, garbage).Ok?
    ensures Clean(Deserialize(data, garbage).value)
    ensures Deserialize(Serialize(Deserialize(data, garbage).value), again)
         == Deserialize(data, garbage)
  {
    AcceptedIsClean(data, garbage);
    RoundTrip(Deserialize(data, garbage).value, again);
  }

  lemma RoundTripIff(p: Packet, garbage: int)
    ensures Deserialize(Serialize(p), garbage) == Ok(p) <==> Clean(p)
  {
    if Clean(p) {
      RoundTrip(p, garbage);
    } else if Deserialize(Serialize(p), garbage) == Ok(p) {
      AcceptedIsFixedPoint(Serialize(p), garbage, garbage);
    }
  }

  /** The uninitialised type code decides the fate of blank input, and of nothing else. */
  lemma GarbageMattersIffBlank(data: string, garbage: int, other: int)
    ensures !AllSpace(data) ==> Deserialize(data, garbage) == Deserialize(data, other)
    ensures data != "" && AllSpace(data) ==>
              (Deserialize(data, garbage).Ok? <==> 0 <= garbage < |TYPES|)
  {
    if !AllSpace(data) {
      assert ReadInt(Stream(data, false, false), garbage)
          == ReadInt(Stream(data, false, false), other);
    }
  }
}
