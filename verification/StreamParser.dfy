/** The parser as it runs: a stream that is consumed in place, field by field. */
module StreamParser {
  import opened Wrappers
  import opened Text
  import opened Wire

  class InputStream {
    var rest: string
    var eof: bool
    var fail: bool

    ghost function View(): Stream
      reads this
    {
      Stream(rest, eof, fail)
    }

    constructor (text: string)
      ensures View() == Stream(text, false, false)
    {
      rest, eof, fail := text, false, false;
    }

    method SkipBlanks()
      modifies this`rest
      ensures rest == SkipSpace(old(rest))
    {
      while rest != "" && IsSpace(rest[0])
        invariant SkipSpace(rest) == SkipSpace(old(rest))
        decreases |rest|
      {
        rest := rest[1..];
      }
    }

    /** Consumes a run of digits and returns its length and value. */
    method TakeDigits() returns (k: nat, v: nat)
      modifies this`rest
      ensures k == DigitRun(old(rest)) && v == Value(old(rest)[..k]) && rest == old(rest)[k..]
    {
      ghost var digits := "";
      k, v := 0, 0;
      while rest != "" && IsDigit(rest[0])
        invariant old(rest) == digits + rest && k == |digits|
        invariant AllDigits(digits) && v == Value(digits)
        decreases |rest|
      {
        assert (digits + [rest[0]])[..k] == digits;
        assert digits + rest == (digits + [rest[0]]) + rest[1..];
        v := 10 * v + Digit(rest[0]);
        digits, rest, k := digits + [rest[0]], rest[1..], k + 1;
      }
      DigitRunOfDigits(digits, rest);
    }

    /** The numeral itself; `n` is out of range or absent exactly when the stream fails. */
    method TakeNumeral() returns (n: int)
      requires View().Good() && rest != "" && !IsSpace(rest[0])
      modifies this
      ensures Read(View(), n) == ReadInt(old(View()), 0)
    {
      var sign := rest[0];
      if sign == '-' || sign == '+' {
        rest := rest[1..];
      }
      var k, v := TakeDigits();
      eof := rest == "";
      n := v;
      if sign == '-' {
        n := -n;
      }
      fail := k == 0 || !IsInt32(n);
      n := if k == 0 then 0 else Clamp(n);
    }

    method ExtractInt(prior: int) returns (n: int)
      modifies this
      ensures Read(View(), n) == ReadInt(old(View()), prior)
    {
      n := prior;
      if eof || fail {
        fail := true;
        return;
      }
      SkipBlanks();
      if rest == "" {
        eof, fail := true, true;
      } else {
        n := TakeNumeral();
      }
    }

    method ExtractChar()
      modifies this
      ensures View() == ReadChar(old(View()))
    {
      if eof || fail {
        fail := true;
        return;
      }
      SkipBlanks();
      if rest == "" {
        eof, fail := true, true;
      } else {
        rest := rest[1..];
      }
    }

    /** Moves the text before the delimiter out of the stream. */
    method TakeUntil(delim: char) returns (line: string)
      modifies this`rest
      ensures old(rest) == line + rest && Free(line, delim)
      ensures rest == "" || rest[0] == delim
    {
      line := "";
      while rest != "" && rest[0] != delim
        invariant old(rest) == line + rest && Free(line, delim)
        decreases |rest|
      {
        assert line + rest == (line + [rest[0]]) + rest[1..];
        line, rest := line + [rest[0]], rest[1..];
      }
    }

    method GetLine(prior: string, delim: char) returns (line: string)
      modifies this
      ensures Read(View(), line) == ReadLine(old(View()), prior, delim)
    {
      if eof || fail {
        fail := true;
        return prior;
      }
      line := TakeUntil(delim);
      ReadLineSplit(line, rest, delim);
      if rest == "" {
        eof, fail := true, line == "";
      } else {
        rest := rest[1..];
      }
    }
  }

  lemma ReadLineSplit(line: string, tail: string, delim: char)
    requires Free(line, delim) && (tail == "" || tail[0] == delim)
    ensures forall prior ::
      ReadLine(Stream(line + tail, false, false), prior, delim) ==
      if tail == "" then Read(Stream("", true, line == ""), line)
      else Read(Stream(tail[1..], false, false), line)
  {
    if tail == "" {
      assert line + tail == line;
    } else {
      IndexOfAfter(line, delim, tail[1..]);
      assert line + tail == line + [delim] + tail[1..];
    }
  }

  method ExtractHeader(s: InputStream, garbage: int) returns (t: int, version: int)
    modifies s
    ensures Header(t, version, s.View()) == ReadHeader(old(s.View()), garbage)
  {
    t := s.ExtractInt(garbage);
    s.ExtractChar();
    version := s.ExtractInt(PROTOCOL_VERSION);
    s.ExtractChar();
  }

  method ExtractFields(s: InputStream) returns (fields: seq<string>)
    modifies s
    ensures (s.View(), fields) == ReadFields(old(s.View()))
  {
    var from := s.GetLine("", '|');
    var to := s.GetLine("", '|');
    var body := s.GetLine("", '|');
    var key := s.GetLine("", '|');
    var timestamp := s.GetLine("", '|');
    var errorMsg := s.GetLine("", '\n');
    fields := [from, to, body, key, timestamp, errorMsg];
  }

  /** Packet's operator>>, one extraction after the other. */
  method ExtractPacket(s: InputStream, garbage: int) returns (p: Result<Packet>)
    modifies s
    ensures (s.View(), p) == ReadPacket(old(s.View()), garbage)
  {
    var t, version := ExtractHeader(s, garbage);
    var f := ExtractFields(s);
    if s.eof {
      s.eof, s.fail := false, false;
    }
    if t < 0 || t >= |TYPES| {
      return Rejected;
    }
    return Ok(Packet(TYPES[t], version, f[0], f[1], f[2], f[3], f[4], f[5]));
  }

  /** ProtocolParser::deserialize. */
  method Parse(data: string, garbage: int) returns (p: Result<Packet>)
    ensures p == Deserialize(data, garbage)
    ensures forall sent: Packet :: Clean(sent) && data == Serialize(sent) ==> p == Ok(sent)
  {
    if data == "" {
      p := Rejected;
    } else {
      var s := new InputStream(data);
      p := ExtractPacket(s, garbage);
      if s.fail {
        p := Rejected;
      }
    }
    forall sent: Packet | Clean(sent) && data == Serialize(sent)
      ensures Deserialize(data, garbage) == Ok(sent)
    {
      RoundTrip(sent, garbage);
    }
  }
}
