/**
 * DataUDPStream: validation of the configured IPv4 address and port strings, and the
 * connect/disconnect life cycle of the UDP client that streams data to the bridge.
 */
module Udp {
  import opened Text
  import opened Wrappers

  type byte = bv8

  const MinPort := 0
  const MaxPort := 65535

  // ---------------------------------------------------------------- text helpers

  /** char.IsWhiteSpace: the Unicode space separators, line and paragraph separators, and the C0/C1 format controls. */
  predicate IsWhiteSpace(c: char)
  {
    ('\t' <= c <= '\r') || c == ' ' || c == '\U{85}' || c == '\U{A0}' || c == '\U{1680}' ||
    ('\U{2000}' <= c <= '\U{200A}') || c == '\U{2028}' || c == '\U{2029}' || c == '\U{202F}' ||
    c == '\U{205F}' || c == '\U{3000}'
  }

  /** String.IsNullOrWhiteSpace. */
  predicate IsNullOrWhiteSpace(s: Option<string>)
  {
    s.None? || forall i :: 0 <= i < |s.value| ==> IsWhiteSpace(s.value[i])
  }

  /** String.Split(sep): the pieces between separators, empty pieces included. */
  function Split(s: string, sep: char): (parts: seq<string>)
    ensures |parts| >= 1
    decreases |s|
  {
    if s == [] then [[]]
    else
      var rest := Split(s[1..], sep);
      if s[0] == sep then [[]] + rest else [[s[0]] + rest[0]] + rest[1..]
  }

  /** String.Join(sep, parts), the inverse of Split. */
  function Join(parts: seq<string>, sep: char): string
    requires |parts| >= 1
    decreases |parts|
  {
    if |parts| == 1 then parts[0] else parts[0] + [sep] + Join(parts[1..], sep)
  }

  /** Splitting loses nothing: the pieces contain no separator and join back to the string. */
  lemma {:induction false} JoinSplit(s: string, sep: char)
    ensures Join(Split(s, sep), sep) == s
    ensures forall i :: 0 <= i < |Split(s, sep)| ==> sep !in Split(s, sep)[i]
    decreases |s|
  {
    if s != [] {
      JoinSplit(s[1..], sep);
      var rest := Split(s[1..], sep);
      if s[0] != sep {
        var parts := Split(s, sep);
        assert parts[1..] == rest[1..];
        assert forall i :: 1 <= i < |parts| ==> parts[i] == rest[i];
        if |rest| == 1 {
          assert s == [s[0]] + s[1..];
        } else {
          assert rest == [rest[0]] + rest[1..];
          assert Join(rest, sep) == rest[0] + [sep] + Join(rest[1..], sep);
          assert s == [s[0]] + s[1..];
        }
      } else {
        assert Split(s, sep)[1..] == rest;
        assert s == [sep] + s[1..];
      }
    }
  }

  /** The number of occurrences of `c` in `s`. */
  function Occurrences(s: string, c: char): nat
  {
    if s == [] then 0 else (if s[0] == c then 1 else 0) + Occurrences(s[1..], c)
  }

  /** Split yields one piece more than there are separators. */
  lemma {:induction false} SplitCount(s: string, sep: char)
    ensures |Split(s, sep)| == Occurrences(s, sep) + 1
    decreases |s|
  {
    if s != [] {
      SplitCount(s[1..], sep);
    }
  }

  /** Joining pieces that contain no separator and splitting again gives the pieces back. */
  lemma {:induction false} SplitJoin(parts: seq<string>, sep: char)
    requires |parts| >= 1
    requires forall i :: 0 <= i < |parts| ==> sep !in parts[i]
    ensures Split(Join(parts, sep), sep) == parts
    decreases |parts|, |parts[0]|
  {
    var p := parts[0];
    if p == [] {
      if |parts| > 1 {
        SplitJoin(parts[1..], sep);
        assert Join(parts, sep) == [sep] + Join(parts[1..], sep);
        assert Join(parts, sep)[1..] == Join(parts[1..], sep);
      }
    } else {
      var tail := [p[1..]] + parts[1..];
      assert forall i :: 1 <= i < |tail| ==> tail[i] == parts[i];
      assert p[1..] == p[1..] && sep !in p[1..] by {
        assert forall c :: c in p[1..] ==> c in p;
      }
      SplitJoin(tail, sep);
      if |parts| == 1 {
        assert Join(parts, sep) == p;
        assert Join(tail, sep) == p[1..];
      } else {
        assert Join(tail, sep) == p[1..] + [sep] + Join(parts[1..], sep);
        assert Join(parts, sep) == [p[0]] + Join(tail, sep);
      }
      assert Join(parts, sep)[0] == p[0] && Join(parts, sep)[1..] == Join(tail, sep);
      assert p == [p[0]] + p[1..];
    }
  }

  // ---------------------------------------------------------------- integer parsing

  /** The white space that integer parsing skips around a number. */
  predicate IsNumberWhite(c: char)
  {
    c == ' ' || '\t' <= c <= '\r'
  }

  function TrimStart(s: string): (t: string)
    ensures |t| <= |s| && (t != [] ==> !IsNumberWhite(t[0]))
  {
    if s != [] && IsNumberWhite(s[0]) then TrimStart(s[1..]) else s
  }

  function TrimEnd(s: string): (t: string)
    ensures |t| <= |s| && (t != [] ==> !IsNumberWhite(t[|t| - 1]))
  {
    if s != [] && IsNumberWhite(s[|s| - 1]) then TrimEnd(s[..|s| - 1]) else s
  }

  predicate AllDigits(s: string)
  {
    forall i :: 0 <= i < |s| ==> '0' <= s[i] <= '9'
  }

  /**
   * The integer grammar of byte.TryParse and Int32.Parse with the default number style:
   * optional white space, an optional '+' or '-', at least one decimal digit, optional white
   * space. The result is the value before any range check.
   */
  function ParseInteger(s: string): Option<int>
  {
    var t := TrimEnd(TrimStart(s));
    var signed := |t| > 0 && (t[0] == '-' || t[0] == '+');
    var digits := if signed then t[1..] else t;
    if |digits| > 0 && AllDigits(digits) then
      var v: int := DigitsValue(digits);
      Some(if signed && t[0] == '-' then -v else v)
    else None
  }

  /** A bare string of digits parses to its value. */
  lemma ParseIntegerOfDigits(d: string)
    requires |d| > 0 && AllDigits(d)
    ensures ParseInteger(d) == Some(DigitsValue(d))
  {
    assert !IsNumberWhite(d[0]) && !IsNumberWhite(d[|d| - 1]);
    assert TrimStart(d) == d;
    assert TrimEnd(d) == d;
  }

  /** Decimal digits parse to their value. */
  lemma ParseIntegerOfDec(n: nat)
    ensures ParseInteger(Dec(n)) == Some(n)
  {
    ParseIntegerOfDigits(Dec(n));
    DigitsValueOfDec(n);
  }

  /** byte.TryParse: the grammar above with a value in 0..255 ("-0" included). */
  predicate TryParseByte(s: string)
  {
    var v := ParseInteger(s);
    v.Some? && 0 <= v.value <= 255
  }

  /** isValidIPAdress on the ipString field, which may be null. */
  predicate IsValidIPAddress(ipString: Option<string>)
  {
    if IsNullOrWhiteSpace(ipString) then false
    else
      var parts := Split(ipString.value, '.');
      |parts| == 4 && AllBytes(parts)
  }

  /** Enumerable.All(byte.TryParse) over the pieces. */
  predicate AllBytes(parts: seq<string>)
  {
    forall i :: 0 <= i < |parts| ==> TryParseByte(parts[i])
  }

  /** A blank or null string is rejected, and an accepted string has exactly three dots. */
  lemma IsValidIPAddressShape(ipString: Option<string>)
    ensures IsNullOrWhiteSpace(ipString) ==> !IsValidIPAddress(ipString)
    ensures IsValidIPAddress(ipString) ==> Occurrences(ipString.value, '.') == 3
  {
    if ipString.Some? {
      SplitCount(ipString.value, '.');
    }
  }

  /** The dotted-quad text of four byte values. */
  function DottedQuad(a: nat, b: nat, c: nat, d: nat): string
  {
    Join([Dec(a), Dec(b), Dec(c), Dec(d)], '.')
  }

  /** Decimal digits never contain the separator. */
  lemma DecHasNoDot(n: nat)
    ensures '.' !in Dec(n)
  {
    var d := Dec(n);
    assert forall j :: 0 <= j < |d| ==> d[j] != '.';
  }

  /** Four byte-parsable pieces without dots, the first starting with a non-blank, join into a valid address. */
  lemma JoinedBytesValid(p0: string, p1: string, p2: string, p3: string)
    requires TryParseByte(p0) && TryParseByte(p1) && TryParseByte(p2) && TryParseByte(p3)
    requires '.' !in p0 && '.' !in p1 && '.' !in p2 && '.' !in p3
    requires |p0| > 0 && !IsWhiteSpace(p0[0])
    ensures IsValidIPAddress(Some(Join([p0, p1, p2, p3], '.')))
  {
    var parts := [p0, p1, p2, p3];
    var s := Join(parts, '.');
    assert !IsNullOrWhiteSpace(Some(s)) by {
      assert s == p0 + ['.'] + Join(parts[1..], '.');
      assert s[0] == p0[0];
    }
    assert Split(s, '.') == parts by {
      SplitJoin(parts, '.');
    }
    assert AllBytes(parts);
  }

  /** The decimal text of a byte value passes byte.TryParse. */
  lemma ByteTextParses(n: nat)
    requires n <= 255
    ensures TryParseByte(Dec(n))
  {
    ParseIntegerOfDec(n);
  }

  /** The decimal text of a byte value is a dot-free part the byte parser accepts. */
  lemma BytePart(a: nat)
    requires a <= 255
    ensures '.' !in Dec(a) && TryParseByte(Dec(a))
    ensures |Dec(a)| > 0 && !IsWhiteSpace(Dec(a)[0])
  {
    DecHasNoDot(a);
    ByteTextParses(a);
    assert '0' <= Dec(a)[0] <= '9';
  }

  /** Every dotted quad of values up to 255 passes the validator. */
  lemma DottedQuadValid(a: nat, b: nat, c: nat, d: nat)
    requires a <= 255 && b <= 255 && c <= 255 && d <= 255
    ensures IsValidIPAddress(Some(DottedQuad(a, b, c, d)))
  {
    BytePart(a);
    BytePart(b);
    BytePart(c);
    BytePart(d);
    JoinedBytesValid(Dec(a), Dec(b), Dec(c), Dec(d));
  }

  /** What Int32.Parse does with the port string. */
  datatype PortParse = Parsed(value: int) | FormatError | Overflow

  function ParseInt32(s: string): PortParse
  {
    match ParseInteger(s)
      case None => FormatError
      case Some(v) => if -0x8000_0000 <= v < 0x8000_0000 then Parsed(v) else Overflow
  }

  /**
   * parsePort: the parsed value, or -1 for a malformed string. Only FormatException is caught,
   * so a number outside the 32-bit range escapes as an exception: None.
   */
  function ParsePort(port: string): Option<int>
  {
    match ParseInt32(port)
      case Parsed(v) => Some(v)
      case FormatError => Some(-1)
      case Overflow => None
  }

  /** isValidPort: whether the parsed port lies in 0..65535; None when parsing throws. */
  function IsValidPort(port: string): Option<bool>
  {
    match ParsePort(port)
      case Some(v) => Some(MinPort <= v <= MaxPort)
      case None => None
  }

  /**
   * A port is valid exactly when it parses to 0..65535; a malformed string is invalid through
   * the -1 sentinel; an over-long number throws instead of being rejected; the decimal text of
   * any port number is valid.
   */
  lemma IsValidPortSpec(port: string, n: nat)
    ensures IsValidPort(port) == Some(true) <==>
      ParseInteger(port).Some? && MinPort <= ParseInteger(port).value <= MaxPort
    ensures ParseInteger(port).None? ==> IsValidPort(port) == Some(false)
    ensures IsValidPort(port).None? <==>
      ParseInteger(port).Some? && !(-0x8000_0000 <= ParseInteger(port).value < 0x8000_0000)
    ensures n <= MaxPort ==> IsValidPort(Dec(n)) == Some(true)
  {
    ParseIntegerOfDec(n);
  }

  // ---------------------------------------------------------------- the stream

  /** An IPAddress value; IPAddress.Parse itself is not modelled. */
  datatype Address = Address(bytes: seq<byte>)

  /** An IPEndPoint object. */
  class EndPoint {
    const address: Address
    const port: int

    constructor (address: Address, port: int)
      ensures this.address == address && this.port == port
    {
      this.address := address;
      this.port := port;
    }
  }

  /** A UdpClient: whether it was closed, where it is connected, and the datagrams it sent. */
  class UdpSocket {
    var closed: bool
    var remote: EndPoint?
    var sent: seq<seq<byte>>

    constructor ()
      ensures !closed && remote == null && sent == []
    {
      closed := false;
      remote := null;
      sent := [];
    }

    method Close()
      modifies this
      ensures closed && remote == old(remote) && sent == old(sent)
    {
      closed := true;
    }

    method Connect(endPoint: EndPoint)
      modifies this
      ensures remote == endPoint && closed == old(closed) && sent == old(sent)
    {
      remote := endPoint;
    }
  }

  /** How createSendAction ended. */
  datatype CreateOutcome =
    | Created
    | AddressFormatError   // IPAddress.Parse rejected ipString, or it was null
    | PortOverflow         // Int32.Parse overflowed inside parsePort
    | PortOutOfRange       // new IPEndPoint refused a port outside 0..65535

  class DataUdpStream {
    var ipString: Option<string>
    var port: string
    var udpClient: UdpSocket?
    var ipEndPoint: EndPoint?
    var connected: bool

    constructor ()
      ensures ipString == Some("192.168.178.108") && port == "8081"
      ensures udpClient == null && ipEndPoint == null && !connected
    {
      ipString := Some("192.168.178.108");
      port := "8081";
      udpClient := null;
      ipEndPoint := null;
      connected := false;
    }

    /** A connected stream has a client: connected is only ever set right after one was created. */
    predicate Valid()
      reads this
    {
      connected ==> udpClient != null
    }

    /** disconnect: closes the client when connected and clears the flag; otherwise nothing. */
    method Disconnect()
      requires Valid()
      modifies this, udpClient
      ensures Valid() && !connected
      ensures udpClient == old(udpClient) && ipEndPoint == old(ipEndPoint)
      ensures ipString == old(ipString) && port == old(port)
      ensures old(connected) ==> udpClient.closed && udpClient.remote == old(udpClient.remote) && udpClient.sent == old(udpClient.sent)
      ensures !old(connected) ==> udpClient != null ==> unchanged(udpClient)
    {
      if connected {
        udpClient.Close();
        connected := false;
      }
    }

    /**
     * createSendAction: replaces the client (disconnecting the old one first), then keeps the
     * endpoint when it already has the parsed address and port and makes a new one otherwise,
     * connects and sets connected. `parsed` is IPAddress.Parse of ipString. The send action it
     * returns is SendAction below.
     */
    method CreateSendAction(parsed: Option<Address>) returns (outcome: CreateOutcome)
      requires Valid()
      modifies this, udpClient
      ensures Valid()
      ensures ipString == old(ipString) && port == old(port)
      ensures udpClient != null && fresh(udpClient) && udpClient.sent == [] && !udpClient.closed
      ensures !connected ==> udpClient.remote == null
      ensures old(udpClient) != null ==>
        old(udpClient).remote == old(udpClient.remote) && old(udpClient).sent == old(udpClient.sent)
      ensures old(udpClient) != null && old(connected) ==> old(udpClient).closed
      ensures old(udpClient) != null && !old(connected) ==> old(udpClient).closed == old(udpClient.closed)
      ensures parsed.None? ==> outcome == AddressFormatError && !connected && ipEndPoint == old(ipEndPoint)
      ensures parsed.Some? && ParsePort(port).None? ==> outcome == PortOverflow && !connected && ipEndPoint == old(ipEndPoint)
      ensures parsed.Some? && ParsePort(port).Some? ==>
        var p := ParsePort(port).value;
        var keep := old(ipEndPoint) != null && old(ipEndPoint.address) == parsed.value && old(ipEndPoint.port) == p;
        if keep then
          outcome == Created && ipEndPoint == old(ipEndPoint) && connected && udpClient.remote == ipEndPoint
        else if MinPort <= p <= MaxPort then
          && outcome == Created && connected && fresh(ipEndPoint)
          && ipEndPoint.address == parsed.value && ipEndPoint.port == p && udpClient.remote == ipEndPoint
        else
          outcome == PortOutOfRange && !connected && ipEndPoint == old(ipEndPoint)
    {
      if udpClient == null {
        udpClient := new UdpSocket();
      } else {
        Disconnect();
        udpClient := new UdpSocket();
      }
      if parsed.None? {
        return AddressFormatError;
      }
      var portNew := ParsePort(port);
      if portNew.None? {
        return PortOverflow;
      }
      var address, p := parsed.value, portNew.value;
      if ipEndPoint == null || ipEndPoint.address != address || ipEndPoint.port != p {
        if !(MinPort <= p <= MaxPort) {
          return PortOutOfRange;
        }
        ipEndPoint := new EndPoint(address, p);
      }
      udpClient.Connect(ipEndPoint);
      connected := true;
      return Created;
    }

    /**
     * The returned action: sends a non-empty, non-null byte array through the current client.
     * A closed client, or one that was never connected to an endpoint, makes the send throw;
     * the exception is swallowed, so nothing is sent then.
     */
    method SendAction(bytes: Option<seq<byte>>)
      modifies udpClient
      ensures udpClient != null && bytes.Some? && |bytes.value| > 0 && !old(udpClient.closed) && old(udpClient.remote) != null ==>
        udpClient.sent == old(udpClient.sent) + [bytes.value]
      ensures !(udpClient != null && bytes.Some? && |bytes.value| > 0 && !old(udpClient.closed) && old(udpClient.remote) != null) ==>
        udpClient != null ==> udpClient.sent == old(udpClient.sent)
      ensures udpClient != null ==> udpClient.closed == old(udpClient.closed) && udpClient.remote == old(udpClient.remote)
    {
      if udpClient != null && bytes.Some? && |bytes.value| > 0 {
        if !udpClient.closed && udpClient.remote != null {
          udpClient.sent := udpClient.sent + [bytes.value];
        }
      }
    }
  }
}
