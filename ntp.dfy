/**
 * NTPClient: one request to an NTP server, the transmit timestamp of the reply converted to
 * milliseconds since 1900, and the local clock's offset from it.
 */
module Ntp {
  type byte = bv8

  /** The size of an NTP packet without authentication fields. */
  const PacketSize := 48

  /** The first header byte of the request: leap indicator 0, version 3, mode 3 (client). */
  const RequestHeader: byte := 0x1B

  /** The byte offset of the Transmit Timestamp, the time the reply left the server. */
  const ServerReplyTime := 40

  /** DateTime(1900, 1, 1).Ticks: 693595 days of 864000000000 ticks of 100 ns each. */
  const Epoch1900Ticks := 693595 * 864000000000
  const TicksPerMillisecond := 10000
  const TicksPerSecond := 10000000

  /** The request packet: the header byte and 47 zero bytes. */
  function RequestPacket(): (p: seq<byte>)
    ensures |p| == PacketSize
    ensures p[0] >> 6 == 0 && (p[0] >> 3) & 7 == 3 && p[0] & 7 == 3
    ensures forall i :: 1 <= i < |p| ==> p[i] == 0
  {
    [RequestHeader] + seq(PacketSize - 1, _ => 0)
  }

  /** Four bytes as an unsigned 32-bit value, least significant first (BitConverter.ToUInt32 on a little-endian machine). */
  function LittleEndianOf(b0: byte, b1: byte, b2: byte, b3: byte): bv32
  {
    (b0 as bv32) | ((b1 as bv32) << 8) | ((b2 as bv32) << 16) | ((b3 as bv32) << 24)
  }

  /** Four bytes in network order, most significant first, as NTP timestamps are sent. */
  function BigEndianOf(b0: byte, b1: byte, b2: byte, b3: byte): bv32
  {
    ((b0 as bv32) << 24) | ((b1 as bv32) << 16) | ((b2 as bv32) << 8) | (b3 as bv32)
  }

  function LittleEndian32(b: seq<byte>, k: nat): bv32
    requires k + 4 <= |b|
  {
    LittleEndianOf(b[k], b[k + 1], b[k + 2], b[k + 3])
  }

  function BigEndian32(b: seq<byte>, k: nat): bv32
    requires k + 4 <= |b|
  {
    BigEndianOf(b[k], b[k + 1], b[k + 2], b[k + 3])
  }

  /** SwapEndianness: the four low bytes of the 64-bit argument in reverse order, cast to 32 bits. */
  function SwapEndianness(x: bv64): bv32
  {
    var sum := ((x & 0x0000_00ff) << 24) + ((x & 0x0000_ff00) << 8) +
               ((x & 0x00ff_0000) >> 8) + ((x & 0xff00_0000) >> 24);
    (sum & 0xffff_ffff) as bv32
  }

  /** Only the low 32 bits of the argument matter. */
  lemma SwapIgnoresHighBits(x: bv64)
    ensures SwapEndianness(x) == SwapEndianness(x & 0xffff_ffff)
  {
  }

  /** Swapping twice gives back any 32-bit value. */
  lemma SwapInvolution(x: bv32)
    ensures SwapEndianness(SwapEndianness(x as bv64) as bv64) == x
  {
  }

  lemma SwapOfBytes(b0: byte, b1: byte, b2: byte, b3: byte)
    ensures SwapEndianness(LittleEndianOf(b0, b1, b2, b3) as bv64) == BigEndianOf(b0, b1, b2, b3)
  {
  }

  /** A little-endian read followed by the swap is the big-endian read of the same four bytes. */
  lemma SwapOfLittleEndianIsBigEndian(b: seq<byte>, k: nat)
    requires k + 4 <= |b|
    ensures SwapEndianness(LittleEndian32(b, k) as bv64) == BigEndian32(b, k)
  {
    SwapOfBytes(b[k], b[k + 1], b[k + 2], b[k + 3]);
  }

  /** The four bytes of a 32-bit value in network order. */
  function BigEndianBytes(v: bv32): (bs: seq<byte>)
    ensures |bs| == 4
  {
    [(v >> 24) as byte, ((v >> 16) & 0xff) as byte, ((v >> 8) & 0xff) as byte, (v & 0xff) as byte]
  }

  /** A value written in network order reads back unchanged. */
  lemma BigEndianRoundTrip(prefix: seq<byte>, v: bv32, suffix: seq<byte>)
    ensures BigEndian32(prefix + BigEndianBytes(v) + suffix, |prefix|) == v
  {
    var b := prefix + BigEndianBytes(v) + suffix;
    var k := |prefix|;
    assert b[k] == (v >> 24) as byte && b[k + 1] == ((v >> 16) & 0xff) as byte;
    assert b[k + 2] == ((v >> 8) & 0xff) as byte && b[k + 3] == (v & 0xff) as byte;
  }

  /**
   * The milliseconds of a 64-bit NTP timestamp: whole seconds times 1000, plus the 32-bit
   * binary fraction scaled to milliseconds and rounded down.
   */
  function NtpMillis(seconds: bv32, fraction: bv32): nat
  {
    (seconds as nat) * 1000 + ((fraction as nat) * 1000) / 0x1_0000_0000
  }

  /**
   * The fraction contributes 0 to 999 ms, and no intermediate product of the unsigned 64-bit
   * computation reaches 2^64, so the unbounded arithmetic above is the source's.
   */
  lemma NtpMillisBounds(seconds: bv32, fraction: bv32)
    ensures 0 <= ((fraction as nat) * 1000) / 0x1_0000_0000 <= 999
    ensures (seconds as nat) * 1000 < 0x1_0000_0000_0000_0000 && (fraction as nat) * 1000 < 0x1_0000_0000_0000_0000
    ensures NtpMillis(seconds, fraction) < 0x8000_0000_0000_0000
    ensures NtpMillis(seconds, fraction) / 1000 == seconds as nat
  {
    MillisArithmetic(seconds as nat, fraction as nat);
  }

  lemma MillisArithmetic(s: nat, f: nat)
    requires s < 0x1_0000_0000 && f < 0x1_0000_0000
    ensures 0 <= (f * 1000) / 0x1_0000_0000 <= 999
    ensures s * 1000 < 0x1_0000_0000_0000_0000 && f * 1000 < 0x1_0000_0000_0000_0000
    ensures s * 1000 + (f * 1000) / 0x1_0000_0000 < 0x8000_0000_0000_0000
    ensures (s * 1000 + (f * 1000) / 0x1_0000_0000) / 1000 == s
  {
    var t := (f * 1000) / 0x1_0000_0000;
    assert t * 0x1_0000_0000 <= f * 1000 < 1000 * 0x1_0000_0000;
  }

  /** The transmit timestamp of a reply buffer, in milliseconds since 1900. */
  function TransmitMillis(buf: seq<byte>): nat
    requires |buf| == PacketSize
  {
    NtpMillis(BigEndian32(buf, ServerReplyTime), BigEndian32(buf, ServerReplyTime + 4))
  }

  /** The NTP time's ticks: the 1900 epoch plus the milliseconds (AddMilliseconds). */
  function NetworkTicks(millis: nat): int
  {
    Epoch1900Ticks + millis * TicksPerMillisecond
  }

  /** TimeSpan.FromTicks(local - network).TotalSeconds, without double rounding. */
  function OffsetSeconds(localTicks: int, networkTicks: int): real
  {
    (localTicks - networkTicks) as real / TicksPerSecond as real
  }

  /** The buffer after Socket.Receive: the datagram over the start of the request packet. */
  function Received(reply: seq<byte>): (buf: seq<byte>)
    requires |reply| <= PacketSize
    ensures |buf| == PacketSize
  {
    reply + RequestPacket()[|reply|..]
  }

  /** A reply whose transmit timestamp is `seconds`.`fraction`, decoded, gives exactly their milliseconds. */
  lemma TransmitMillisOfReply(head: seq<byte>, seconds: bv32, fraction: bv32)
    requires |head| == ServerReplyTime
    ensures TransmitMillis(Received(head + BigEndianBytes(seconds) + BigEndianBytes(fraction))) ==
            NtpMillis(seconds, fraction)
  {
    var reply := head + BigEndianBytes(seconds) + BigEndianBytes(fraction);
    assert Received(reply) == reply;
    BigEndianRoundTrip(head, seconds, BigEndianBytes(fraction));
    assert reply == head + BigEndianBytes(seconds) + BigEndianBytes(fraction);
    BigEndianRoundTrip(head + BigEndianBytes(seconds), fraction, []);
    assert head + BigEndianBytes(seconds) + BigEndianBytes(fraction) + [] == reply;
  }

  /**
   * What the socket exchange did: a reply of at most one packet with the local clock read
   * before sending, an exception of the three kinds the client catches (socket errors,
   * invalid or disposed socket operations), or any other exception, which escapes.
   */
  datatype Exchange =
    | Replied(localTicks: int, reply: seq<byte>)
    | Caught
    | Escaped

  class NtpClient {
    var ntpTimeOffset: real
    var ntpError: bool
    var ntpNetworkTimeTicks: int
    var localTimeTicks: int

    constructor ()
      ensures ntpTimeOffset == 0.0 && !ntpError
    {
      ntpTimeOffset := 0.0;
      ntpError := false;
    }

    /** Socket.Receive into the request buffer: the datagram overwrites its first bytes. */
    static method Receive(buf: array<byte>, reply: seq<byte>)
      requires |reply| <= buf.Length
      modifies buf
      ensures buf[..] == reply + old(buf[..])[|reply|..]
    {
      for i := 0 to |reply|
        invariant forall j :: 0 <= j < i ==> buf[j] == reply[j]
        invariant forall j :: i <= j < buf.Length ==> buf[j] == old(buf[j])
      {
        buf[i] := reply[i];
      }
      assert buf[..] == reply + old(buf[..])[|reply|..];
    }

    /**
     * getNTPTimeAndCalcOffset. A caught exception sets ntpError and keeps the previous offset;
     * an escaping one changes nothing; a reply sets the offset from its transmit timestamp and
     * clears ntpError. The result says whether an exception escaped.
     */
    method GetNtpTimeAndCalcOffset(exchange: Exchange) returns (escaped: bool)
      requires exchange.Replied? ==> |exchange.reply| <= PacketSize
      modifies this
      ensures escaped <==> exchange.Escaped?
      ensures exchange.Escaped? ==>
        ntpError == old(ntpError) && ntpTimeOffset == old(ntpTimeOffset) &&
        ntpNetworkTimeTicks == old(ntpNetworkTimeTicks) && localTimeTicks == old(localTimeTicks)
      ensures exchange.Caught? ==>
        ntpError && ntpTimeOffset == old(ntpTimeOffset) &&
        ntpNetworkTimeTicks == old(ntpNetworkTimeTicks) && localTimeTicks == old(localTimeTicks)
      ensures exchange.Replied? ==>
        var network := NetworkTicks(TransmitMillis(Received(exchange.reply)));
        && !ntpError
        && localTimeTicks == exchange.localTicks
        && ntpNetworkTimeTicks == network
        && ntpTimeOffset == OffsetSeconds(exchange.localTicks, network)
    {
      var ntpData := new byte[PacketSize](_ => 0);
      ntpData[0] := RequestHeader;
      assert ntpData[..] == RequestPacket();
      match exchange {
        case Escaped =>
          return true;
        case Caught =>
          ntpError := true;
          return false;
        case Replied(localTime, reply) =>
          Receive(ntpData, reply);
          var buf := ntpData[..];
          assert buf == Received(reply);
          var intPart := LittleEndian32(buf, ServerReplyTime) as bv64;
          var fractPart := LittleEndian32(buf, ServerReplyTime + 4) as bv64;
          var seconds := SwapEndianness(intPart);
          var fraction := SwapEndianness(fractPart);
          SwapOfLittleEndianIsBigEndian(buf, ServerReplyTime);
          SwapOfLittleEndianIsBigEndian(buf, ServerReplyTime + 4);
          var milliseconds := (seconds as nat * 1000) + ((fraction as nat * 1000) / 0x1_0000_0000);
          localTimeTicks := localTime;
          ntpNetworkTimeTicks := Epoch1900Ticks + milliseconds * TicksPerMillisecond;
          ntpTimeOffset := (localTimeTicks - ntpNetworkTimeTicks) as real / TicksPerSecond as real;
          ntpError := false;
          return false;
      }
    }
  }
}
