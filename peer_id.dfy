/**
  The peer identifier a connection adapter reports: the peer's 32-bit IPv4
  address as four dotted decimal octets, a colon, and the decimal port,
  `A.B.C.D:port`. Octet A is the most significant byte of the address.
 */
module PeerId {
  import opened Wrappers
  import opened Decimal

  /** A 16-bit unsigned port number. */
  type Port = p: nat | p < 0x1_0000

  /** The byte `(addr >> shift) & 0xFF`, narrowed to 8 bits as the
      `uint8_t` cast narrows it. */
  function Octet(addr: bv32, shift: nat): (o: bv8)
    requires shift <= 24
    ensures o as bv32 == (addr >> shift) & 0xFF
  {
    ((addr >> shift) & 0xFF) as bv8
  }

  /** The five numbers a peer id spells, in the order they are written. */
  datatype PeerFields = PeerFields(a: nat, b: nat, c: nat, d: nat, port: nat)

  /** The numbers a peer id shows for `addr` and `port`: four bytes and the port. */
  function Fields(addr: bv32, port: Port): (f: PeerFields)
    ensures f.a <= 255 && f.b <= 255 && f.c <= 255 && f.d <= 255
    ensures f.port == port
  {
    PeerFields(Octet(addr, 24) as nat, Octet(addr, 16) as nat,
               Octet(addr, 8) as nat, Octet(addr, 0) as nat, port)
  }

  /** The text `"%u.%u.%u.%u:%u"` of five numbers: nothing but digits and
      the separators, ending in the port's digits after a colon. */
  function Render(f: PeerFields): (r: string)
    ensures forall i :: 0 <= i < |r| ==> IsDigit(r[i]) || r[i] == '.' || r[i] == ':'
    ensures |r| > |Dec(f.port)| && r[|r| - |Dec(f.port)| - 1] == ':'
    ensures r[|r| - |Dec(f.port)|..] == Dec(f.port)
  {
    Dec(f.a) + "." + Dec(f.b) + "." + Dec(f.c) + "." + Dec(f.d) + ":" + Dec(f.port)
  }

  /** The peer id of a peer address and port, which takes from 9
      (`0.0.0.0:0`) to 21 (`255.255.255.255:65535`) characters. */
  function FormatPeerId(addr: bv32, port: Port): (id: string)
    ensures 9 <= |id| <= 21
  {
    var f := Fields(addr, port);
    assert Pow10(3) == 1000 && Pow10(5) == 100000 by {
      assert Pow10(1) == 10 && Pow10(2) == 100 && Pow10(4) == 10000;
    }
    DecLength(f.a, 3);
    DecLength(f.b, 3);
    DecLength(f.c, 3);
    DecLength(f.d, 3);
    DecLength(f.port, 5);
    Render(f)
  }

  /** Splits `s` at the first occurrence of `sep`, dropping the separator. */
  function SplitAt(s: string, sep: char): (r: Option<(string, string)>)
    ensures r.Some? ==> sep !in r.value.0 && s == r.value.0 + [sep] + r.value.1
    ensures r.None? ==> sep !in s
  {
    if s == [] then None
    else if s[0] == sep then Some(([], s[1..]))
    else match SplitAt(s[1..], sep)
      case None => None
      case Some((x, y)) => Some(([s[0]] + x, y))
  }

  /** The value of a canonical decimal field, or None for any other text. */
  function ParseNumber(s: string): (r: Option<nat>)
    ensures r.Some? <==> Canonical(s)
    ensures r.Some? ==> Dec(r.value) == s
  {
    if Canonical(s) then DecOfDecValue(s); Some(DecValue(s)) else None
  }

  /** Reads a peer id back: split on '.', '.', '.', ':' and read each field. */
  function ParsePeerId(id: string): Option<PeerFields> {
    match SplitAt(id, '.')
    case None => None
    case Some((ta, r1)) =>
      match SplitAt(r1, '.')
      case None => None
      case Some((tb, r2)) =>
        match SplitAt(r2, '.')
        case None => None
        case Some((tc, r3)) =>
          match SplitAt(r3, ':')
          case None => None
          case Some((td, tp)) =>
            match (ParseNumber(ta), ParseNumber(tb), ParseNumber(tc), ParseNumber(td), ParseNumber(tp))
            case (Some(a), Some(b), Some(c), Some(d), Some(p)) => Some(PeerFields(a, b, c, d, p))
            case _ => None
  }

  /** Splitting text whose first separator follows `x` yields `x` and the rest. */
  lemma {:induction false} SplitAtFirst(x: string, y: string, sep: char)
    requires sep !in x
    ensures SplitAt(x + [sep] + y, sep) == Some((x, y))
    decreases |x|
  {
    if x != [] {
      assert (x + [sep] + y)[1..] == x[1..] + [sep] + y;
      SplitAtFirst(x[1..], y, sep);
      assert [x[0]] + x[1..] == x;
    }
  }

  lemma NoSeparatorInDigits(s: string, sep: char)
    requires AllDigits(s) && !IsDigit(sep)
    ensures sep !in s
  {
  }

  /** The rendering, grouped the way the parser takes it apart. */
  lemma RenderGrouped(f: PeerFields)
    ensures Render(f) == Dec(f.a) + ['.'] + (Dec(f.b) + ['.'] + (Dec(f.c) + ['.'] + (Dec(f.d) + [':'] + Dec(f.port))))
  {
  }

  /** Parsing the text of five numbers gives them back. */
  lemma ParseRender(f: PeerFields)
    ensures ParsePeerId(Render(f)) == Some(f)
  {
    var sa, sb, sc, sd, sp := Dec(f.a), Dec(f.b), Dec(f.c), Dec(f.d), Dec(f.port);
    NoSeparatorInDigits(sa, '.');
    NoSeparatorInDigits(sb, '.');
    NoSeparatorInDigits(sc, '.');
    NoSeparatorInDigits(sd, ':');
    var r3 := sd + [':'] + sp;
    var r2 := sc + ['.'] + r3;
    var r1 := sb + ['.'] + r2;
    RenderGrouped(f);
    SplitAtFirst(sa, r1, '.');
    SplitAtFirst(sb, r2, '.');
    SplitAtFirst(sc, r3, '.');
    SplitAtFirst(sd, sp, ':');
    DecValueOfDec(f.a);
    DecValueOfDec(f.b);
    DecValueOfDec(f.c);
    DecValueOfDec(f.d);
    DecValueOfDec(f.port);
  }

  /** Whatever text parses as a peer id is exactly the rendering of its fields:
      the peer-id grammar has one spelling per value. */
  lemma RenderParse(id: string)
    requires ParsePeerId(id).Some?
    ensures Render(ParsePeerId(id).value) == id
  {
    var (ta, r1) := SplitAt(id, '.').value;
    var (tb, r2) := SplitAt(r1, '.').value;
    var (tc, r3) := SplitAt(r2, '.').value;
    var (td, tp) := SplitAt(r3, ':').value;
    var f := ParsePeerId(id).value;
    assert Dec(f.a) == ta && Dec(f.b) == tb && Dec(f.c) == tc && Dec(f.d) == td && Dec(f.port) == tp;
    RenderGrouped(f);
  }

  /** Parsing a peer id gives back the four octets and the port. */
  lemma FormatPeerIdRoundTrip(addr: bv32, port: Port)
    ensures ParsePeerId(FormatPeerId(addr, port)) == Some(Fields(addr, port))
  {
    ParseRender(Fields(addr, port));
  }

  /** The four octets, reassembled most significant first, give back the
      address: shifted-and-or'ed together, or weighted by 2^24, 2^16, 2^8 and
      1 and added (with no carries, as the equality of the two forms shows). */
  lemma OctetsRecombine(addr: bv32)
    ensures addr == (Octet(addr, 24) as bv32 << 24) | (Octet(addr, 16) as bv32 << 16)
                  | (Octet(addr, 8) as bv32 << 8) | Octet(addr, 0) as bv32
    ensures addr == Octet(addr, 24) as bv32 * 0x100_0000 + Octet(addr, 16) as bv32 * 0x1_0000
                  + Octet(addr, 8) as bv32 * 0x100 + Octet(addr, 0) as bv32
  {
  }

  lemma OctetAsNatInjective(x: bv8, y: bv8)
    requires x as nat == y as nat
    ensures x == y
  {
  }

  /** Distinct peers get distinct ids. */
  lemma FormatPeerIdInjective(addr1: bv32, port1: Port, addr2: bv32, port2: Port)
    requires FormatPeerId(addr1, port1) == FormatPeerId(addr2, port2)
    ensures addr1 == addr2 && port1 == port2
  {
    FormatPeerIdRoundTrip(addr1, port1);
    FormatPeerIdRoundTrip(addr2, port2);
    assert Fields(addr1, port1) == Fields(addr2, port2);
    OctetAsNatInjective(Octet(addr1, 24), Octet(addr2, 24));
    OctetAsNatInjective(Octet(addr1, 16), Octet(addr2, 16));
    OctetAsNatInjective(Octet(addr1, 8), Octet(addr2, 8));
    OctetAsNatInjective(Octet(addr1, 0), Octet(addr2, 0));
    OctetsRecombine(addr1);
    OctetsRecombine(addr2);
  }

  lemma LoopbackFields(port: Port)
    ensures Fields(0x7F00_0001, port) == PeerFields(127, 0, 0, 1, port)
  {
  }

  lemma SmallDecimals()
    ensures Dec(0) == "0" && Dec(1) == "1" && Dec(127) == "127"
  {
    assert Dec(1) == "1" && Dec(12) == Dec(1) + "2";
  }

  /** A peer on the loopback address 127.0.0.1 with port `port` has the id
      `"127.0.0.1:"` followed by the port in decimal. */
  lemma LoopbackPeerId(port: Port)
    ensures FormatPeerId(0x7F00_0001, port) == "127.0.0.1:" + Dec(port)
  {
    LoopbackFields(port);
    SmallDecimals();
    var f := PeerFields(127, 0, 0, 1, port);
    assert Render(f) == "127" + "." + "0" + "." + "0" + "." + "1" + ":" + Dec(port);
  }
}
