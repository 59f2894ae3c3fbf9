/** The two pcap readers: `parse_arp_pcap` in
    charm/payload/vlan_neighbor_validator.py and `parse_lacp_pcap` in
    charm/payload/bond_validator.py.

    Both walk the records of a capture the same way and differ in what they
    decode from a frame, so what they share is stated once, for any decoder. */
module Pcap {
  import opened Order

  type Byte = n: int | 0 <= n < 256
  type Bytes = seq<Byte>

  datatype Endian = Little | Big

  const MAGICS_LITTLE: set<Bytes> := {[0xd4, 0xc3, 0xb2, 0xa1], [0x4d, 0x3c, 0xb2, 0xa1]}
  const MAGICS_BIG: set<Bytes> := {[0xa1, 0xb2, 0xc3, 0xd4], [0xa1, 0xb2, 0x3c, 0x4d]}
  const ETHERTYPE_VLAN := 0x8100
  const ETHERTYPE_ARP := 0x0806
  const ETHERTYPE_LACP := 0x8809
  const LACP_SUBTYPE := 0x01

  // ----- reading ------------------------------------------------------------

  function U16(b: Bytes): nat
    requires |b| == 2
  {
    256 * (b[0] as int) + b[1] as int
  }

  function Quad(a: Byte, b: Byte, c: Byte, d: Byte): nat {
    0x100_0000 * (a as int) + 0x1_0000 * (b as int) + 0x100 * (c as int) + d as int
  }

  function U32(e: Endian, b: Bytes): nat
    requires |b| == 4
  {
    if e == Big then Quad(b[0], b[1], b[2], b[3]) else Quad(b[3], b[2], b[1], b[0])
  }

  /** Byte order of a capture; None when it is too short or not a capture. */
  function EndianOf(data: Bytes): Option<Endian> {
    if |data| < 24 then None
    else if data[..4] in MAGICS_LITTLE then Some(Little)
    else if data[..4] in MAGICS_BIG then Some(Big)
    else None
  }

  function Min(a: nat, b: nat): nat { if a < b then a else b }

  /** How the length field of a record is read. */
  type Reader = Bytes -> nat

  function ReaderOf(e: Endian): Reader {
    b => if |b| == 4 then U32(e, b) else 0
  }

  function Length(data: Bytes, read: Reader, offset: nat): nat
    requires offset + 16 <= |data|
  {
    read(data[offset + 8..offset + 12])
  }

  /** The captured frame of the record at `offset`, cut where the data ends. */
  function Frame(data: Bytes, read: Reader, offset: nat): Bytes
    requires offset + 16 <= |data|
  {
    data[offset + 16..Min(offset + 16 + Length(data, read, offset), |data|)]
  }

  function AsList<T>(o: Option<T>): seq<T> { if o.Some? then [o.value] else [] }

  function ParseFrom<T>(decode: Bytes -> Option<T>, data: Bytes, read: Reader, offset: nat): seq<T>
    decreases |data| - offset
  {
    if offset + 16 > |data| then []
    else
      AsList(decode(Frame(data, read, offset)))
        + ParseFrom(decode, data, read, offset + 16 + Length(data, read, offset))
  }

  /** What a reader makes of a capture. */
  function Parse<T>(decode: Bytes -> Option<T>, data: Bytes): seq<T> {
    match EndianOf(data)
    case None => []
    case Some(e) => ParseFrom(decode, data, ReaderOf(e), 24)
  }

  lemma OneRecord<T>(decode: Bytes -> Option<T>, data: Bytes, read: Reader, offset: nat, done: seq<T>)
    requires offset + 16 <= |data|
    ensures done + ParseFrom(decode, data, read, offset)
            == (done + AsList(decode(Frame(data, read, offset))))
               + ParseFrom(decode, data, read, offset + 16 + Length(data, read, offset))
  {
  }

  lemma RecordRead<T>(
    decode: Bytes -> Option<T>, data: Bytes, read: Reader, offset: nat, done: seq<T>, item: Option<T>)
    requires offset + 16 <= |data| && item == decode(Frame(data, read, offset))
    ensures done + ParseFrom(decode, data, read, offset)
            == (done + AsList(item)) + ParseFrom(decode, data, read, offset + 16 + Length(data, read, offset))
  {
    OneRecord(decode, data, read, offset, done);
  }

  lemma ParseStep<T>(decode: Bytes -> Option<T>, data: Bytes, read: Reader, offset: nat)
    requires offset + 16 <= |data|
    ensures ParseFrom(decode, data, read, offset)
            == AsList(decode(Frame(data, read, offset)))
              + ParseFrom(decode, data, read, offset + 16 + Length(data, read, offset))
  {
  }

  // ----- ethernet -----------------------------------------------------------

  datatype Ethernet = Ethernet(ethertype: nat, payload: Bytes)

  /** Ethertype and payload, looking through one 802.1Q tag. */
  function Unframe(frame: Bytes): Option<Ethernet> {
    if |frame| < 14 then None
    else
      var ethertype, payload := U16(frame[12..14]), frame[14..];
      if ethertype == ETHERTYPE_VLAN && |payload| >= 4 then Some(Ethernet(U16(payload[2..4]), payload[4..]))
      else Some(Ethernet(ethertype, payload))
  }

  // ----- text of a MAC address ----------------------------------------------

  const HEX := "0123456789abcdef"

  function MacText(b: Bytes): string {
    if b == [] then ""
    else (if |b| > 1 then MacText(b[..|b| - 1]) + ":" else "") + [HEX[b[|b| - 1] / 16], HEX[b[|b| - 1] % 16]]
  }

  lemma {:induction false} MacTextLength(b: Bytes)
    requires b != []
    ensures |MacText(b)| == 3 * |b| - 1
  {
    if |b| > 1 { MacTextLength(b[..|b| - 1]); }
  }

  function HexDigit(d: nat): char
    requires d < 16
  {
    if d < 10 then '0' + d as char else 'a' + (d - 10) as char
  }

  lemma HexMeaning(d: nat)
    requires d < 16
    ensures HEX[d] == HexDigit(d)
  {
  }

  lemma MacTextEnd(b: Bytes)
    requires b != []
    ensures var n, x := |b| - 1, b[|b| - 1];
      MacText(b) == (if n > 0 then MacText(b[..n]) + ":" else "") + [HexDigit(x / 16), HexDigit(x % 16)]
  {
    HexMeaning(b[|b| - 1] / 16);
    HexMeaning(b[|b| - 1] % 16);
  }

  lemma WithinPrefix(text: string, before: string, i: nat)
    requires before <= text && i + 2 <= |before|
    ensures text[i..i + 2] == before[i..i + 2]
  {
  }

  /** What the text is: octet `k` stands at positions 3k and 3k + 1, as two
      lower-case digits, with a colon before the next octet. */
  lemma {:induction false} MacTextMeaning(b: Bytes, k: nat)
    requires k < |b|
    ensures |MacText(b)| == 3 * |b| - 1
    ensures MacText(b)[3 * k..3 * k + 2] == [HexDigit(b[k] / 16), HexDigit(b[k] % 16)]
    ensures k + 1 < |b| ==> MacText(b)[3 * k + 2] == ':'
  {
    MacTextLength(b);
    MacTextEnd(b);
    var n := |b| - 1;
    if k < n {
      MacTextLength(b[..n]);
      MacTextMeaning(b[..n], k);
      WithinPrefix(MacText(b), MacText(b[..n]), 3 * k);
    }
  }

  lemma HexDigits(x: nat, y: nat)
    requires x < 16 && y < 16 && HEX[x] == HEX[y]
    ensures x == y
  {
  }

  /** Two addresses of the same size read the same only when they are the same. */
  lemma {:induction false} MacTextInjective(a: Bytes, b: Bytes)
    requires |a| == |b| && MacText(a) == MacText(b)
    ensures a == b
  {
    if a != [] {
      var n := |a| - 1;
      MacTextLength(a);
      var text := MacText(a);
      assert text[|text| - 2] == HEX[a[n] / 16] && text[|text| - 1] == HEX[a[n] % 16];
      assert text[|text| - 2] == HEX[b[n] / 16] && text[|text| - 1] == HEX[b[n] % 16];
      HexDigits(a[n] / 16, b[n] / 16);
      HexDigits(a[n] % 16, b[n] % 16);
      if n > 0 {
        assert MacText(a[..n]) == text[..|text| - 3];
        assert MacText(b[..n]) == text[..|text| - 3];
        MacTextInjective(a[..n], b[..n]);
      }
      assert a == a[..n] + [a[n]] && b == b[..n] + [b[n]];
    }
  }

  // ----- text of an IP address ----------------------------------------------

  const DIGITS := "0123456789"

  function Decimal(n: nat): string {
    (if n < 10 then "" else Decimal(n / 10)) + [DIGITS[n % 10]]
  }

  /** `socket.inet_ntoa`. */
  function IpText(b: Bytes): string {
    if b == [] then ""
    else if |b| == 1 then Decimal(b[0])
    else IpText(b[..|b| - 1]) + "." + Decimal(b[|b| - 1])
  }

  lemma DecimalDigits(x: nat, y: nat)
    requires x < 10 && y < 10 && DIGITS[x] == DIGITS[y]
    ensures x == y
  {
  }

  lemma {:induction false} DecimalHasNoDot(n: nat)
    ensures Decimal(n) != "" && '.' !in Decimal(n)
  {
    if n >= 10 { DecimalHasNoDot(n / 10); }
  }

  lemma {:induction false} DecimalInjective(m: nat, n: nat)
    requires Decimal(m) == Decimal(n)
    ensures m == n
  {
    var a, b := Decimal(m), Decimal(n);
    if m >= 10 { DecimalHasNoDot(m / 10); }
    if n >= 10 { DecimalHasNoDot(n / 10); }
    assert a[|a| - 1] == DIGITS[m % 10] && b[|b| - 1] == DIGITS[n % 10];
    DecimalDigits(m % 10, n % 10);
    var c := if m < 10 then "" else Decimal(m / 10);
    var d := if n < 10 then "" else Decimal(n / 10);
    assert c == a[..|a| - 1] && d == b[..|b| - 1];
    if m >= 10 && n >= 10 { DecimalInjective(m / 10, n / 10); }
  }

  predicate AllDigits(s: string) {
    forall i :: 0 <= i < |s| ==> '0' <= s[i] <= '9'
  }

  /** The number a string of decimal digits stands for. */
  function ReadDecimal(s: string): nat
    requires AllDigits(s)
  {
    if s == "" then 0 else 10 * ReadDecimal(s[..|s| - 1]) + (s[|s| - 1] - '0') as int
  }

  /** The digits are the number's, with no zero in front. */
  predicate Denotes(s: string, n: nat) {
    s != "" && AllDigits(s) && ReadDecimal(s) == n && (s[0] == '0' ==> |s| == 1)
  }

  lemma DigitMeaning(d: nat)
    requires d < 10
    ensures '0' <= DIGITS[d] <= '9' && (DIGITS[d] - '0') as int == d
  {
  }

  lemma OneDigit(c: char)
    requires '0' <= c <= '9'
    ensures Denotes([c], (c - '0') as int)
  {
    assert [c][..0] == "";
  }

  lemma OneMoreDigit(t: string, m: nat, c: char)
    requires Denotes(t, m) && m > 0 && '0' <= c <= '9'
    ensures Denotes(t + [c], 10 * m + (c - '0') as int)
  {
    var s := t + [c];
    assert s[..|t|] == t && s[|t|] == c;
    OneDigit(t[0]);
    assert |t| == 1 ==> t == [t[0]];
  }

  lemma {:induction false} DecimalMeaning(n: nat)
    ensures Denotes(Decimal(n), n)
  {
    var c := DIGITS[n % 10];
    DigitMeaning(n % 10);
    if n < 10 {
      OneDigit(c);
    } else {
      var m := n / 10;
      assert n == 10 * m + (c - '0') as int && m > 0;
      DecimalMeaning(m);
      OneMoreDigit(Decimal(m), m, c);
    }
  }

  /** The text cut at its dots. */
  function Fields(s: string): (r: seq<string>)
    ensures r != []
  {
    if s == "" then [""]
    else
      var r := Fields(s[..|s| - 1]);
      if s[|s| - 1] == '.' then r + [""] else r[..|r| - 1] + [r[|r| - 1] + [s[|s| - 1]]]
  }

  lemma {:induction false} FieldsAfterDot(x: string, d: string)
    requires '.' !in d
    ensures Fields(x + "." + d) == Fields(x) + [d]
  {
    var s := x + "." + d;
    if d == "" {
      assert s[..|s| - 1] == x;
    } else {
      var n := |d| - 1;
      assert s[..|s| - 1] == x + "." + d[..n] && s[|s| - 1] == d[n];
      FieldsAfterDot(x, d[..n]);
      assert d == d[..n] + [d[n]];
    }
  }

  lemma {:induction false} FieldsWithoutDot(d: string)
    requires '.' !in d
    ensures Fields(d) == [d]
  {
    if d != "" {
      var n := |d| - 1;
      FieldsWithoutDot(d[..n]);
      assert d == d[..n] + [d[n]];
    }
  }

  lemma IpTextEnd(b: Bytes)
    requires |b| > 1
    ensures Fields(IpText(b)) == Fields(IpText(b[..|b| - 1])) + [Decimal(b[|b| - 1])]
  {
    DecimalHasNoDot(b[|b| - 1]);
    FieldsAfterDot(IpText(b[..|b| - 1]), Decimal(b[|b| - 1]));
  }

  lemma IpTextOnly(b: Bytes)
    requires |b| == 1
    ensures Fields(IpText(b)) == [Decimal(b[0])]
  {
    DecimalHasNoDot(b[0]);
    FieldsWithoutDot(Decimal(b[0]));
  }

  function Decimals(b: Bytes): seq<string> { seq(|b|, k requires 0 <= k < |b| => Decimal(b[k])) }

  lemma DecimalsEnd(b: Bytes, fields: seq<string>)
    requires b != [] && fields == Decimals(b[..|b| - 1])
    ensures fields + [Decimal(b[|b| - 1])] == Decimals(b)
  {
  }

  lemma {:induction false} IpTextFields(b: Bytes)
    requires b != []
    ensures Fields(IpText(b)) == Decimals(b)
  {
    if |b| == 1 {
      IpTextOnly(b);
    } else {
      IpTextEnd(b);
      IpTextFields(b[..|b| - 1]);
      DecimalsEnd(b, Fields(IpText(b[..|b| - 1])));
    }
  }

  /** Reading the text back gives the octets: one field each, in order. */
  lemma IpTextMeaning(b: Bytes, k: nat)
    requires k < |b|
    ensures |Fields(IpText(b))| == |b| && Denotes(Fields(IpText(b))[k], b[k])
  {
    IpTextFields(b);
    DecimalMeaning(b[k]);
  }

  // ----- ARP ----------------------------------------------------------------

  /** Sender MAC and sender IP, as text. */
  type ArpPair = (string, string)

  function DecodeArp(frame: Bytes): Option<ArpPair> {
    match Unframe(frame)
    case None => None
    case Some(eth) =>
      if eth.ethertype != ETHERTYPE_ARP || |eth.payload| < 28 then None
      else Some((MacText(eth.payload[8..14]), IpText(eth.payload[14..18])))
  }

  /** The body of the loop of `parse_arp_pcap`. */
  method ReadArp(frame: Bytes) returns (pair: Option<ArpPair>)
    ensures pair == DecodeArp(frame)
  {
    if |frame| < 14 { return None; }
    var ethertype, payload := U16(frame[12..14]), frame[14..];
    if ethertype == ETHERTYPE_VLAN && |payload| >= 4 {
      ethertype, payload := U16(payload[2..4]), payload[4..];
    }
    if ethertype != ETHERTYPE_ARP || |payload| < 28 { return None; }
    return Some((MacText(payload[8..14]), IpText(payload[14..18])));
  }

  method ArpRecord(data: Bytes, read: Reader, offset: nat, pairs: seq<ArpPair>)
    returns (offset': nat, pairs': seq<ArpPair>)
    requires offset + 16 <= |data|
    ensures offset' >= offset + 16
    ensures pairs + ParseFrom(DecodeArp, data, read, offset) == pairs' + ParseFrom(DecodeArp, data, read, offset')
  {
    var pair := ReadArp(Frame(data, read, offset));
    RecordRead(DecodeArp, data, read, offset, pairs, pair);
    return offset + 16 + Length(data, read, offset), pairs + AsList(pair);
  }

  method ParseArpPcap(data: Bytes) returns (pairs: seq<ArpPair>)
    ensures pairs == Parse(DecodeArp, data)
  {
    var e := EndianOf(data);
    if e == None { return []; }
    var read := ReaderOf(e.value);
    pairs := [];
    var offset := 24;
    while offset + 16 <= |data|
      invariant offset >= 24 && Parse(DecodeArp, data) == pairs + ParseFrom(DecodeArp, data, read, offset)
      decreases |data| - offset
    {
      offset, pairs := ArpRecord(data, read, offset, pairs);
    }
  }

  // ----- LACP ---------------------------------------------------------------

  /** The state octet, least significant bit first. */
  datatype State = State(
    active: bool, timeoutShort: bool, aggregation: bool, inSync: bool,
    collecting: bool, distributing: bool, defaulted: bool, expired: bool)

  datatype Lacpdu = Lacpdu(
    actorSystem: string, actorKey: nat, actorPort: nat, actorState: State,
    partnerSystem: string, partnerKey: nat, partnerState: State)

  function Bit(b: Byte, weight: nat): bool
    requires weight > 0
  {
    b / weight % 2 == 1
  }

  function DecodeState(b: Byte): State {
    State(
      Bit(b, 0x01), Bit(b, 0x02), Bit(b, 0x04), Bit(b, 0x08), Bit(b, 0x10), Bit(b, 0x20), Bit(b, 0x40), Bit(b, 0x80))
  }

  const ACTOR_TLV := 2
  const PARTNER_TLV := 22

  function DecodePdu(payload: Bytes): Option<Lacpdu> {
    if |payload| < PARTNER_TLV + 17 || payload[0] != LACP_SUBTYPE then None
    else Some(Lacpdu(
      MacText(payload[ACTOR_TLV + 4..ACTOR_TLV + 10]), U16(payload[ACTOR_TLV + 10..ACTOR_TLV + 12]),
      U16(payload[ACTOR_TLV + 14..ACTOR_TLV + 16]), DecodeState(payload[ACTOR_TLV + 16]),
      MacText(payload[PARTNER_TLV + 4..PARTNER_TLV + 10]), U16(payload[PARTNER_TLV + 10..PARTNER_TLV + 12]),
      DecodeState(payload[PARTNER_TLV + 16])))
  }

  function DecodeLacp(frame: Bytes): Option<Lacpdu> {
    match Unframe(frame)
    case None => None
    case Some(eth) => if eth.ethertype != ETHERTYPE_LACP then None else DecodePdu(eth.payload)
  }

  /** The body of the loop of `parse_lacp_pcap`. */
  method ReadLacp(frame: Bytes) returns (pdu: Option<Lacpdu>)
    ensures pdu == DecodeLacp(frame)
  {
    if |frame| < 14 { return None; }
    var ethertype, payload := U16(frame[12..14]), frame[14..];
    if ethertype == ETHERTYPE_VLAN && |payload| >= 4 {
      ethertype, payload := U16(payload[2..4]), payload[4..];
    }
    if ethertype != ETHERTYPE_LACP { return None; }
    return DecodePdu(payload);
  }

  method LacpRecord(data: Bytes, read: Reader, offset: nat, pdus: seq<Lacpdu>)
    returns (offset': nat, pdus': seq<Lacpdu>)
    requires offset + 16 <= |data|
    ensures offset' >= offset + 16
    ensures pdus + ParseFrom(DecodeLacp, data, read, offset) == pdus' + ParseFrom(DecodeLacp, data, read, offset')
  {
    var pdu := ReadLacp(Frame(data, read, offset));
    RecordRead(DecodeLacp, data, read, offset, pdus, pdu);
    return offset + 16 + Length(data, read, offset), pdus + AsList(pdu);
  }

  method ParseLacpPcap(data: Bytes) returns (pdus: seq<Lacpdu>)
    ensures pdus == Parse(DecodeLacp, data)
  {
    var e := EndianOf(data);
    if e == None { return []; }
    var read := ReaderOf(e.value);
    pdus := [];
    var offset := 24;
    while offset + 16 <= |data|
      invariant offset >= 24 && Parse(DecodeLacp, data) == pdus + ParseFrom(DecodeLacp, data, read, offset)
      decreases |data| - offset
    {
      offset, pdus := LacpRecord(data, read, offset, pdus);
    }
  }

  // ----- the bytes that are left ----------------------------------------------

  /** ParseFrom, on the bytes that are left. */
  function ParseRest<T>(decode: Bytes -> Option<T>, read: Reader, rest: Bytes): seq<T>
    decreases |rest|
  {
    if |rest| < 16 then []
    else
      var end := Min(16 + read(rest[8..12]), |rest|);
      AsList(decode(rest[16..end])) + ParseRest(decode, read, rest[end..])
  }

  lemma Shifted(data: Bytes, rest: Bytes, read: Reader, offset: nat)
    requires offset + 16 <= |data| && rest == data[offset..]
    ensures read(rest[8..12]) == Length(data, read, offset)
    ensures var end := Min(16 + Length(data, read, offset), |rest|);
      rest[16..end] == Frame(data, read, offset) && rest[end..] == data[offset + end..]
  {
    assert rest[8..12] == data[offset + 8..offset + 12];
  }

  lemma RestSplit<T>(decode: Bytes -> Option<T>, read: Reader, rest: Bytes, frame: Bytes, tail: Bytes, end: nat)
    requires |rest| >= 16 && end == Min(16 + read(rest[8..12]), |rest|)
    requires rest[16..end] == frame && rest[end..] == tail
    ensures ParseRest(decode, read, rest) == AsList(decode(frame)) + ParseRest(decode, read, tail)
  {
  }

  lemma ParsePast<T>(decode: Bytes -> Option<T>, data: Bytes, read: Reader, offset: nat)
    requires offset + 16 > |data|
    ensures ParseFrom(decode, data, read, offset) == []
  {
  }

  /** Both forms take the same step: the same frame, and the same bytes after. */
  lemma BothStep<T>(decode: Bytes -> Option<T>, data: Bytes, read: Reader, offset: nat, rest: Bytes)
    returns (head: seq<T>, next: nat, tail: Bytes)
    requires offset + 16 <= |data| && rest == data[offset..]
    ensures ParseFrom(decode, data, read, offset) == head + ParseFrom(decode, data, read, next)
    ensures ParseRest(decode, read, rest) == head + ParseRest(decode, read, tail)
    ensures next > offset && (if next <= |data| then tail == data[next..] else tail == [])
  {
    var n, frame := Length(data, read, offset), Frame(data, read, offset);
    var end := Min(16 + n, |rest|);
    head, next := AsList(decode(frame)), offset + 16 + n;
    tail := TailAt(data, rest, read, offset, n, end);
    ParseStep(decode, data, read, offset);
    RestSplit(decode, read, rest, frame, tail, end);
  }

  lemma TailAt(data: Bytes, rest: Bytes, read: Reader, offset: nat, n: nat, end: nat) returns (tail: Bytes)
    requires offset + 16 <= |data| && rest == data[offset..]
    requires n == Length(data, read, offset) && end == Min(16 + n, |rest|)
    ensures read(rest[8..12]) == n && rest[16..end] == Frame(data, read, offset) && rest[end..] == tail
    ensures if offset + 16 + n <= |data| then tail == data[offset + 16 + n..] else tail == []
  {
    Shifted(data, rest, read, offset);
    tail := data[offset + end..];
  }

  lemma RestEmpty<T>(decode: Bytes -> Option<T>, read: Reader, rest: Bytes)
    requires |rest| < 16
    ensures ParseRest(decode, read, rest) == []
  {
  }

  lemma {:induction false} ParseFromIsRest<T>(
    decode: Bytes -> Option<T>, data: Bytes, read: Reader, offset: nat, rest: Bytes)
    requires offset <= |data| && rest == data[offset..]
    ensures ParseFrom(decode, data, read, offset) == ParseRest(decode, read, rest)
    decreases |data| - offset
  {
    if offset + 16 > |data| {
      ParsePast(decode, data, read, offset);
      RestEmpty(decode, read, rest);
    } else {
      var head, next, tail := BothStep(decode, data, read, offset, rest);
      if next <= |data| {
        ParseFromIsRest(decode, data, read, next, tail);
      } else {
        ParsePast(decode, data, read, next);
        RestEmpty(decode, read, tail);
      }
    }
  }

  // ----- truncation ---------------------------------------------------------

  /** Cutting a frame short may hide what it holds but never changes it. */
  ghost predicate Stable<T(!new)>(decode: Bytes -> Option<T>) {
    forall frame, k :: CutDecodes(decode, frame, k) ==> decode(frame) == decode(frame[..k])
  }

  predicate CutDecodes<T>(decode: Bytes -> Option<T>, frame: Bytes, k: nat) {
    k <= |frame| && decode(frame[..k]).Some?
  }

  lemma UnframeCut(frame: Bytes, k: nat)
    requires k <= |frame| && Unframe(frame[..k]).Some? && Unframe(frame[..k]).value.ethertype != ETHERTYPE_VLAN
    ensures Unframe(frame).Some? && Unframe(frame).value.ethertype == Unframe(frame[..k]).value.ethertype
    ensures Unframe(frame[..k]).value.payload <= Unframe(frame).value.payload
  {
    var cut := frame[..k];
    assert cut[12..14] == frame[12..14];
    assert cut[14..] <= frame[14..];
    if U16(frame[12..14]) == ETHERTYPE_VLAN {
      assert cut[14..][2..4] == frame[14..][2..4];
    }
  }

  lemma SliceOfPrefix(cut: Bytes, full: Bytes, i: nat, j: nat)
    requires cut <= full && i <= j <= |cut|
    ensures cut[i..j] == full[i..j]
  {
  }

  lemma ArpStable()
    ensures Stable(DecodeArp)
  {
    forall frame, k: nat | CutDecodes(DecodeArp, frame, k) ensures DecodeArp(frame) == DecodeArp(frame[..k]) {
      UnframeCut(frame, k);
      SliceOfPrefix(Unframe(frame[..k]).value.payload, Unframe(frame).value.payload, 8, 14);
      SliceOfPrefix(Unframe(frame[..k]).value.payload, Unframe(frame).value.payload, 14, 18);
    }
  }

  lemma PduCut(payload: Bytes, cut: Bytes)
    requires cut <= payload && DecodePdu(cut).Some?
    ensures DecodePdu(payload) == DecodePdu(cut)
  {
    assert cut[6..12] == payload[6..12] && cut[12..14] == payload[12..14] && cut[16..18] == payload[16..18];
    assert cut[26..32] == payload[26..32] && cut[32..34] == payload[32..34];
  }

  lemma LacpStable()
    ensures Stable(DecodeLacp)
  {
    forall frame, k: nat | CutDecodes(DecodeLacp, frame, k) ensures DecodeLacp(frame) == DecodeLacp(frame[..k]) {
      UnframeCut(frame, k);
      PduCut(Unframe(frame).value.payload, Unframe(frame[..k]).value.payload);
    }
  }

  lemma LastFrameCut<T(!new)>(decode: Bytes -> Option<T>, part: Bytes, whole: Bytes, rest: seq<T>)
    requires Stable(decode) && part <= whole
    ensures AsList(decode(part)) + [] <= AsList(decode(whole)) + rest
  {
    assert part == whole[..|part|];
    assert decode(part).Some? ==> CutDecodes(decode, whole, |part|);
  }

  lemma PrefixUnder<T>(x: seq<T>, a: seq<T>, b: seq<T>)
    requires a <= b
    ensures x + a <= x + b
  {
  }

  /** Cutting the bytes keeps the length field and cuts the frame and the tail. */
  lemma PiecesCut(rest: Bytes, cut: Bytes, n: nat)
    requires 16 <= |cut| && cut <= rest
    ensures cut[8..12] == rest[8..12]
    ensures var end, end' := Min(16 + n, |rest|), Min(16 + n, |cut|);
      && cut[16..end'] <= rest[16..end] && cut[end'..] <= rest[end..]
      && (16 + n <= |cut| ==> cut[16..end'] == rest[16..end])
      && (16 + n > |cut| ==> cut[end'..] == [])
  {
  }

  lemma {:induction false} ParseRestCut<T(!new)>(decode: Bytes -> Option<T>, read: Reader, rest: Bytes, cut: Bytes)
    requires Stable(decode) && cut <= rest
    ensures ParseRest(decode, read, cut) <= ParseRest(decode, read, rest)
    decreases |rest|
  {
    if |cut| >= 16 {
      var n := read(rest[8..12]);
      PiecesCut(rest, cut, n);
      var end, end' := Min(16 + n, |rest|), Min(16 + n, |cut|);
      var frame, frame', tail, tail' := rest[16..end], cut[16..end'], rest[end..], cut[end'..];
      RestSplit(decode, read, rest, frame, tail, end);
      RestSplit(decode, read, cut, frame', tail', end');
      if 16 + n <= |cut| {
        ParseRestCut(decode, read, tail, tail');
        PrefixUnder(AsList(decode(frame)), ParseRest(decode, read, tail'), ParseRest(decode, read, tail));
      } else {
        LastFrameCut(decode, frame', frame, ParseRest(decode, read, tail));
      }
    }
  }

  lemma ParseIsRest<T>(decode: Bytes -> Option<T>, data: Bytes, rest: Bytes)
    requires EndianOf(data).Some? && rest == data[24..]
    ensures Parse(decode, data) == ParseRest(decode, ReaderOf(EndianOf(data).value), rest)
  {
    ParseFromIsRest(decode, data, ReaderOf(EndianOf(data).value), 24, rest);
  }

  lemma SameHeader(data: Bytes, cut: Bytes)
    requires cut <= data && |cut| >= 24
    ensures EndianOf(cut) == EndianOf(data) && cut[24..] <= data[24..]
  {
    assert cut[..4] == data[..4];
  }

  /** Reading any prefix of a capture gives a prefix of what the whole gives. */
  lemma ParseCut<T(!new)>(decode: Bytes -> Option<T>, data: Bytes, cut: Bytes)
    requires Stable(decode) && cut <= data
    ensures Parse(decode, cut) <= Parse(decode, data)
  {
    if |cut| >= 24 {
      SameHeader(data, cut);
      if EndianOf(data).Some? {
        ParseIsRest(decode, data, data[24..]);
        ParseIsRest(decode, cut, cut[24..]);
        ParseRestCut(decode, ReaderOf(EndianOf(data).value), data[24..], cut[24..]);
      }
    }
  }

  /** Both readers, on any prefix of any bytes. */
  lemma TruncatedCapture(data: Bytes, cut: Bytes)
    requires cut <= data
    ensures Parse(DecodeArp, cut) <= Parse(DecodeArp, data)
    ensures Parse(DecodeLacp, cut) <= Parse(DecodeLacp, data)
  {
    ArpStable();
    LacpStable();
    ParseCut(DecodeArp, data, cut);
    ParseCut(DecodeLacp, data, cut);
  }

  // ----- writing ------------------------------------------------------------

  function Bytes16(n: nat): Bytes
    requires n < 65536
  {
    [n / 256, n % 256]
  }

  function Bytes32(e: Endian, n: nat): (b: Bytes)
    requires n < 0x1_0000_0000
    ensures |b| == 4
  {
    var b0, b1, b2, b3 := n / 0x100_0000, n / 0x1_0000 % 256, n / 0x100 % 256, n % 256;
    if e == Big then [b0, b1, b2, b3] else [b3, b2, b1, b0]
  }

  lemma Read16(n: nat)
    requires n < 65536
    ensures U16(Bytes16(n)) == n
  {
  }

  lemma Read32(e: Endian, n: nat)
    requires n < 0x1_0000_0000
    ensures U32(e, Bytes32(e, n)) == n
  {
    assert n / 0x1_0000 % 256 == n / 0x1_0000 - 256 * (n / 0x100_0000);
    assert n / 0x100 % 256 == n / 0x100 - 256 * (n / 0x1_0000);
  }

  /** A captured frame with the parts of its record header the readers skip. */
  datatype Record = Record(stamp: Bytes, original: Bytes, frame: Bytes)

  predicate WellFormed(r: Record) {
    |r.stamp| == 8 && |r.original| == 4 && |r.frame| < 0x1_0000_0000
  }

  function EncodeRecord(e: Endian, r: Record): (b: Bytes)
    requires WellFormed(r)
    ensures |b| == 16 + |r.frame|
  {
    r.stamp + Bytes32(e, |r.frame|) + r.original + r.frame
  }

  function EncodeRecords(e: Endian, rs: seq<Record>): Bytes
    requires forall r :: r in rs ==> WellFormed(r)
  {
    if rs == [] then [] else EncodeRecord(e, rs[0]) + EncodeRecords(e, rs[1..])
  }

  function Decoded<T>(decode: Bytes -> Option<T>, rs: seq<Record>): seq<T> {
    if rs == [] then [] else AsList(decode(rs[0].frame)) + Decoded(decode, rs[1..])
  }

  predicate MagicOf(magic: Bytes, e: Endian) {
    if e == Little then magic == [0xd4, 0xc3, 0xb2, 0xa1] || magic == [0x4d, 0x3c, 0xb2, 0xa1]
    else magic == [0xa1, 0xb2, 0xc3, 0xd4] || magic == [0xa1, 0xb2, 0x3c, 0x4d]
  }

  /** What is read as a capture: 24 octets or more, from one of the four magics. */
  lemma EndianMeaning(data: Bytes, e: Endian)
    ensures EndianOf(data) == Some(e) <==> |data| >= 24 && MagicOf(data[..4], e)
  {
    if |data| >= 24 {
      var magic := data[..4];
      assert magic[0] == data[0];
    }
  }

  lemma ReadRecord(e: Endian, r: Record, after: Bytes)
    requires WellFormed(r)
    ensures var rest, end := EncodeRecord(e, r) + after, 16 + |r.frame|;
      end <= |rest| && ReaderOf(e)(rest[8..12]) == |r.frame| && rest[16..end] == r.frame && rest[end..] == after
  {
    Read32(e, |r.frame|);
    assert (EncodeRecord(e, r) + after)[8..12] == Bytes32(e, |r.frame|);
  }

  lemma {:induction false} ParseEncodedRest<T>(decode: Bytes -> Option<T>, e: Endian, rs: seq<Record>)
    requires forall r :: r in rs ==> WellFormed(r)
    ensures ParseRest(decode, ReaderOf(e), EncodeRecords(e, rs)) == Decoded(decode, rs)
  {
    if rs != [] {
      ReadRecord(e, rs[0], EncodeRecords(e, rs[1..]));
      ParseEncodedRest(decode, e, rs[1..]);
    }
  }

  /** Reading back a written capture, in either byte order, decodes exactly its
      frames, in order. */
  lemma ParseEncoded<T>(decode: Bytes -> Option<T>, e: Endian, magic: Bytes, header: Bytes, rs: seq<Record>)
    requires MagicOf(magic, e) && |header| == 20 && forall r :: r in rs ==> WellFormed(r)
    ensures Parse(decode, magic + header + EncodeRecords(e, rs)) == Decoded(decode, rs)
  {
    var data := magic + header + EncodeRecords(e, rs);
    assert data[..4] == magic;
    assert magic[0] == 0xa1 || magic[0] == 0xd4 || magic[0] == 0x4d;
    assert EndianOf(data) == Some(e);
    ParseIsRest(decode, data, EncodeRecords(e, rs));
    ParseEncodedRest(decode, e, rs);
  }

  // ----- whole frames -------------------------------------------------------

  /** An ethernet frame, with or without an 802.1Q tag. */
  function EncodeFrame(dst: Bytes, src: Bytes, tag: Option<Bytes>, ethertype: nat, payload: Bytes): Bytes
    requires ethertype < 65536
  {
    dst + src + (if tag.Some? then [0x81, 0x00] + tag.value else []) + (Bytes16(ethertype) + payload)
  }

  predicate Addressed(dst: Bytes, src: Bytes, tag: Option<Bytes>) {
    |dst| == 6 && |src| == 6 && (tag.Some? ==> |tag.value| == 2)
  }

  lemma UnframeEncoded(dst: Bytes, src: Bytes, tag: Option<Bytes>, ethertype: nat, payload: Bytes)
    requires ethertype < 65536 && ethertype != ETHERTYPE_VLAN && Addressed(dst, src, tag)
    ensures Unframe(EncodeFrame(dst, src, tag, ethertype, payload)) == Some(Ethernet(ethertype, payload))
  {
    var frame := EncodeFrame(dst, src, tag, ethertype, payload);
    Read16(ethertype);
    if tag.Some? {
      assert frame[12..14] == [0x81, 0x00];
      assert frame[14..][2..4] == Bytes16(ethertype) && frame[14..][4..] == payload;
    } else {
      assert frame[12..14] == Bytes16(ethertype) && frame[14..] == payload;
    }
  }

  /** The packet format of RFC 826 for Ethernet and IPv4, padding at the end. */
  datatype ArpMessage = ArpMessage(
    operation: Bytes, senderMac: Bytes, senderIp: Bytes, targetMac: Bytes, targetIp: Bytes, padding: Bytes)

  predicate ValidArp(m: ArpMessage) {
    |m.operation| == 2 && |m.senderMac| == 6 && |m.senderIp| == 4 && |m.targetMac| == 6 && |m.targetIp| == 4
  }

  function EncodeArp(m: ArpMessage): Bytes {
    [0, 1, 8, 0, 6, 4] + m.operation + m.senderMac + m.senderIp + m.targetMac + m.targetIp + m.padding
  }

  lemma ArpRoundTrip(dst: Bytes, src: Bytes, tag: Option<Bytes>, m: ArpMessage)
    requires Addressed(dst, src, tag) && ValidArp(m)
    ensures DecodeArp(EncodeFrame(dst, src, tag, 0x0806, EncodeArp(m)))
            == Some((MacText(m.senderMac), IpText(m.senderIp)))
  {
    var payload := EncodeArp(m);
    UnframeEncoded(dst, src, tag, 0x0806, payload);
    assert payload[8..14] == m.senderMac && payload[14..18] == m.senderIp;
  }

  // ----- LACPDU -------------------------------------------------------------

  function Weight(bit: bool, weight: nat): nat { if bit then weight else 0 }

  function Nibble(a: bool, b: bool, c: bool, d: bool): (n: nat)
    ensures n < 16
  {
    Weight(a, 1) + Weight(b, 2) + Weight(c, 4) + Weight(d, 8)
  }

  function EncodeState(s: State): Byte {
    Nibble(s.active, s.timeoutShort, s.aggregation, s.inSync)
    + 16 * Nibble(s.collecting, s.distributing, s.defaulted, s.expired)
  }

  lemma NibbleBits(a: bool, b: bool, c: bool, d: bool)
    ensures var n := Nibble(a, b, c, d); Bit(n, 1) == a && Bit(n, 2) == b && Bit(n, 4) == c && Bit(n, 8) == d
  {
  }

  lemma LowBits(low: nat, high: nat)
    requires low < 16 && high < 16
    ensures Bit(low + 16 * high, 0x01) == Bit(low, 1) && Bit(low + 16 * high, 0x02) == Bit(low, 2)
    ensures Bit(low + 16 * high, 0x04) == Bit(low, 4) && Bit(low + 16 * high, 0x08) == Bit(low, 8)
  {
    assert (low + 16 * high) / 2 == low / 2 + 8 * high;
    assert (low + 16 * high) / 4 == low / 4 + 4 * high;
    assert (low + 16 * high) / 8 == low / 8 + 2 * high;
  }

  lemma HighBits(low: nat, high: nat)
    requires low < 16 && high < 16
    ensures Bit(low + 16 * high, 0x10) == Bit(high, 1) && Bit(low + 16 * high, 0x20) == Bit(high, 2)
    ensures Bit(low + 16 * high, 0x40) == Bit(high, 4) && Bit(low + 16 * high, 0x80) == Bit(high, 8)
  {
    assert (low + 16 * high) / 16 == high;
    assert (low + 16 * high) / 32 == high / 2;
    assert (low + 16 * high) / 64 == high / 4;
    assert (low + 16 * high) / 128 == high / 8;
  }

  lemma StateRoundTrip(s: State)
    ensures DecodeState(EncodeState(s)) == s
  {
    var low := Nibble(s.active, s.timeoutShort, s.aggregation, s.inSync);
    var high := Nibble(s.collecting, s.distributing, s.defaulted, s.expired);
    NibbleBits(s.active, s.timeoutShort, s.aggregation, s.inSync);
    NibbleBits(s.collecting, s.distributing, s.defaulted, s.expired);
    LowBits(low, high);
    HighBits(low, high);
  }

  /** One information block of clause 43.4.2.2 of IEEE 802.3ad-2000. */
  datatype Party = Party(
    systemPriority: Bytes, system: Bytes, key: nat, portPriority: Bytes, port: nat, state: State, reserved: Bytes)

  predicate ValidParty(p: Party) {
    |p.systemPriority| == 2 && |p.system| == 6 && p.key < 65536 && |p.portPriority| == 2 && p.port < 65536
      && |p.reserved| == 3
  }

  function EncodeParty(tlv: Byte, p: Party): Bytes
    requires ValidParty(p)
  {
    [tlv, 20] + p.systemPriority + p.system + Bytes16(p.key) + p.portPriority + Bytes16(p.port)
      + [EncodeState(p.state)] + p.reserved
  }

  /** Subtype, version, actor, partner, and what follows. */
  function EncodeLacp(version: Byte, actor: Party, partner: Party, rest: Bytes): Bytes
    requires ValidParty(actor) && ValidParty(partner)
  {
    [0x01, version] + EncodeParty(1, actor) + EncodeParty(2, partner) + rest
  }

  lemma PartyFields(tlv: Byte, p: Party)
    requires ValidParty(p)
    ensures var b := EncodeParty(tlv, p);
      && |b| == 20 && b[4..10] == p.system && b[10..12] == Bytes16(p.key) && b[14..16] == Bytes16(p.port)
      && b[16] == EncodeState(p.state)
  {
    var b4 := [tlv, 20] + p.systemPriority;
    var b10 := b4 + p.system;
    var b12 := b10 + Bytes16(p.key);
    var b14 := b12 + p.portPriority;
    var b16 := b14 + Bytes16(p.port);
    var b := b16 + [EncodeState(p.state)] + p.reserved;
    assert b == EncodeParty(tlv, p);
    assert b10[4..10] == p.system && b12[10..12] == Bytes16(p.key) && b16[14..16] == Bytes16(p.port);
    assert b[..10] == b10 && b[..12] == b12 && b[..16] == b16;
    assert b[4..10] == b[..10][4..10] && b[10..12] == b[..12][10..12] && b[14..16] == b[..16][14..16];
  }

  lemma PduParts(version: Byte, a: Bytes, p: Bytes, rest: Bytes)
    requires |a| == 20 && |p| == 20
    ensures var payload := [0x01, version] + a + p + rest;
      && payload[6..12] == a[4..10] && payload[12..14] == a[10..12] && payload[16..18] == a[14..16]
      && payload[18] == a[16]
      && payload[26..32] == p[4..10] && payload[32..34] == p[10..12] && payload[38] == p[16]
  {
  }

  lemma PduRoundTrip(version: Byte, actor: Party, partner: Party, rest: Bytes)
    requires ValidParty(actor) && ValidParty(partner)
    ensures DecodePdu(EncodeLacp(version, actor, partner, rest))
            == Some(Lacpdu(MacText(actor.system), actor.key, actor.port, actor.state,
                           MacText(partner.system), partner.key, partner.state))
  {
    PartyFields(1, actor);
    PartyFields(2, partner);
    PduParts(version, EncodeParty(1, actor), EncodeParty(2, partner), rest);
    Read16(actor.key);
    Read16(actor.port);
    Read16(partner.key);
    StateRoundTrip(actor.state);
    StateRoundTrip(partner.state);
  }

  lemma LacpRoundTrip(
    dst: Bytes, src: Bytes, tag: Option<Bytes>, version: Byte, actor: Party, partner: Party, rest: Bytes)
    requires Addressed(dst, src, tag) && ValidParty(actor) && ValidParty(partner)
    ensures DecodeLacp(EncodeFrame(dst, src, tag, 0x8809, EncodeLacp(version, actor, partner, rest)))
            == Some(Lacpdu(MacText(actor.system), actor.key, actor.port, actor.state,
                           MacText(partner.system), partner.key, partner.state))
  {
    UnframeEncoded(dst, src, tag, 0x8809, EncodeLacp(version, actor, partner, rest));
    PduRoundTrip(version, actor, partner, rest);
  }

  /** Frames of other protocols yield nothing, and neither does a payload too short
      for its protocol, or a slow protocol other than LACP. */
  lemma OtherFramesSkipped(dst: Bytes, src: Bytes, tag: Option<Bytes>, ethertype: nat, payload: Bytes)
    requires ethertype < 65536 && ethertype != 0x8100 && Addressed(dst, src, tag)
    ensures var frame := EncodeFrame(dst, src, tag, ethertype, payload);
      && (DecodeArp(frame) == None <==> ethertype != 0x0806 || |payload| < 28)
      && (DecodeLacp(frame) == None <==> ethertype != 0x8809 || |payload| < 39 || payload[0] != 0x01)
  {
    UnframeEncoded(dst, src, tag, ethertype, payload);
  }
}
