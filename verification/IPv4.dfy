// IPv4 headers without options and dotted-decimal addresses (src/common/ipv4.py): the bytes of a
// datagram, how they are read, which strings are taken for an address, and when printing an address
// and parsing it undo each other.

module IPv4 {
  import opened Wrappers
  import opened Numbers
  import opened ByteStrings
  import opened Packets
  import opened Text

  // --------------------------------------------------------------------------- numbers

  function DigitChar(d: int): char
    requires 0 <= d < 10
  {
    '0' + d as char
  }

  predicate IsDigit(c: char) {
    '0' <= c <= '9'
  }

  // `str(n)`
  function Decimal(n: nat): (s: string)
    ensures s != "" && forall c | c in s :: IsDigit(c)
  {
    if n < 10 then [DigitChar(n)] else Decimal(n / 10) + [DigitChar(n % 10)]
  }

  // Digits, with single underscores between them.
  function ParseDigits(s: string): Option<nat> {
    if s == "" || !IsDigit(s[|s| - 1]) then None
    else
      var front, d := s[..|s| - 1], s[|s| - 1] as int - '0' as int;
      if front == "" then Some(d)
      else
        match ParseDigits(if front[|front| - 1] == '_' then front[..|front| - 1] else front)
        case Some(v) => Some(10 * v + d)
        case None => None
  }

  // `int(s)`: blanks around the number and a sign before it are allowed.
  function ParseInt(s: string): Option<int> {
    var t := Strip(s);
    if t == "" then None
    else
      match ParseDigits(if t[0] == '-' || t[0] == '+' then t[1..] else t)
      case None => None
      case Some(v) =>
        var n: int := v;
        Some(if t[0] == '-' then -n else n)
  }

  lemma DigitAppended(front: string, u: nat, d: int)
    requires 0 <= d < 10 && front != "" && IsDigit(front[|front| - 1]) && ParseDigits(front) == Some(u)
    ensures ParseDigits(front + [DigitChar(d)]) == Some(10 * u + d)
  {
    var s := front + [DigitChar(d)];
    assert s[..|s| - 1] == front && s[|s| - 1] == DigitChar(d);
    assert front[|front| - 1] != '_' && DigitChar(d) as int - '0' as int == d;
  }

  lemma {:induction false} DecimalDigitsParse(n: nat)
    ensures ParseDigits(Decimal(n)) == Some(n)
    decreases n
  {
    if n >= 10 {
      DecimalDigitsParse(n / 10);
      DigitAppended(Decimal(n / 10), n / 10, n % 10);
    }
  }

  lemma DigitsAreStripped(s: string)
    requires s != "" && IsDigit(s[0]) && IsDigit(s[|s| - 1])
    ensures Strip(s) == s
  {}

  lemma DecimalParses(n: nat)
    ensures ParseInt(Decimal(n)) == Some(n)
  {
    DecimalDigitsParse(n);
    assert forall c | c in Decimal(n) :: IsDigit(c);
    DigitsAreStripped(Decimal(n));
  }

  /** Nothing but digits, without a leading zero, except in "0" itself. */
  predicate Canonical(s: string) {
    s != "" && (forall c | c in s :: IsDigit(c)) && (s[0] == '0' ==> |s| == 1)
  }

  lemma {:induction false} DecimalIsCanonical(n: nat)
    ensures Canonical(Decimal(n)) && (n > 0 ==> Decimal(n)[0] != '0')
    decreases n
  {
    if n >= 10 {
      DecimalIsCanonical(n / 10);
    }
  }

  lemma DecimalAppended(u: nat, d: int)
    requires u > 0 && 0 <= d < 10
    ensures Decimal(10 * u + d) == Decimal(u) + [DigitChar(d)]
  {
    assert (10 * u + d) / 10 == u && (10 * u + d) % 10 == d;
  }

  lemma OneDigitParses(c: char)
    requires IsDigit(c)
    ensures ParseDigits([c]) == Some(c as int - '0' as int) && Decimal(c as int - '0' as int) == [c]
  {
    assert [c][..0] == "";
  }

  lemma {:induction false} CanonicalDigits(s: string)
    requires Canonical(s)
    ensures ParseDigits(s).Some? && Decimal(ParseDigits(s).value) == s
    ensures s[0] != '0' ==> ParseDigits(s).value > 0
    decreases |s|
  {
    var front, last := s[..|s| - 1], s[|s| - 1];
    assert s == front + [last] && last in s;
    OneDigitParses(last);
    if front == "" {
      assert s == [last];
    } else {
      var d := last as int - '0' as int;
      assert front[0] == s[0] && front[|front| - 1] in s;
      CanonicalDigits(front);
      DigitAppended(front, ParseDigits(front).value, d);
      DecimalAppended(ParseDigits(front).value, d);
    }
  }

  lemma ParsedFromCanonical(s: string)
    requires Canonical(s)
    ensures ParseInt(s).Some? && ParseInt(s).value >= 0 && Decimal(ParseInt(s).value) == s
  {
    CanonicalDigits(s);
    DigitsAreStripped(s);
  }

  // Digits, with underscores only between digits, and only one at a time.
  predicate DigitGroups(s: string) {
    && s != "" && IsDigit(s[0]) && IsDigit(s[|s| - 1]) && (forall c | c in s :: IsDigit(c) || c == '_')
    && forall i | 0 < i < |s| :: !(s[i - 1] == '_' && s[i] == '_')
  }

  function WithoutUnderscores(s: string): string {
    if s == "" then ""
    else WithoutUnderscores(s[..|s| - 1]) + if s[|s| - 1] == '_' then "" else [s[|s| - 1]]
  }

  predicate ReadsAs(t: string, v: nat) {
    v < Power(10, |t|) && forall i | 0 <= i < |t| :: t[i] as int == '0' as int + Digit(v, 10, |t| - 1 - i)
  }

  lemma OneMoreDigit(t: string, v: nat, c: char, n: nat)
    requires ReadsAs(t, v) && IsDigit(c) && n == 10 * v + (c as int - '0' as int)
    ensures ReadsAs(t + [c], n)
  {
    assert n / 10 == v && n % 10 == c as int - '0' as int;
    forall i | 0 <= i < |t| + 1 ensures (t + [c])[i] as int == '0' as int + Digit(n, 10, |t| - i) {
      DigitFurtherLeft(n, 10, if i < |t| then |t| - 1 - i else 0);
    }
  }

  /** Which strings of digits and underscores are numbers, and which numbers. */
  lemma {:induction false} DigitsRead(s: string)
    ensures ParseDigits(s).Some? <==> DigitGroups(s)
    ensures ParseDigits(s).Some? ==> ReadsAs(WithoutUnderscores(s), ParseDigits(s).value)
    decreases |s|
  {
    if s != "" && IsDigit(s[|s| - 1]) {
      var front, last := s[..|s| - 1], s[|s| - 1];
      LastDigitKept(s, front, last);
      if front == "" {
        OneMoreDigit("", 0, last, last as int - '0' as int);
        assert WithoutUnderscores(front) == "" && "" + [last] == [last];
      } else {
        var rest := if front[|front| - 1] == '_' then front[..|front| - 1] else front;
        DigitsRead(rest);
        GroupsEnd(s, front, rest);
        LastDigitValue(s, front, rest, last);
        if ParseDigits(rest).Some? {
          OneMoreDigit(WithoutUnderscores(rest), ParseDigits(rest).value, last, ParseDigits(s).value);
        }
      }
    }
  }

  lemma LastDigitKept(s: string, front: string, last: char)
    requires s != "" && IsDigit(last) && front == s[..|s| - 1] && last == s[|s| - 1]
    ensures WithoutUnderscores(s) == WithoutUnderscores(front) + [last]
  {}

  lemma LastDigitValue(s: string, front: string, rest: string, last: char)
    requires |s| >= 2 && IsDigit(last) && front == s[..|s| - 1] && last == s[|s| - 1]
    requires rest == if front[|front| - 1] == '_' then front[..|front| - 1] else front
    ensures ParseDigits(s) == match ParseDigits(rest)
                              case Some(v) => Some(10 * v + (last as int - '0' as int))
                              case None => None
  {}

  lemma GroupsEnd(s: string, front: string, rest: string)
    requires |s| >= 2 && IsDigit(s[|s| - 1]) && front == s[..|s| - 1]
    requires rest == if front[|front| - 1] == '_' then front[..|front| - 1] else front
    ensures DigitGroups(s) <==> DigitGroups(rest)
    ensures WithoutUnderscores(front) == WithoutUnderscores(rest)
  {
    assert s == front + [s[|s| - 1]];
    if front[|front| - 1] == '_' {
      assert front == rest + "_";
      if rest != "" {
        assert rest[|rest| - 1] == s[|s| - 3];
      }
    }
  }

  /** `int` of a string: blanks around it, a sign before it, and the digits decide. */
  lemma IntRead(s: string)
    ensures ParseInt(s).Some? <==>
              var t := Strip(s); t != "" && DigitGroups(if t[0] in "+-" then t[1..] else t)
    ensures ParseInt(s).Some? ==>
              var t, v := Strip(s), ParseInt(s).value;
              && ReadsAs(WithoutUnderscores(if t[0] in "+-" then t[1..] else t), if v < 0 then -v else v)
              && (v < 0 ==> t[0] == '-') && (v > 0 ==> t[0] != '-')
  {
    var t := Strip(s);
    if t != "" {
      DigitsRead(if t[0] in "+-" then t[1..] else t);
    }
  }

  // ------------------------------------------------------------------------- addresses

  function ParseParts(parts: seq<string>): Option<Bytes> {
    if parts == [] then Some([])
    else
      match (ParseInt(parts[0]), ParseParts(parts[1..]))
      case (Some(v), Some(rest)) => if 0 <= v < 256 then Some([v] + rest) else None
      case _ => None
  }

  // None is the ValueError of a part that is no number or no byte.
  function IpToBytes(ip: string): Option<Bytes> {
    ParseParts(Split(ip, '.'))
  }

  lemma {:induction false} PartsRead(parts: seq<string>, b: Bytes)
    ensures ParseParts(parts) == Some(b)
       <==> |b| == |parts| && forall i | 0 <= i < |b| :: ParseInt(parts[i]) == Some(b[i])
    decreases |parts|
  {
    if parts != [] && b != [] {
      PartsRead(parts[1..], b[1..]);
      assert b == [b[0]] + b[1..];
      assert forall i | 0 < i < |b| :: b[i] == b[1..][i - 1];
      assert forall i | 0 < i < |parts| :: parts[i] == parts[1..][i - 1];
    }
  }

  /** An address is read part by part, between the dots; each has to be the number of a byte. */
  lemma AddressRead(ip: string, b: Bytes)
    ensures IpToBytes(ip) == Some(b)
       <==> |b| == |Split(ip, '.')| && forall i | 0 <= i < |b| :: ParseInt(Split(ip, '.')[i]) == Some(b[i])
  {
    PartsRead(Split(ip, '.'), b);
  }

  function Decimals(b: Bytes): (parts: seq<string>)
    ensures |parts| == |b|
    ensures forall p | p in parts :: '.' !in p
  {
    if b == [] then [] else [Decimal(b[0])] + Decimals(b[1..])
  }

  function BytesToIp(b: Bytes): string {
    Join(Decimals(b), '.')
  }

  lemma OnePartParses(v: Byte, rest: seq<string>, b: Bytes)
    requires ParseParts(rest) == Some(b)
    ensures ParseParts([Decimal(v)] + rest) == Some([v] + b)
  {
    DecimalParses(v);
    assert ([Decimal(v)] + rest)[1..] == rest;
  }

  lemma {:induction false} DecimalsParse(b: Bytes)
    ensures ParseParts(Decimals(b)) == Some(b)
    decreases |b|
  {
    if b != [] {
      DecimalsParse(b[1..]);
      OnePartParses(b[0], Decimals(b[1..]), b[1..]);
      assert b == [b[0]] + b[1..];
    }
  }

  /** Printing and parsing an address gives the bytes back exactly when there are any. */
  lemma PrintedAddressParses(b: Bytes)
    ensures IpToBytes(BytesToIp(b)) == Some(b) <==> |b| >= 1
  {
    if |b| >= 1 {
      SplitJoin(Decimals(b), '.');
      DecimalsParse(b);
    }
  }

  lemma {:induction false} PartsPrintBack(parts: seq<string>)
    requires ParseParts(parts).Some?
    ensures Decimals(ParseParts(parts).value) == parts <==> forall p | p in parts :: Canonical(p)
    decreases |parts|
  {
    if parts != [] {
      PartsPrintBack(parts[1..]);
      var v := ParseInt(parts[0]).value;
      DecimalIsCanonical(v);
      if Canonical(parts[0]) {
        ParsedFromCanonical(parts[0]);
      }
      assert parts == [parts[0]] + parts[1..];
    }
  }

  /** A string that parses prints back exactly when its parts are digits without leading zeros. */
  lemma ParsedAddressPrints(ip: string)
    requires IpToBytes(ip).Some?
    ensures BytesToIp(IpToBytes(ip).value) == ip <==> forall p | p in Split(ip, '.') :: Canonical(p)
  {
    var parts := Split(ip, '.');
    var b := IpToBytes(ip).value;
    PartsPrintBack(parts);
    JoinSplit(ip, '.');
    ParsedIsNonEmpty(parts);
    SplitJoin(Decimals(b), '.');
  }

  lemma ParsedIsNonEmpty(parts: seq<string>)
    requires parts != [] && ParseParts(parts).Some?
    ensures ParseParts(parts).value != []
  {}

  // --------------------------------------------------------------------------- packets

  datatype IPv4Packet = IPv4Packet(srcIp: string, dstIp: string, payload: Bytes, protocol: Byte, ttl: Byte,
                                   identification: U16)

  // The "4s" field: cut to four bytes, or padded with zeros.
  function FourBytes(b: Bytes): (r: Bytes)
    ensures |r| == 4
    ensures |b| == 4 ==> r == b
  {
    (b + [0, 0, 0, 0])[..4]
  }

  function Serialize(p: IPv4Packet): Option<Bytes> {
    match (IpToBytes(p.srcIp), IpToBytes(p.dstIp))
    case (Some(src), Some(dst)) =>
      if 20 + |p.payload| > 65535 then None
      else Some(Layout([0x45, 0], ToBE(20 + |p.payload|, 2), ToBE(p.identification, 2), [0x40, 0],
                       [p.ttl, p.protocol, 0, 0] + FourBytes(src), FourBytes(dst), p.payload))
    case _ => None
  }

  function Deserialize(data: Bytes): Result<IPv4Packet, WireError> {
    if |data| < 20 then Err(TooShort)
    else
      ToFromBE(data[4..6]); PowersOf256();
      var total := FromBE(data[2..4]);
      Ok(IPv4Packet(BytesToIp(data[12..16]), BytesToIp(data[16..20]),
                    if total <= 20 then [] else Clip(data, 20, total - 20),
                    data[9], data[8], FromBE(data[4..6])))
  }

  predicate DottedQuad(ip: string) {
    var b := IpToBytes(ip);
    b.Some? && |b.value| == 4 && forall p | p in Split(ip, '.') :: Canonical(p)
  }

  lemma FieldsRead(p: IPv4Packet, d: Bytes, src: Bytes, dst: Bytes, padding: Bytes)
    requires 20 + |p.payload| <= 65535 && |src| == |dst| == 4 && |d| >= 20
    requires d[2..4] == ToBE(20 + |p.payload|, 2) && d[4..6] == ToBE(p.identification, 2)
    requires d[8..16] == [p.ttl, p.protocol, 0, 0] + src && d[16..20] == dst && d[20..] == p.payload + padding
    ensures Deserialize(d)
         == Ok(IPv4Packet(BytesToIp(src), BytesToIp(dst), p.payload, p.protocol, p.ttl, p.identification))
  {
    PowersOf256();
    NumberRead(20 + |p.payload|, d[2..4]);
    NumberRead(p.identification, d[4..6]);
    FixedPartsRead(p, d, src, padding);
  }

  lemma FixedPartsRead(p: IPv4Packet, d: Bytes, src: Bytes, padding: Bytes)
    requires |src| == 4 && |d| >= 20
    requires d[8..16] == [p.ttl, p.protocol, 0, 0] + src && d[20..] == p.payload + padding
    ensures d[8] == p.ttl && d[9] == p.protocol && d[12..16] == src
    ensures d[20..20 + |p.payload|] == p.payload
  {
    assert d[8] == d[8..16][0] && d[9] == d[8..16][1];
    assert d[12..16] == d[8..16][4..];
    assert d[20..20 + |p.payload|] == d[20..][..|p.payload|];
  }

  /** Between canonical dotted quads a packet serialises exactly when its payload has at most
      65515 bytes, and then reads back as itself, whatever bytes follow it. */
  lemma IPv4RoundTrip(p: IPv4Packet, padding: Bytes)
    requires DottedQuad(p.srcIp) && DottedQuad(p.dstIp)
    ensures Serialize(p).Some? <==> |p.payload| <= 65515
    ensures Serialize(p).Some? ==> Deserialize(Serialize(p).value + padding) == Ok(p)
  {
    if |p.payload| <= 65515 {
      var src, dst := IpToBytes(p.srcIp).value, IpToBytes(p.dstIp).value;
      var a, b, c := [0x45, 0], ToBE(20 + |p.payload|, 2), ToBE(p.identification, 2);
      var e := [p.ttl, p.protocol, 0, 0] + src;
      LayoutThenPadding(a, b, c, [0x40, 0], e, dst, p.payload, padding);
      PartsOfLayout(a, b, c, [0x40, 0], e, dst, p.payload + padding);
      FieldsRead(p, Serialize(p).value + padding, src, dst, padding);
      ParsedAddressPrints(p.srcIp);
      ParsedAddressPrints(p.dstIp);
    }
  }

  // ---------------------------------------------------------------- the bytes themselves

  // Byte i of an address of four bytes; one too short is filled up with zeros.
  function AddressByte(b: Bytes, i: nat): Byte {
    if i < |b| then b[i] else 0
  }

  lemma HeadAndFlags(d: Bytes, ttl: Byte, protocol: Byte, src: Bytes, dst: Bytes)
    requires |d| >= 20 && d[8..16] == [ttl, protocol, 0, 0] + FourBytes(src) && d[16..20] == FourBytes(dst)
    ensures d[8..12] == [ttl, protocol, 0, 0]
    ensures forall i | 0 <= i < 4 :: d[12 + i] == AddressByte(src, i) && d[16 + i] == AddressByte(dst, i)
  {
    assert d[8..12] == d[8..16][..4];
    forall i | 0 <= i < 4 ensures d[12 + i] == AddressByte(src, i) && d[16 + i] == AddressByte(dst, i) {
      assert d[12 + i] == d[8..16][4 + i] && d[16 + i] == d[16..20][i];
    }
  }

  /** A packet serialises exactly when both addresses parse and the total length fits its field. The
      header is that of section 3.1 of RFC 791: version 4 and five words, no type of service, total
      length, identification, the flag against fragmentation, TTL, protocol, no checksum, addresses. */
  lemma IPv4WireFormat(p: IPv4Packet)
    ensures Serialize(p).Some? <==>
              IpToBytes(p.srcIp).Some? && IpToBytes(p.dstIp).Some? && 20 + |p.payload| <= 65535
    ensures Serialize(p).Some? ==>
              var d, src, dst := Serialize(p).value, IpToBytes(p.srcIp).value, IpToBytes(p.dstIp).value;
              && |d| == 20 + |p.payload| && d[..2] == [0x45, 0] && IsBigEndian(d[2..4], 20 + |p.payload|)
              && IsBigEndian(d[4..6], p.identification) && d[6..8] == [0x40, 0] && d[8..12] == [p.ttl, p.protocol, 0, 0]
              && (forall i | 0 <= i < 4 :: d[12 + i] == AddressByte(src, i) && d[16 + i] == AddressByte(dst, i))
              && d[20..] == p.payload
  {
    if Serialize(p).Some? {
      var d, src, dst := Serialize(p).value, IpToBytes(p.srcIp).value, IpToBytes(p.dstIp).value;
      PartsOfLayout([0x45, 0], ToBE(20 + |p.payload|, 2), ToBE(p.identification, 2), [0x40, 0],
                    [p.ttl, p.protocol, 0, 0] + FourBytes(src), FourBytes(dst), p.payload);
      ToBEIsBigEndian(20 + |p.payload|, 2);
      ToBEIsBigEndian(p.identification, 2);
      HeadAndFlags(d, p.ttl, p.protocol, src, dst);
    }
  }

  /** Any 20 bytes are accepted, and the fields read where they stand; the version, the flags and the
      checksum are not looked at. */
  lemma IPv4Accepted(data: Bytes)
    ensures Deserialize(data).Ok? <==> |data| >= 20
    ensures Deserialize(data).Ok? ==>
              var p, total: nat := Deserialize(data).value, data[2] as int * 256 + data[3];
              && p.srcIp == BytesToIp(data[12..16]) && p.dstIp == BytesToIp(data[16..20])
              && IsBigEndian(data[4..6], p.identification) && p.ttl == data[8] && p.protocol == data[9]
              && p.payload == data[20..if total < 20 then 20 else if total <= |data| then total else |data|]
  {
    if |data| >= 20 {
      FieldIsRead(data[4..6]);
      var s := data[2..4];
      assert s[..1] == [data[2]] && s[..1][..0] == [];
      assert FromBE(s[..1]) == data[2];
    }
  }

  /** The digits of a number, none of them to spare. */
  lemma {:induction false} DecimalDigits(n: nat)
    ensures forall i | 0 <= i < |Decimal(n)| :: Decimal(n)[i] as int == '0' as int + Digit(n, 10, |Decimal(n)| - 1 - i)
    ensures n < Power(10, |Decimal(n)|) && (n > 0 ==> n >= Power(10, |Decimal(n)| - 1))
    decreases n
  {
    assert Power(10, 0) == 1 && Power(10, 1) == 10;
    if n >= 10 {
      DecimalDigits(n / 10);
      forall i | 0 <= i < |Decimal(n)|
        ensures Decimal(n)[i] as int == '0' as int + Digit(n, 10, |Decimal(n)| - 1 - i)
      {
        DigitFurtherLeft(n, 10, if i < |Decimal(n)| - 1 then |Decimal(n)| - 2 - i else 0);
      }
    } else {
      DigitFurtherLeft(n, 10, 0);
    }
  }

  /** An address is its bytes in decimal, with dots between them. */
  lemma AddressText(b: Bytes, v: Byte)
    ensures BytesToIp([v]) == Decimal(v)
    ensures b != [] ==> BytesToIp(b + [v]) == BytesToIp(b) + "." + Decimal(v)
  {
    assert [v][1..] == [] && Decimals([v]) == [Decimal(v)];
    DecimalsOneMore(b, v);
    if b != [] {
      JoinOneMore(Decimals(b), Decimal(v), '.');
    }
  }

  lemma {:induction false} DecimalsOneMore(b: Bytes, v: Byte)
    ensures Decimals(b + [v]) == Decimals(b) + [Decimal(v)]
    decreases |b|
  {
    if b != [] {
      DecimalsOneMore(b[1..], v);
      assert (b + [v])[1..] == b[1..] + [v];
    } else {
      assert ([] + [v])[1..] == [];
    }
  }
}
