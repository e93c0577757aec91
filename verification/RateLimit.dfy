/** The key of the per-address limiter: address ranges, grouping, and who is believed about the client. */
module RateLimit {
  import opened Common
  import opened Powers
  import opened Base32
  import opened Text

  datatype Ip = V4(octets: seq<Byte>) | V6(octets: seq<Byte>) {
    predicate Sized() {
      |octets| == if V4? then 4 else 16
    }

    function Bits(): nat {
      if V4? then 32 else 128
    }
  }

  type IpAddr = ip: Ip | ip.Sized() witness V4([0, 0, 0, 0])

  type U8 = n: nat | n < 256

  // ---- Prefixes ----

  /** Bitwise AND. */
  function BitAnd(x: nat, y: nat): nat {
    if x == 0 || y == 0 then 0 else 2 * BitAnd(x / 2, y / 2) + (if x % 2 == 1 && y % 2 == 1 then 1 else 0)
  }

  /** A left shift of an octet drops what leaves it. */
  function ShiftLeft(x: Byte, k: nat): Byte
    decreases k
  {
    if k == 0 then x else ShiftLeft(2 * x % 256, k - 1)
  }

  /** `prefix_match`: whole octets first, then the mask on the next one. */
  predicate PrefixMatch(a: seq<Byte>, b: seq<Byte>, prefix: U8)
    requires |a| == |b| && prefix <= 8 * |a|
  {
    var whole, rem := prefix / 8, prefix % 8;
    a[..whole] == b[..whole]
    && (rem == 0 || BitAnd(a[whole], ShiftLeft(0xff, 8 - rem)) == BitAnd(b[whole], ShiftLeft(0xff, 8 - rem)))
  }

  /** The octets as one number, the highest first. */
  function Value(a: seq<Byte>): nat {
    ConcatBytes(a)
  }

  lemma {:induction false} ConcatInjective(a: seq<Byte>, b: seq<Byte>)
    requires |a| == |b|
    ensures ConcatBytes(a) == ConcatBytes(b) <==> a == b
  {
    if a != [] {
      var n := |a| - 1;
      ConcatInjective(a[..n], b[..n]);
      assert a == a[..n] + [a[n]] && b == b[..n] + [b[n]];
    }
  }

  lemma DropLast(a: seq<Byte>)
    requires a != []
    ensures ConcatBytes(a) / Pow2(8) == ConcatBytes(a[..|a| - 1])
  {
    assert Pow2(8) == 256;
  }

  /** Dividing away the last bytes leaves the first ones. */
  lemma {:induction false} ConcatTake(a: seq<Byte>, n: nat)
    requires n <= |a|
    ensures ConcatBytes(a) / Pow2(8 * (|a| - n)) == ConcatBytes(a[..n])
  {
    if n == |a| {
      assert a[..n] == a;
    } else {
      var shorter, rest := a[..|a| - 1], 8 * (|a| - 1 - n);
      ConcatTake(shorter, n);
      assert shorter[..n] == a[..n];
      DropLast(a);
      DivPow2(ConcatBytes(a), 8, rest);
      assert 8 + rest == 8 * (|a| - n);
    }
  }

  /** A number by its quotient and remainder. */
  predicate Digits(u: int, base: int, high: int, low: int)
    requires base > 0
  {
    u / base == high && u % base == low
  }

  /** The byte after the whole ones gives the low digits, the whole ones the high digits. */
  lemma ConcatPrefix(a: seq<Byte>, w: nat, rem: nat)
    requires w < |a| && 1 <= rem <= 7
    ensures Digits(ConcatBytes(a) / Pow2(8 * |a| - (8 * w + rem)), Pow2(rem), ConcatBytes(a[..w]), a[w] / Pow2(8 - rem))
  {
    var first := a[..w + 1];
    ConcatTake(a, w + 1);
    DivPow2(ConcatBytes(a), 8 * (|a| - (w + 1)), 8 - rem);
    assert 8 * (|a| - (w + 1)) + (8 - rem) == 8 * |a| - (8 * w + rem);
    assert first[..w] == a[..w];
    assert Pow2(8) == 256;
    Pow2Add(rem, 8 - rem);
    SplitByte(ConcatBytes(a[..w]), a[w], Pow2(rem), Pow2(8 - rem));
  }

  lemma SplitByte(v: nat, x: Byte, high: nat, low: nat)
    requires high * low == 256 && low > 0 && high > 0
    ensures (256 * v + x) / low / high == v
    ensures (256 * v + x) / low % high == x / low
  {
    var q, r := x / low, x % low;
    assert x == q * low + r;
    assert (v * high + q) * low == (v * high) * low + q * low;
    assert (v * high) * low == v * (high * low);
    DivUnique(256 * v + x, low, v * high + q, r);
    if q >= high {
      if q > high { MulLess(high, q, low); }
    }
    DivUnique(v * high + q, high, v, q);
  }

  lemma {:induction false} AndOnes(x: nat, n: nat)
    requires x < Pow2(n)
    ensures BitAnd(x, Pow2(n) - 1) == x
  {
    if n > 0 {
      AndOnes(x / 2, n - 1);
      assert (Pow2(n) - 1) / 2 == Pow2(n - 1) - 1 && (Pow2(n) - 1) % 2 == 1;
    }
  }

  lemma AndEven(x: nat, y: nat)
    ensures BitAnd(x, 2 * y) == 2 * BitAnd(x / 2, y)
  {
    assert 2 * y / 2 == y && 2 * y % 2 == 0;
  }

  /** `n` ones above `k` zeros. */
  function Ones(n: nat, k: nat): nat {
    if k == 0 then Pow2(n) - 1 else 2 * Ones(n, k - 1)
  }

  lemma AndStep(x: nat, y: nat, m: nat)
    ensures BitAnd(x, 2 * m) == BitAnd(y, 2 * m) <==> BitAnd(x / 2, m) == BitAnd(y / 2, m)
  {
    AndEven(x, m);
    AndEven(y, m);
  }

  lemma HalfBound(x: nat, n: nat, k: nat)
    requires k > 0 && x < Pow2(n + k)
    ensures x / 2 < Pow2(n + (k - 1))
  {
  }

  /** Numbers agree under such a mask exactly when they agree without their low `k` bits. */
  lemma {:induction false} AndHighOnes(x: nat, y: nat, n: nat, k: nat)
    requires x < Pow2(n + k) && y < Pow2(n + k)
    ensures BitAnd(x, Ones(n, k)) == BitAnd(y, Ones(n, k)) <==> x / Pow2(k) == y / Pow2(k)
  {
    if k == 0 {
      AndOnes(x, n);
      AndOnes(y, n);
      assert x / Pow2(0) == x && y / Pow2(0) == y;
    } else {
      AndStep(x, y, Ones(n, k - 1));
      HalfBound(x, n, k);
      HalfBound(y, n, k);
      AndHighOnes(x / 2, y / 2, n, k - 1);
      HalfThen(x, k);
      HalfThen(y, k);
    }
  }

  lemma HalfThen(x: nat, k: nat)
    requires k > 0
    ensures (x / 2) / Pow2(k - 1) == x / Pow2(k)
  {
    DivPow2(x, 1, k - 1);
    assert Pow2(1) == 2;
  }

  lemma MaskOnes(rem: nat)
    requires 1 <= rem <= 7
    ensures ShiftLeft(0xff, 8 - rem) == Ones(rem, 8 - rem)
  {
    assert ShiftLeft(0xff, 1) == 0xfe == Ones(7, 1) && ShiftLeft(0xff, 2) == 0xfc == Ones(6, 2);
    assert ShiftLeft(0xff, 3) == 0xf8 == Ones(5, 3) && ShiftLeft(0xff, 4) == 0xf0 == Ones(4, 4);
    assert ShiftLeft(0xff, 5) == 0xe0 == Ones(3, 5) && ShiftLeft(0xff, 6) == 0xc0 == Ones(2, 6);
    assert ShiftLeft(0xff, 7) == 0x80 == Ones(1, 7);
  }

  /** Octets agree under the mask exactly when they agree without their low bits. */
  lemma MaskDivides(x: Byte, y: Byte, rem: nat)
    requires 1 <= rem <= 7
    ensures BitAnd(x, ShiftLeft(0xff, 8 - rem)) == BitAnd(y, ShiftLeft(0xff, 8 - rem))
            <==> x / Pow2(8 - rem) == y / Pow2(8 - rem)
  {
    MaskOnes(rem);
    assert Pow2(rem + (8 - rem)) == 256;
    AndHighOnes(x, y, rem, 8 - rem);
  }

  lemma PartialValue(a: seq<Byte>, b: seq<Byte>, w: nat, rem: nat)
    requires w < |a| == |b| && 1 <= rem <= 7
    ensures ConcatBytes(a[..w]) == ConcatBytes(b[..w]) && a[w] / Pow2(8 - rem) == b[w] / Pow2(8 - rem)
            <==> Value(a) / Pow2(8 * |a| - (8 * w + rem)) == Value(b) / Pow2(8 * |a| - (8 * w + rem))
  {
    ConcatPrefix(a, w, rem);
    ConcatPrefix(b, w, rem);
    var size := Pow2(8 * |a| - (8 * w + rem));
    SameDigits(ConcatBytes(a) / size, ConcatBytes(b) / size, Pow2(rem), ConcatBytes(a[..w]), ConcatBytes(b[..w]),
               a[w] / Pow2(8 - rem), b[w] / Pow2(8 - rem));
  }

  /** Numbers are equal when quotient and remainder are. */
  lemma SameDigits(u: int, v: int, base: int, highU: int, highV: int, lowU: int, lowV: int)
    requires base > 0 && Digits(u, base, highU, lowU) && Digits(v, base, highV, lowV)
    ensures highU == highV && lowU == lowV <==> u == v
  {
    assert u == u / base * base + u % base;
    assert v == v / base * base + v % base;
  }

  /** CIDR matching is numeric: the first `prefix` bits agree exactly when the addresses, as numbers,
    * agree after division by the size of the range. */
  lemma PrefixMatchNumeric(a: seq<Byte>, b: seq<Byte>, prefix: U8)
    requires |a| == |b| && prefix <= 8 * |a|
    ensures PrefixMatch(a, b, prefix) <==> Value(a) / Pow2(8 * |a| - prefix) == Value(b) / Pow2(8 * |a| - prefix)
  {
    var w, rem := prefix / 8, prefix % 8;
    ConcatInjective(a[..w], b[..w]);
    if rem == 0 {
      ConcatTake(a, w);
      ConcatTake(b, w);
    } else {
      PartialValue(a, b, w, rem);
      MaskDivides(a[w], b[w], rem);
      assert 8 * w + rem == prefix;
    }
  }

  /** Matching at a prefix is an equivalence, and a shorter prefix accepts more. */
  lemma PrefixMatchLaws(a: seq<Byte>, b: seq<Byte>, c: seq<Byte>, prefix: U8, shorter: U8)
    requires |a| == |b| == |c| && shorter <= prefix <= 8 * |a|
    ensures PrefixMatch(a, a, prefix)
    ensures PrefixMatch(a, b, prefix) ==> PrefixMatch(b, a, prefix)
    ensures PrefixMatch(a, b, prefix) && PrefixMatch(b, c, prefix) ==> PrefixMatch(a, c, prefix)
    ensures PrefixMatch(a, b, prefix) ==> PrefixMatch(a, b, shorter)
  {
    PrefixMatchNumeric(a, b, prefix);
    PrefixMatchNumeric(a, b, shorter);
    if PrefixMatch(a, b, prefix) {
      Coarser(Value(a), Value(b), 8 * |a| - prefix, 8 * |a| - shorter);
    }
  }

  lemma Coarser(x: nat, y: nat, fine: nat, coarse: nat)
    requires fine <= coarse && x / Pow2(fine) == y / Pow2(fine)
    ensures x / Pow2(coarse) == y / Pow2(coarse)
  {
    DivPow2(x, fine, coarse - fine);
    DivPow2(y, fine, coarse - fine);
  }

  // ---- Addresses and ranges ----

  const MAPPED: seq<Byte> := [0, 0, 0, 0, 0, 0, 0, 0, 0, 0, 0xff, 0xff]

  /** An IPv4-mapped IPv6 address becomes the IPv4 address. */
  function Canonical(ip: IpAddr): IpAddr {
    if ip.V6? && ip.octets[..12] == MAPPED then V4(ip.octets[12..]) else ip
  }

  /** A range that `contains` never reads past the end of. */
  datatype CidrRange = Cidr(addr: Ip, prefix: nat)

  type Cidr = c: CidrRange | c.addr.Sized() && c.prefix <= c.addr.Bits() witness Cidr(V4([0, 0, 0, 0]), 0)

  predicate Contains(c: Cidr, ip: IpAddr) {
    c.addr.V4? == ip.V4? && PrefixMatch(c.addr.octets, ip.octets, c.prefix)
  }

  /** The standard library's readers of addresses and numbers. */
  datatype Readers = Readers(ip: string -> Option<IpAddr>, u8: string -> Option<U8>)

  /** A mapped address is the IPv4 address in its last four octets; every other address is itself. */
  lemma CanonicalExact(ip: IpAddr, octets: seq<Byte>)
    requires |octets| == 4
    ensures Canonical(V6([0, 0, 0, 0, 0, 0, 0, 0, 0, 0, 0xff, 0xff] + octets)) == V4(octets)
    ensures Canonical(ip) != ip <==> ip.V6? && ip.octets[..12] == [0, 0, 0, 0, 0, 0, 0, 0, 0, 0, 0xff, 0xff]
    ensures Canonical(Canonical(ip)) == Canonical(ip)
  {
    var mapped := MAPPED + octets;
    assert mapped[..12] == MAPPED && mapped[12..] == octets;
  }

  /** `Cidr::parse`: the text before the first slash and the one after it, if there is one. */
  function ParseCidr(read: Readers, text: string): (r: Option<Cidr>)
    ensures r.Some? ==> Canonical(r.value.addr) == r.value.addr
  {
    var input := Trim(text);
    match SplitOnce(input, '/')
    case None => ReadCidr(read, input, None)
    case Some(parts) => ReadCidr(read, Trim(parts.0), Some(Trim(parts.1)))
  }

  /** That the result is a `Cidr` says that its prefix fits its address. */
  function ReadCidr(read: Readers, address: string, prefix: Option<string>): (r: Option<Cidr>)
    ensures r.Some? ==> Canonical(r.value.addr) == r.value.addr
  {
    match read.ip(address)
    case None => None
    case Some(ip) =>
      var addr := Canonical(ip);
      match prefix
      case None => Some(Cidr(addr, addr.Bits()))
      case Some(text) =>
        match read.u8(text)
        case None => None
        case Some(p) => if p > addr.Bits() then None else Some(Cidr(addr, p))
  }

  /** The addresses of a range: those of its family that agree with it after division by the size of the range. */
  lemma ContainsExact(c: Cidr, ip: IpAddr)
    ensures Contains(c, ip) <==>
              c.addr.V4? == ip.V4?
              && Value(ip.octets) / Pow2(c.addr.Bits() - c.prefix) == Value(c.addr.octets) / Pow2(c.addr.Bits() - c.prefix)
  {
    if c.addr.V4? == ip.V4? {
      PrefixMatchNumeric(c.addr.octets, ip.octets, c.prefix);
    }
  }

  /** The range is of this family and contains the addresses that agree with this one in the first `prefix` bits. */
  ghost predicate IsRange(r: Option<Cidr>, addr: IpAddr, prefix: nat)
    requires prefix <= addr.Bits()
  {
    r.Some? && forall ip: IpAddr :: Contains(r.value, ip) <==>
      (ip.V4? == addr.V4? && Value(ip.octets) / Pow2(addr.Bits() - prefix) == Value(addr.octets) / Pow2(addr.Bits() - prefix))
  }

  lemma CidrIsRange(c: Cidr)
    ensures IsRange(Some(c), c.addr, c.prefix)
  {
    forall ip: IpAddr ensures Contains(c, ip) <==>
      (ip.V4? == c.addr.V4? && Value(ip.octets) / Pow2(c.addr.Bits() - c.prefix) == Value(c.addr.octets) / Pow2(c.addr.Bits() - c.prefix))
    {
      ContainsExact(c, ip);
    }
  }

  lemma ParsedParts(read: Readers, text: string, left: string, right: string, a: string, p: string)
    requires SplitOnce(Trim(text), '/') == Some((left, right)) && Trim(left) == a && Trim(right) == p
    ensures ParseCidr(read, text) == ReadCidr(read, a, Some(p))
  {
  }

  /** A number that fits gives the range, anything else nothing. */
  lemma ReadRange(read: Readers, a: string, p: string)
    ensures if read.ip(a).Some? && read.u8(p).Some? && read.u8(p).value <= Canonical(read.ip(a).value).Bits()
            then IsRange(ReadCidr(read, a, Some(p)), Canonical(read.ip(a).value), read.u8(p).value) else ReadCidr(read, a, Some(p)) == None
  {
    var r := ReadCidr(read, a, Some(p));
    if r.Some? { CidrIsRange(r.value); }
  }

  lemma ReadAlone(read: Readers, a: string)
    ensures if read.ip(a).Some? then IsAddress(ReadCidr(read, a, None), Canonical(read.ip(a).value)) else ReadCidr(read, a, None) == None
  {
    var r := ReadCidr(read, a, None);
    if r.Some? {
      forall ip: IpAddr ensures Contains(r.value, ip) <==> ip == r.value.addr {
        WholeAddress(r.value, ip);
      }
    }
  }

  ghost predicate IsAddress(r: Option<Cidr>, addr: IpAddr) {
    r.Some? && forall ip: IpAddr :: Contains(r.value, ip) <==> ip == addr
  }

  /** The range `a/p`, written with any whitespace around its parts: it is accepted exactly when both parts read and the
    * number fits the address, and then it is the addresses of that family that agree in so many bits. */
  lemma ParsedRange(read: Readers, w: string, a: string, x: string, y: string, p: string, z: string)
    requires AllSpace(w) && AllSpace(x) && AllSpace(y) && AllSpace(z) && Bare(a) && Bare(p) && '/' !in a
    requires (a == "" ==> x == "") && (p == "" ==> y == "")
    ensures var text := w + (a + x + "/" + (y + p)) + z;
      if read.ip(a).Some? && read.u8(p).Some? && read.u8(p).value <= Canonical(read.ip(a).value).Bits()
      then IsRange(ParseCidr(read, text), Canonical(read.ip(a).value), read.u8(p).value) else ParseCidr(read, text) == None
  {
    BareRange(a, x, y, p);
    TrimExact(w, a + x + "/" + (y + p), z);
    FirstSeparator(a + x, y + p, '/');
    TrimRight(a, x);
    TrimLeft(y, p);
    ParsedParts(read, w + (a + x + "/" + (y + p)) + z, a + x, y + p, a, p);
    ReadRange(read, a, p);
  }

  lemma BareRange(a: string, x: string, y: string, p: string)
    requires AllSpace(x) && Bare(a) && Bare(p) && '/' !in a && (a == "" ==> x == "") && (p == "" ==> y == "")
    ensures Bare(a + x + "/" + (y + p)) && '/' !in a + x
  {
  }

  lemma TrimRight(s: string, space: string)
    requires Bare(s) && AllSpace(space)
    ensures Trim(s + space) == s
  {
    assert "" + s == s;
    TrimExact("", s, space);
  }

  lemma TrimLeft(space: string, s: string)
    requires Bare(s) && AllSpace(space)
    ensures Trim(space + s) == s
  {
    TrimExact(space, s, "");
    assert space + s + "" == space + s;
  }

  lemma ParsedAlone(read: Readers, text: string, a: string)
    requires '/' !in a && Trim(text) == a
    ensures ParseCidr(read, text) == ReadCidr(read, a, None)
  {
  }

  /** An address alone is the range of just that address. */
  lemma ParsedAddress(read: Readers, w: string, a: string, z: string)
    requires AllSpace(w) && AllSpace(z) && Bare(a) && '/' !in a
    ensures var r := ParseCidr(read, w + a + z); if read.ip(a).Some? then IsAddress(r, Canonical(read.ip(a).value)) else r == None
  {
    TrimExact(w, a, z);
    ParsedAlone(read, w + a + z, a);
    ReadAlone(read, a);
  }

  /** A range without a prefix length is the one address. */
  lemma WholeAddress(c: Cidr, ip: IpAddr)
    requires c.prefix == c.addr.Bits()
    ensures Contains(c, ip) <==> ip == c.addr
  {
    if c.addr.V4? == ip.V4? {
      assert c.addr.octets[..|ip.octets|] == c.addr.octets;
      assert ip.octets[..|ip.octets|] == ip.octets;
    }
  }

  predicate IsTrusted(ip: IpAddr, trusted: seq<Cidr>) {
    trusted != [] && (Contains(trusted[0], ip) || IsTrusted(ip, trusted[1..]))
  }

  /** Some range of the list contains the address. */
  lemma {:induction false} IsTrustedIff(ip: IpAddr, trusted: seq<Cidr>)
    ensures IsTrusted(ip, trusted) <==> exists c :: c in trusted && Contains(c, ip)
  {
    if trusted != [] {
      IsTrustedIff(ip, trusted[1..]);
    }
  }

  // ---- Grouping ----

  /** `group_v6` as a value: the first seven octets and zeros. */
  function Group(ip: IpAddr): IpAddr {
    if ip.V6? then V6(ip.octets[..7] + seq(9, i => 0)) else ip
  }

  /** `group_v6`: the octets are cleared in place. */
  method GroupV6(ip: IpAddr) returns (grouped: IpAddr)
    ensures grouped == Group(ip)
  {
    if ip.V4? {
      return ip;
    }
    var octets := new Byte[16](i requires 0 <= i < 16 => ip.octets[i]);
    var k := 7;
    while k < 16
      invariant 7 <= k <= 16
      invariant forall i :: 0 <= i < 7 || k <= i < 16 ==> octets[i] == ip.octets[i]
      invariant forall i :: 7 <= i < k ==> octets[i] == 0
    {
      octets[k] := 0;
      k := k + 1;
    }
    assert octets[..] == ip.octets[..7] + seq(9, i => 0);
    grouped := V6(octets[..]);
  }

  /** IPv4 addresses stay; of an IPv6 address seven octets stay and nine become zero. */
  lemma GroupExact(ip: IpAddr)
    ensures ip.V4? ==> Group(ip) == ip
    ensures ip.V6? ==> Group(ip).V6? && forall i :: 0 <= i < 16 ==> Group(ip).octets[i] == if i < 7 then ip.octets[i] else 0
  {
  }

  /** Two IPv6 peers share a key exactly when they share a /56. */
  lemma GroupIsPrefix56(a: IpAddr, b: IpAddr)
    requires a.V6? && b.V6?
    ensures Group(a) == Group(b) <==> PrefixMatch(a.octets, b.octets, 56)
    ensures Group(Group(a)) == Group(a)
  {
    assert Group(a).octets[..7] == a.octets[..7];
    assert Group(b).octets[..7] == b.octets[..7];
  }

  // ---- The forwarded header ----

  /** `parse_forwarded_ip`: an address, or an address and a port. */
  function ParseForwarded(read: Readers, text: string): Option<IpAddr> {
    var entry := Trim(text);
    match read.ip(entry)
    case Some(ip) => Some(Canonical(ip))
    case None =>
      match SplitLast(entry, ':')
      case None => None
      case Some(parts) =>
        match read.ip(parts.0)
        case None => None
        case Some(ip) => Some(Canonical(ip))
  }

  /** How an entry of the header is read. */
  type Parser = string -> Option<IpAddr>

  function Parsing(read: Readers): Parser {
    text => ParseForwarded(read, text)
  }

  /** An entry with any whitespace around it is an address in canonical form, if the text itself is one. */
  lemma ForwardedAddress(read: Readers, left: string, entry: string, right: string)
    requires AllSpace(left) && Bare(entry) && AllSpace(right)
    ensures read.ip(entry).Some? ==> Parsing(read)(left + entry + right) == Some(Canonical(read.ip(entry).value))
    ensures read.ip(entry).None? && ':' !in entry ==> Parsing(read)(left + entry + right) == None
  {
    TrimExact(left, entry, right);
  }

  lemma ForwardedParts(read: Readers, text: string, entry: string, host: string, port: string)
    requires Trim(text) == entry && SplitLast(entry, ':') == Some((host, port)) && read.ip(entry).None?
    ensures Parsing(read)(text) == if read.ip(host).Some? then Some(Canonical(read.ip(host).value)) else None
  {
  }

  /** Otherwise it is the address before its last colon. */
  lemma ForwardedPort(read: Readers, left: string, host: string, port: string, right: string)
    requires AllSpace(left) && AllSpace(right) && Bare(host + ":" + port) && ':' !in port && read.ip(host + ":" + port).None?
    ensures Parsing(read)(left + (host + ":" + port) + right)
            == if read.ip(host).Some? then Some(Canonical(read.ip(host).value)) else None
  {
    TrimExact(left, host + ":" + port, right);
    LastSeparator(host, port, ':');
    ForwardedParts(read, left + (host + ":" + port) + right, host + ":" + port, host, port);
  }

  /** The pieces between commas; there is always one. */
  function SplitCommas(s: string): (parts: seq<string>)
    ensures parts != []
    decreases |s|
  {
    match SplitOnce(s, ',')
    case None => [s]
    case Some(parts) => [parts.0] + SplitCommas(parts.1)
  }

  function Parsed(parse: Parser, parts: seq<string>): seq<IpAddr> {
    if parts == [] then []
    else
      var rest, ip := Parsed(parse, parts[..|parts| - 1]), parse(parts[|parts| - 1]);
      if ip.Some? then rest + [ip.value] else rest
  }

  /** The addresses of all lines of the header, in order; a line that is not text is skipped. */
  function Forwarded(parse: Parser, lines: seq<Option<string>>): seq<IpAddr> {
    if lines == [] then []
    else
      var rest, line := Forwarded(parse, lines[..|lines| - 1]), lines[|lines| - 1];
      if line.Some? then rest + Parsed(parse, SplitCommas(line.value)) else rest
  }

  /** The rightmost address that is not a trusted proxy. */
  function RightmostUntrusted(ips: seq<IpAddr>, trusted: seq<Cidr>): Option<IpAddr> {
    if ips == [] then None
    else if !IsTrusted(ips[|ips| - 1], trusted) then Some(ips[|ips| - 1])
    else RightmostUntrusted(ips[..|ips| - 1], trusted)
  }

  lemma {:induction false} RightmostMeaning(ips: seq<IpAddr>, trusted: seq<Cidr>)
    ensures RightmostUntrusted(ips, trusted).None? <==> forall i :: 0 <= i < |ips| ==> IsTrusted(ips[i], trusted)
  {
    if ips != [] {
      var n := |ips| - 1;
      RightmostMeaning(ips[..n], trusted);
      assert forall i :: 0 <= i < n ==> ips[..n][i] == ips[i];
    }
  }

  function Client(ips: seq<IpAddr>, trusted: seq<Cidr>): Option<IpAddr> {
    match RightmostUntrusted(ips, trusted)
    case Some(ip) => Some(ip)
    case None => if ips != [] then Some(ips[0]) else None
  }

  /** The inner loop of `client_from_forwarded`: the addresses of one line of the header. */
  method CollectLine(parse: Parser, parts: seq<string>) returns (found: seq<IpAddr>)
    ensures found == Parsed(parse, parts)
  {
    found := [];
    var k := 0;
    while k < |parts|
      invariant k <= |parts| && found == Parsed(parse, parts[..k])
    {
      assert parts[..k + 1][..k] == parts[..k];
      var ip := parse(parts[k]);
      if ip.Some? {
        found := found + [ip.value];
      }
      k := k + 1;
    }
    assert parts[..k] == parts;
  }

  /** The outer loop: every line that is text. */
  method CollectForwarded(parse: Parser, lines: seq<Option<string>>) returns (ips: seq<IpAddr>)
    ensures ips == Forwarded(parse, lines)
  {
    ips := [];
    var i := 0;
    while i < |lines|
      invariant i <= |lines| && ips == Forwarded(parse, lines[..i])
    {
      assert lines[..i + 1][..i] == lines[..i];
      if lines[i].Some? {
        var found := CollectLine(parse, SplitCommas(lines[i].value));
        ips := ips + found;
      }
      i := i + 1;
    }
    assert lines[..i] == lines;
  }

  /** `client_from_forwarded`: collect every entry, then search from the right. */
  method ClientFromForwarded(read: Readers, lines: seq<Option<string>>, trusted: seq<Cidr>) returns (client: Option<IpAddr>)
    ensures client == Client(Forwarded(Parsing(read), lines), trusted)
  {
    var ips := CollectForwarded(Parsing(read), lines);
    var n := |ips|;
    assert ips[..n] == ips;
    while n > 0
      invariant 0 <= n <= |ips| && RightmostUntrusted(ips, trusted) == RightmostUntrusted(ips[..n], trusted)
    {
      assert ips[..n][..n - 1] == ips[..n - 1];
      if !IsTrusted(ips[n - 1], trusted) {
        return Some(ips[n - 1]);
      }
      n := n - 1;
    }
    client := if ips != [] then Some(ips[0]) else None;
  }

  /** The limiter key of a peer for the addresses of its header. */
  function KeyIp(peer: IpAddr, ips: seq<IpAddr>, trusted: seq<Cidr>): IpAddr {
    var direct := Canonical(peer);
    if !IsTrusted(direct, trusted) then Group(direct)
    else
      match Client(ips, trusted)
      case Some(ip) => Group(ip)
      case None => Group(direct)
  }

  /** `resolve_key_ip`. */
  method ResolveKeyIp(read: Readers, peer: Option<IpAddr>, lines: seq<Option<string>>, trusted: seq<Cidr>)
    returns (key: Option<IpAddr>)
    ensures key == if peer.Some? then Some(KeyIp(peer.value, Forwarded(Parsing(read), lines), trusted)) else None
  {
    if peer.None? {
      return None;
    }
    var ip := Canonical(peer.value);
    if IsTrusted(ip, trusted) {
      var client := ClientFromForwarded(read, lines, trusted);
      if client.Some? {
        ip := client.value;
      }
    }
    var grouped := GroupV6(ip);
    key := Some(grouped);
  }

  // ---- Forged entries ----

  /** Only what is right of the rightmost untrusted address, and that address, matters. */
  lemma {:induction false} RightmostSplit(left: seq<IpAddr>, right: seq<IpAddr>, trusted: seq<Cidr>)
    ensures RightmostUntrusted(left + right, trusted) ==
            if RightmostUntrusted(right, trusted).Some? then RightmostUntrusted(right, trusted)
            else RightmostUntrusted(left, trusted)
  {
    if right == [] {
      assert left + right == left;
    } else {
      assert (left + right)[..|left + right| - 1] == left + right[..|right| - 1];
      RightmostSplit(left, right[..|right| - 1], trusted);
    }
  }

  /** Trusted hops inserted anywhere do not move the key of a request that shows an untrusted address. */
  lemma TrustedHopsIgnored(peer: IpAddr, left: seq<IpAddr>, hops: seq<IpAddr>, right: seq<IpAddr>, trusted: seq<Cidr>)
    requires forall ip :: ip in hops ==> IsTrusted(ip, trusted)
    requires exists ip :: ip in left + right && !IsTrusted(ip, trusted)
    ensures KeyIp(peer, left + hops + right, trusted) == KeyIp(peer, left + right, trusted)
  {
    RightmostSplit(left + hops, right, trusted);
    RightmostSplit(left, hops, trusted);
    RightmostSplit(left, right, trusted);
    RightmostMeaning(hops, trusted);
    RightmostMeaning(left + right, trusted);
  }

  /** A forged beginning of the header never moves the key, exactly when the peer is untrusted or the rest
    * of the header holds an untrusted address. */
  lemma ForgedEntriesIgnoredIff(peer: IpAddr, rest: seq<IpAddr>, trusted: seq<Cidr>)
    ensures (forall forged :: KeyIp(peer, forged + rest, trusted) == KeyIp(peer, rest, trusted))
            <==> !IsTrusted(Canonical(peer), trusted) || exists ip :: ip in rest && !IsTrusted(ip, trusted)
  {
    if !IsTrusted(Canonical(peer), trusted) || exists ip :: ip in rest && !IsTrusted(ip, trusted) {
      RightmostMeaning(rest, trusted);
      forall forged ensures KeyIp(peer, forged + rest, trusted) == KeyIp(peer, rest, trusted) {
        RightmostSplit(forged, rest, trusted);
      }
    } else {
      RightmostMeaning(rest, trusted);
      var a, b := V4([0, 0, 0, 0]), V4([1, 0, 0, 0]);
      var x: IpAddr := if KeyIp(peer, rest, trusted) == a then b else a;
      assert a.octets[0] != b.octets[0];
      RightmostSplit([x], rest, trusted);
      assert ([x] + rest)[0] == x;
      assert RightmostUntrusted([x], trusted) == if IsTrusted(x, trusted) then None else Some(x) by {
        assert [x][..0] == [];
      }
      assert KeyIp(peer, [x] + rest, trusted) == x;
    }
  }

  /** The key of a believed header is the group of its rightmost untrusted address. */
  lemma {:induction false} KeyIsRightmostUntrusted(peer: IpAddr, ips: seq<IpAddr>, i: int, trusted: seq<Cidr>)
    requires IsTrusted(Canonical(peer), trusted)
    requires 0 <= i < |ips| && !IsTrusted(ips[i], trusted)
    requires forall j :: i < j < |ips| ==> IsTrusted(ips[j], trusted)
    ensures KeyIp(peer, ips, trusted) == Group(ips[i])
  {
    if i < |ips| - 1 {
      KeyIsRightmostUntrusted(peer, ips[..|ips| - 1], i, trusted);
    }
  }

  /** The client that shares a limiter key with `a`: the same IPv4 address, or one of the same /56. */
  predicate SameClient(a: IpAddr, b: IpAddr) {
    if a.V4? || b.V4? then a == b else PrefixMatch(a.octets, b.octets, 56)
  }

  /** Where the header is not believed or shows no address, requests share a key exactly when their peers are one client. */
  lemma PeersShareKeyIff(p: IpAddr, q: IpAddr, ips: seq<IpAddr>, others: seq<IpAddr>, trusted: seq<Cidr>)
    requires IsTrusted(Canonical(p), trusted) ==> ips == []
    requires IsTrusted(Canonical(q), trusted) ==> others == []
    ensures KeyIp(p, ips, trusted) == KeyIp(q, others, trusted) <==> SameClient(Canonical(p), Canonical(q))
  {
    var a, b := Canonical(p), Canonical(q);
    GroupExact(a);
    GroupExact(b);
    if a.V6? && b.V6? {
      GroupIsPrefix56(a, b);
    }
  }

  /** When the header is believed and every address in it is trusted, the leftmost one is the client. */
  lemma AllTrustedLeftmost(peer: IpAddr, ips: seq<IpAddr>, trusted: seq<Cidr>)
    requires IsTrusted(Canonical(peer), trusted) && ips != []
    requires forall i :: 0 <= i < |ips| ==> IsTrusted(ips[i], trusted)
    ensures KeyIp(peer, ips, trusted) == Group(ips[0])
  {
    RightmostMeaning(ips, trusted);
  }

  // ---- The same at the level of header text ----

  function Join(parts: seq<string>): string
    requires parts != []
  {
    if |parts| == 1 then parts[0] else parts[0] + "," + Join(parts[1..])
  }

  lemma {:induction false} SplitJoined(parts: seq<string>)
    requires parts != [] && forall part :: part in parts ==> ',' !in part
    ensures SplitCommas(Join(parts)) == parts
  {
    assert parts[0] in parts;
    if |parts| > 1 {
      FirstSeparator(parts[0], Join(parts[1..]), ',');
      SplitJoined(parts[1..]);
    }
  }

  lemma {:induction false} ParsedTrusted(parse: Parser, parts: seq<string>, trusted: seq<Cidr>)
    requires forall j :: 0 <= j < |parts| && parse(parts[j]).Some? ==> IsTrusted(parse(parts[j]).value, trusted)
    ensures forall ip :: ip in Parsed(parse, parts) ==> IsTrusted(ip, trusted)
  {
    if parts != [] {
      var n := |parts| - 1;
      ParsedTrusted(parse, parts[..n], trusted);
      assert parts[n] == parts[|parts| - 1];
    }
  }

  /** The key of a header line: when every address right of an entry and in the lines after it is trusted and that of the
    * entry is not, a believed header gives the group of that address. */
  lemma KeyOfLine(parse: Parser, peer: IpAddr, prior: seq<Option<string>>, entries: seq<string>, k: int, rest: seq<Option<string>>,
                  trusted: seq<Cidr>)
    requires IsTrusted(Canonical(peer), trusted) && 0 <= k < |entries| && forall entry :: entry in entries ==> ',' !in entry
    requires parse(entries[k]).Some? && !IsTrusted(parse(entries[k]).value, trusted)
    requires forall j :: k < j < |entries| && parse(entries[j]).Some? ==> IsTrusted(parse(entries[j]).value, trusted)
    requires forall ip :: ip in Forwarded(parse, rest) ==> IsTrusted(ip, trusted)
    ensures KeyIp(peer, Forwarded(parse, prior + ([Some(Join(entries))] + rest)), trusted) == Group(parse(entries[k]).value)
  {
    var ip := parse(entries[k]).value;
    var left, right := Forwarded(parse, prior) + Parsed(parse, entries[..k]), Parsed(parse, entries[k + 1..]) + Forwarded(parse, rest);
    ParsedTrusted(parse, entries[k + 1..], trusted);
    LineAround(parse, prior, entries, k, rest);
    KeyIsRightmostUntrusted(peer, left + [ip] + right, |left|, trusted);
  }

  lemma ParsedAround(parse: Parser, entries: seq<string>, k: int)
    requires 0 <= k < |entries| && parse(entries[k]).Some?
    ensures Parsed(parse, entries) == Parsed(parse, entries[..k]) + [parse(entries[k]).value] + Parsed(parse, entries[k + 1..])
  {
    var upto := entries[..k + 1];
    assert upto[..k] == entries[..k] && entries == upto + entries[k + 1..];
    ParsedSplit(parse, upto, entries[k + 1..]);
  }

  lemma LineAround(parse: Parser, prior: seq<Option<string>>, entries: seq<string>, k: int, rest: seq<Option<string>>)
    requires 0 <= k < |entries| && parse(entries[k]).Some? && forall entry :: entry in entries ==> ',' !in entry
    ensures Forwarded(parse, prior + ([Some(Join(entries))] + rest)) ==
            (Forwarded(parse, prior) + Parsed(parse, entries[..k])) + [parse(entries[k]).value]
            + (Parsed(parse, entries[k + 1..]) + Forwarded(parse, rest))
  {
    var a, b, c, d, e := Forwarded(parse, prior), Parsed(parse, entries[..k]), [parse(entries[k]).value],
      Parsed(parse, entries[k + 1..]), Forwarded(parse, rest);
    SplitJoined(entries);
    OneLine(parse, Join(entries));
    ParsedAround(parse, entries, k);
    ForwardedSplit(parse, [Some(Join(entries))], rest);
    ForwardedSplit(parse, prior, [Some(Join(entries))] + rest);
    Regroup(a, b, c, d, e);
  }

  lemma Regroup<T>(a: seq<T>, b: seq<T>, c: seq<T>, d: seq<T>, e: seq<T>)
    ensures a + ((b + c + d) + e) == (a + b) + c + (d + e)
  {
  }

  lemma {:induction false} ParsedSplit(parse: Parser, left: seq<string>, right: seq<string>)
    ensures Parsed(parse, left + right) == Parsed(parse, left) + Parsed(parse, right)
  {
    if right == [] {
      assert left + right == left;
    } else {
      assert (left + right)[..|left + right| - 1] == left + right[..|right| - 1];
      ParsedSplit(parse, left, right[..|right| - 1]);
    }
  }

  lemma {:induction false} SplitCommasJoined(forged: string, text: string)
    ensures SplitCommas(forged + "," + text) == SplitCommas(forged) + SplitCommas(text)
    decreases |forged|
  {
    match SplitOnce(forged, ',')
    case None =>
      FirstSeparator(forged, text, ',');
    case Some(parts) =>
      var rest := parts.1 + "," + text;
      assert forged + "," + text == parts.0 + "," + rest;
      FirstSeparator(parts.0, rest, ',');
      SplitCommasJoined(parts.1, text);
  }

  lemma ForwardedSnoc(parse: Parser, lines: seq<Option<string>>, line: Option<string>)
    ensures Forwarded(parse, lines + [line]) == Forwarded(parse, lines) + (if line.Some? then Parsed(parse, SplitCommas(line.value)) else [])
  {
    assert (lines + [line])[..|lines + [line]| - 1] == lines;
  }

  lemma SplitSnoc(parse: Parser, left: seq<Option<string>>, front: seq<Option<string>>, line: Option<string>)
    requires Forwarded(parse, left + front) == Forwarded(parse, left) + Forwarded(parse, front)
    ensures Forwarded(parse, left + (front + [line])) == Forwarded(parse, left) + Forwarded(parse, front + [line])
  {
    ForwardedSnoc(parse, front, line);
    ForwardedSnoc(parse, left + front, line);
    Associative(left, front, [line]);
    Associative(Forwarded(parse, left), Forwarded(parse, front), if line.Some? then Parsed(parse, SplitCommas(line.value)) else []);
  }

  lemma {:induction false} ForwardedSplit(parse: Parser, left: seq<Option<string>>, right: seq<Option<string>>)
    ensures Forwarded(parse, left + right) == Forwarded(parse, left) + Forwarded(parse, right)
  {
    if right == [] {
      assert left + right == left;
    } else {
      ForwardedSplit(parse, left, right[..|right| - 1]);
      SplitSnoc(parse, left, right[..|right| - 1], right[|right| - 1]);
      assert right[..|right| - 1] + [right[|right| - 1]] == right;
    }
  }

  lemma PriorIgnored(peer: IpAddr, forged: seq<IpAddr>, believed: seq<IpAddr>, trusted: seq<Cidr>)
    requires exists ip :: ip in believed && !IsTrusted(ip, trusted)
    ensures KeyIp(peer, forged + believed, trusted) == KeyIp(peer, believed, trusted)
  {
    ForgedEntriesIgnoredIff(peer, believed, trusted);
  }

  /** A client that writes its own header lines and its own beginning of the line the proxies append to, whatever it
    * writes, changes nothing as long as what the proxies append shows an untrusted address. */
  lemma ForgedTextIgnored(parse: Parser, peer: IpAddr, prior: seq<Option<string>>, forged: string, text: string,
                          rest: seq<Option<string>>, trusted: seq<Cidr>)
    requires exists ip :: ip in Forwarded(parse, [Some(text)] + rest) && !IsTrusted(ip, trusted)
    ensures KeyIp(peer, Forwarded(parse, prior + ([Some(text)] + rest)), trusted) == KeyIp(peer, Forwarded(parse, [Some(text)] + rest), trusted)
    ensures KeyIp(peer, Forwarded(parse, prior + ([Some(forged + "," + text)] + rest)), trusted)
            == KeyIp(peer, Forwarded(parse, [Some(text)] + rest), trusted)
  {
    var believed, before, own := Forwarded(parse, [Some(text)] + rest), Forwarded(parse, prior), Parsed(parse, SplitCommas(forged));
    ForwardedSplit(parse, prior, [Some(text)] + rest);
    PriorIgnored(peer, before, believed, trusted);
    ForwardedSplit(parse, prior, [Some(forged + "," + text)] + rest);
    JoinedLine(parse, forged, text, rest);
    Associative(before, own, believed);
    PriorIgnored(peer, before + own, believed, trusted);
  }

  lemma JoinedLine(parse: Parser, forged: string, text: string, rest: seq<Option<string>>)
    ensures Forwarded(parse, [Some(forged + "," + text)] + rest)
            == Parsed(parse, SplitCommas(forged)) + Forwarded(parse, [Some(text)] + rest)
  {
    OneLine(parse, text);
    OneLine(parse, forged + "," + text);
    SplitCommasJoined(forged, text);
    ParsedSplit(parse, SplitCommas(forged), SplitCommas(text));
    ForwardedSplit(parse, [Some(text)], rest);
    ForwardedSplit(parse, [Some(forged + "," + text)], rest);
    Associative(Parsed(parse, SplitCommas(forged)), Parsed(parse, SplitCommas(text)), Forwarded(parse, rest));
  }

  lemma OneLine(parse: Parser, text: string)
    ensures Forwarded(parse, [Some(text)]) == Parsed(parse, SplitCommas(text))
  {
    assert [Some(text)][..0] == [];
  }
}
