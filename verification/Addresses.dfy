/**
  Service addresses: `addIP` and `firstServiceIP` of the PKI builder and `IPAtOffset` of the utilities.
  Addresses are Go's net.IP, byte strings of length 4 or 16 (other lengths are kept as the code keeps them).
  A CIDR is what net.ParseCIDR returns: the address, the prefix length and, through them, the masked network.
  Byte shifts and masks on unsigned words are written as / and %.
 */
module Addresses {
  import opened Optional
  import opened BigEndian

  // ---------------------------------------------------------------- net.IP

  /** ::ffff:0:0, the prefix of an IPv4-mapped IPv6 address (RFC 4291, section 2.5.5.2). */
  const V4_IN_V6: seq<byte> := [0, 0, 0, 0, 0, 0, 0, 0, 0, 0, 0xff, 0xff]

  function To4(ip: seq<byte>): Option<seq<byte>> {
    if |ip| == 4 then Some(ip)
    else if |ip| == 16 && ip[..12] == V4_IN_V6 then Some(ip[12..])
    else None
  }

  function To16(ip: seq<byte>): Option<seq<byte>> {
    if |ip| == 4 then Some(V4_IN_V6 + ip)
    else if |ip| == 16 then Some(ip)
    else None
  }

  /** What an address denotes whichever of its two forms it is in; net.IP prints and compares by this. */
  function Canonical(ip: seq<byte>): seq<byte> {
    if To4(ip).Some? then To4(ip).value else ip
  }

  // ---------------------------------------------------------------- addIP

  /** What addIP promises: addition on the number the address denotes; `None` is the nil address. */
  ghost function Add(ip: seq<byte>, add: nat): Option<seq<byte>> {
    if To16(ip).None? then
      Some(ip)
    else if To4(ip).Some? then
      var v := Value(To4(ip).value) + add;
      if v < 0x1_0000_0000 then Some(Bytes(v, 4)) else None
    else
      Some(Bytes((Value(ip) + add) % Pow256(16), 16))
  }

  /** One carry step: position k from the right, `digit` the byte there, `rest` what is still to be added. */
  lemma CarryStep(p: nat, digit: nat, rest: nat, sum: nat, sofar: nat, target: nat)
    requires sum == digit + rest % 0x100
    requires sofar + rest * p == target
    ensures (sum % 0x100) * p + sofar + (rest / 0x100 + sum / 0x100) * (0x100 * p) == digit * p + target
  {
  }

  lemma Carried(value: nat, rest: nat, p: nat, target: nat)
    requires p > 0 && value < p
    requires value + rest * p == target
    ensures value == target % p
  {
    ModUnique(target, rest, value, p);
  }

  /** The carry loop's invariant: positions i+1.. have been added, `rest` is still to be added at position i. */
  ghost predicate Carrying(was: seq<byte>, now: seq<byte>, i: int, rest: nat, add: nat)
    requires |was| == |now| && -1 <= i < |was|
  {
    && now[..i + 1] == was[..i + 1]
    && Value(now[i + 1..]) + rest * Pow256(|was| - 1 - i) == Value(was[i + 1..]) + add
  }

  lemma ValueFront(s: seq<byte>, i: nat)
    requires i < |s|
    ensures Value(s[i..]) == s[i] as nat * Pow256(|s| - i - 1) + Value(s[i + 1..])
  {
    ValueConcat([s[i]], s[i + 1..]);
    ValueOne(s[i]);
    assert s[i..] == [s[i]] + s[i + 1..];
  }

  lemma CarryOn(was: seq<byte>, now: seq<byte>, i: nat, rest: nat, add: nat, sum: nat)
    requires |was| == |now| && i < |was| && Carrying(was, now, i, rest, add)
    requires sum == now[i] as nat + rest % 0x100
    ensures Carrying(was, now[i := (sum % 0x100) as byte], i - 1, rest / 0x100 + sum / 0x100, add)
  {
    var next := now[i := (sum % 0x100) as byte];
    assert was[i] == was[..i + 1][i] == now[..i + 1][i] == now[i];
    assert next[..i] == now[..i + 1][..i] == was[..i + 1][..i] == was[..i];
    assert next[i + 1..] == now[i + 1..];
    ValueFront(next, i);
    ValueFront(was, i);
    assert Pow256(|was| - i) == 0x100 * Pow256(|was| - 1 - i);
    CarryStep(Pow256(|was| - 1 - i), now[i] as nat, rest, sum, Value(now[i + 1..]), Value(was[i + 1..]) + add);
  }

  lemma SameHead(was: seq<byte>, now: seq<byte>, k: nat)
    requires |was| == |now| && k <= |was| && now[..k] == was[..k]
    ensures Value(now) - Value(now[k..]) == Value(was) - Value(was[k..])
  {
    ValueConcat(was[..k], now[k..]);
    ValueConcat(was[..k], was[k..]);
    assert now == was[..k] + now[k..] && was == was[..k] + was[k..];
  }

  lemma CarryDone(was: seq<byte>, now: seq<byte>, i: int, rest: nat, add: nat)
    requires |was| == |now| && -1 <= i < |was| && Carrying(was, now, i, rest, add)
    requires i < 0 || rest == 0
    ensures Value(now) == (Value(was) + add) % Pow256(|was|)
  {
    ValueBound(now);
    var p, left := Pow256(|was|), if i < 0 then rest else 0;
    SameHead(was, now, i + 1);
    assert left * p == rest * Pow256(|was| - 1 - i) by {
      if i >= 0 { assert rest == 0; }
    }
    Carried(Value(now), left, p, Value(was) + add);
  }

  /** The carry loop is addition modulo 2^(8n) on an n-byte buffer. */
  method AddInPlace(buf: array<byte>, add: uint)
    modifies buf
    ensures Value(buf[..]) == (Value(old(buf[..])) + add as nat) % Pow256(buf.Length)
  {
    ghost var was := buf[..];
    var i, rest := buf.Length - 1, add;
    while i >= 0 && rest > 0
      invariant -1 <= i < buf.Length
      invariant Carrying(was, buf[..], i, rest as nat, add as nat)
      decreases i
    {
      ghost var now, rest0 := buf[..], rest as nat;
      var sum := buf[i] as uint + rest % 0x100;
      buf[i] := (sum % 0x100) as byte;
      rest := rest / 0x100 + sum / 0x100;
      CarryOn(was, now, i, rest0, add as nat, sum as nat);
      assert buf[..] == now[i := (sum % 0x100) as byte];
      i := i - 1;
    }
    CarryDone(was, buf[..], i, rest as nat, add as nat);
  }

  lemma MappedPrefixValue(v4: seq<byte>)
    requires |v4| == 4
    ensures Value(V4_IN_V6 + v4) == 0xffff * 0x1_0000_0000 + Value(v4)
  {
    ValueConcat(V4_IN_V6, v4);
    assert Pow256(4) == 0x1_0000_0000;
    PrefixValue();
  }

  lemma PrefixValue()
    ensures Value(V4_IN_V6) == 0xffff
  {
    var zeros, ones: seq<byte> := V4_IN_V6[..10], [0xff, 0xff];
    assert V4_IN_V6 == zeros + ones;
    ZeroValue(zeros);
    ValueConcat(zeros, ones);
    assert ones == [0xff] + [0xff];
    ValueConcat([0xff], [0xff]);
    ValueOne(0xff);
  }

  lemma Width16()
    ensures Pow256(16) == 0x1_0000_0000_0000_0000_0000_0000_0000_0000
    ensures Pow256(4) == 0x1_0000_0000
  {
  }

  /** A 16-byte sum is an IPv4-mapped address exactly when the low 32 bits did not overflow. */
  lemma MappedSum(v4: seq<byte>, add: uint, sum: seq<byte>)
    requires |v4| == 4 && |sum| == 16
    requires Value(sum) == (Value(V4_IN_V6 + v4) + add as nat) % Pow256(16)
    ensures To4(sum) == Add(v4, add as nat)
  {
    Width16();
    MappedPrefixValue(v4);
    ValueBound(v4);
    var hi, lo := sum[..12], sum[12..];
    ValueConcat(hi, lo);
    assert sum == hi + lo;
    ValueBound(lo);
    assert Value(hi) * 0x1_0000_0000 + Value(lo) == 0xffff * 0x1_0000_0000 + Value(v4) + add as nat;
    PrefixValue();
    ValueInjective(hi, V4_IN_V6);
    if Value(v4) + (add as nat) < 0x1_0000_0000 {
      BytesOfValue(lo);
    }
  }

  lemma MappedAdd(ip: seq<byte>, add: uint, sum: seq<byte>)
    requires To4(ip).Some? && |sum| == 16
    requires Value(sum) == (Value(To16(ip).value) + add as nat) % Pow256(16)
    ensures To4(sum) == Add(ip, add as nat)
  {
    WideForm(ip);
    MappedSum(To4(ip).value, add, sum);
    AddOfMapped(ip, add as nat);
  }

  lemma WideAdd(ip: seq<byte>, add: uint, sum: seq<byte>)
    requires To16(ip).Some? && To4(ip).None? && |sum| == 16
    requires Value(sum) == (Value(To16(ip).value) + add as nat) % Pow256(16)
    ensures Add(ip, add as nat) == Some(sum)
  {
    assert |ip| == 16 && To16(ip).value == ip;
    BytesOfValue(sum);
    assert sum == Bytes(Value(sum), 16);
  }

  method Copy(s: seq<byte>) returns (a: array<byte>)
    ensures fresh(a) && a[..] == s
  {
    a := new byte[|s|](i requires 0 <= i < |s| => s[i]);
  }

  lemma WideForm(ip: seq<byte>)
    requires To4(ip).Some?
    ensures |To4(ip).value| == 4 && To16(ip) == Some(V4_IN_V6 + To4(ip).value)
  {
    if |ip| == 16 { assert ip == ip[..12] + ip[12..]; }
  }

  /** addIP: the sum in a fresh slice, or nil; the caller's bytes are not in the frame, so they are unchanged. */
  method AddIp(ip: array<byte>, add: uint) returns (out: array?<byte>)
    ensures out != null ==> fresh(out)
    ensures Add(ip[..], add as nat) == if out == null then None else Some(out[..])
  {
    ghost var was := ip[..];
    var wide := To16(ip[..]);
    if wide.None? {
      out := Copy(ip[..]);
      return;
    }
    var buf := Copy(wide.value);
    AddInPlace(buf, add);
    assert ip[..] == was;
    if To4(ip[..]).None? {
      out := buf;
      WideAdd(was, add, buf[..]);
      return;
    }
    MappedAdd(was, add, buf[..]);
    out := Narrow(buf);
  }

  /** The four-byte form of a sum, nil when it has none. */
  method Narrow(buf: array<byte>) returns (out: array?<byte>)
    ensures out != null ==> fresh(out)
    ensures To4(buf[..]) == if out == null then None else Some(out[..])
  {
    var low := To4(buf[..]);
    if low.None? {
      return null;
    }
    out := Copy(low.value);
  }

  lemma AddOfMapped(ip: seq<byte>, add: nat)
    requires To4(ip).Some?
    ensures Add(ip, add) == Add(To4(ip).value, add)
  {
  }

  // ---------------------------------------------------------------- CIDR networks

  /**
    The two kinds of network net.ParseCIDR yields: dotted decimal, and colon notation (which may still be IPv4-mapped).
   */
  datatype Cidr = V4(addr: seq<byte>, prefix: nat) | V6(addr: seq<byte>, prefix: nat)

  ghost predicate Parsed(c: Cidr) {
    match c
    case V4(addr, prefix) => |addr| == 4 && prefix <= 32
    case V6(addr, prefix) => |addr| == 16 && prefix <= 128
  }

  /** ipnet.IP: 4 bytes for a V4 network, 16 for a V6 one. */
  function Network(c: Cidr): seq<byte> {
    Mask(c.addr, c.prefix)
  }

  /** IPNet.Contains: compare under the mask, in 4-byte form when both network and address have one. */
  predicate Contains(c: Cidr, ip: seq<byte>) {
    var nn := Canonical(Network(c));
    var x := Canonical(ip);
    var p := if c.V6? && |nn| == 4 then c.prefix - 96 else c.prefix;
    |x| == |nn| && p >= 0 && Mask(nn, p) == Mask(x, p)
  }

  // ---------------------------------------------------------------- IPAtOffset

  /** The word IPAtOffset shifts together from four bytes. */
  function Word(b: seq<byte>): int
    requires |b| == 4
  {
    b[0] as int * 0x100_0000 + b[1] as int * 0x1_0000 + b[2] as int * 0x100 + b[3] as int
  }

  /** The four bytes IPAtOffset shifts out of a word. */
  function Quad(t: nat): (b: seq<byte>)
    requires t < 0x1_0000_0000
    ensures |b| == 4
  {
    [(t / 0x100_0000) as byte, (t / 0x1_0000 % 0x100) as byte, (t / 0x100 % 0x100) as byte, (t % 0x100) as byte]
  }

  /** How a call can end; `Crash` is the index expression on a nil slice. */
  datatype Located = Address(ip: seq<byte>) | ParseError | NotIPv4 | OutOfRange | Crash

  function IpAtOffset(cidr: Option<Cidr>, offset: uint32): Located {
    if cidr.None? then ParseError
    else
      var c := cidr.value;
      if To4(c.addr).None? then NotIPv4
      else if To4(Network(c)).None? then Crash
      else
        Checked(c, Wrapped(Word(To4(Network(c)).value), offset as int))
  }

  /** The 32-bit sum. */
  function Wrapped(base: int, offset: int): (t: nat)
    ensures t < 0x1_0000_0000
  {
    (base + offset) % 0x1_0000_0000
  }

  function Checked(c: Cidr, target: nat): Located
    requires target < 0x1_0000_0000
  {
    var out := V4_IN_V6 + Quad(target);
    if Contains(c, out) then Address(out) else OutOfRange
  }

  lemma WordValue(b: seq<byte>)
    requires |b| == 4
    ensures Value(b) == Word(b)
  {
    var b3, b2, b1 := b[..3], b[..2], b[..1];
    assert b3[..2] == b2 && b2[..1] == b1 && b1[..0] == [];
    assert Value(b1) == b[0] as int && Value(b2) == Value(b1) * 0x100 + b[1] as int;
    assert Value(b3) == Value(b2) * 0x100 + b[2] as int;
  }

  /** base and base + B bound one block of addresses; a 32-bit sum is in the block iff the offset is below B. */
  lemma OffsetInBlock(base: nat, offset: nat, size: nat)
    requires size > 0 && base % size == 0 && base + size <= 0x1_0000_0000 && offset < 0x1_0000_0000
    ensures var target := Wrapped(base, offset);
            && (target - target % size == base <==> offset < size)
            && (offset < size ==> target == base + offset)
  {
    var target := Wrapped(base, offset);
    assert 0 <= target % size < size;
    assert target == base + offset || target == base + offset - 0x1_0000_0000;
    if offset < size {
      assert base == base / size * size;
      ModUnique(base + offset, base / size, offset, size);
    }
  }

  lemma NetworkBlock(addr: seq<byte>, p: nat)
    requires |addr| == 4 && p <= 32
    ensures Value(Mask(addr, p)) % Pow2(32 - p) == 0
    ensures Value(Mask(addr, p)) + Pow2(32 - p) <= 0x1_0000_0000
  {
    MaskValue(addr, p);
    assert HostBits(4, p) == 32 - p;
    BlockOf32(Value(Mask(addr, p)), addr, p);
  }

  lemma BlockOf32(start: nat, addr: seq<byte>, p: nat)
    requires |addr| == 4 && p <= 32 && start == Value(addr) - Value(addr) % Pow2(32 - p)
    ensures start % Pow2(32 - p) == 0 && start + Pow2(32 - p) <= 0x1_0000_0000
  {
    ValueBound(addr);
    Split32(p);
    BlockOf(Value(addr), Pow2(32 - p), Pow2(p));
  }

  lemma BlockOf(v: nat, size: nat, count: nat)
    requires size > 0 && v < count * size
    ensures (v - v % size) % size == 0 && v - v % size + size <= count * size
  {
    RoundedDown(v, size);
    WholeBlocks(v, size, count);
  }

  lemma Split32(p: nat)
    requires p <= 32
    ensures Pow2(p) * Pow2(32 - p) == Pow256(4) == 0x1_0000_0000
  {
    Pow2Add(p, 32 - p);
    Pow256IsPow2(4);
    Width16();
  }

  lemma RoundedDown(v: nat, size: nat)
    requires size > 0
    ensures (v - v % size) % size == 0
  {
    assert (v / size) * size == v - v % size;
    ModUnique(v - v % size, v / size, 0, size);
  }

  lemma WholeBlocks(v: nat, size: nat, count: nat)
    requires size > 0 && v < count * size
    ensures v - v % size + size <= count * size
  {
    var q, r := v / size, v % size;
    assert v == q * size + r;
    BlockFits(q, r, size, count);
  }

  lemma BlockFits(q: nat, r: nat, size: nat, count: nat)
    requires r < size && q * size + r < count * size
    ensures q * size + size <= count * size
  {
    if q < count {
      Times(q, count - q, size);
      Times(1, count - q - 1, size);
    } else {
      Times(count, q - count, size);
    }
  }

  lemma Times(a: nat, d: nat, m: nat)
    ensures (a + d) * m == a * m + d * m && d * m >= 0
  {
  }

  lemma MaskSame(a: seq<byte>, b: seq<byte>, p: nat)
    requires |a| == |b|
    ensures Mask(a, p) == Mask(b, p) <==>
            Value(a) - Value(a) % Pow2(HostBits(|a|, p)) == Value(b) - Value(b) % Pow2(HostBits(|b|, p))
  {
    MaskValue(a, p);
    MaskValue(b, p);
    ValueInjective(Mask(a, p), Mask(b, p));
  }

  lemma MappedForms(b: seq<byte>)
    requires |b| == 4
    ensures To4(V4_IN_V6 + b) == Some(b) && Canonical(V4_IN_V6 + b) == b && Canonical(b) == b
  {
  }

  /** The masked-membership test on a dotted-decimal network, as a comparison of block starts. */
  lemma ContainsV4(c: Cidr, b: seq<byte>)
    requires c.V4? && Parsed(c) && |b| == 4
    ensures Contains(c, V4_IN_V6 + b) <==> Value(b) - Value(b) % Pow2(32 - c.prefix) == Value(Network(c))
  {
    var n := Network(c);
    MappedForms(b);
    MaskSame(n, b, c.prefix);
    NetworkBlock(c.addr, c.prefix);
  }

  lemma QuadValue(t: nat)
    requires t < 0x1_0000_0000
    ensures Value(Quad(t)) == t && Quad(t) == Bytes(t, 4)
  {
    var t1 := t / 0x100;
    var t2 := t1 / 0x100;
    assert t2 == t / 0x1_0000 && t2 / 0x100 == t / 0x100_0000;
    assert Word(Quad(t)) == t;
    WordValue(Quad(t));
    BytesOfValue(Quad(t));
  }

  /**
    For every IPv4 network and every 32-bit offset: success exactly below 2^(32-p), and then network + offset.
    The 32-bit sum may wrap around, but never back into the network.
   */
  lemma IpAtOffsetExact(c: Cidr, offset: uint32)
    requires c.V4? && Parsed(c)
    ensures IpAtOffset(Some(c), offset) ==
            if (offset as int) < Pow2(32 - c.prefix)
            then Address(V4_IN_V6 + Bytes(Value(Network(c)) + offset as int, 4))
            else OutOfRange
  {
    LocatedAt(c, offset, Network(c), Wrapped(Value(Network(c)), offset as int));
    CheckedOffset(c, offset as nat);
  }

  lemma CheckedOffset(c: Cidr, offset: nat)
    requires c.V4? && Parsed(c) && offset < 0x1_0000_0000
    ensures Checked(c, Wrapped(Value(Network(c)), offset)) ==
            if offset < Pow2(32 - c.prefix)
            then Address(V4_IN_V6 + Bytes(Value(Network(c)) + offset, 4)) else OutOfRange
  {
    ContainsOffset(c, Wrapped(Value(Network(c)), offset), offset);
    if offset < Pow2(32 - c.prefix) { QuadInside(c, Wrapped(Value(Network(c)), offset), offset); }
  }

  lemma ContainsOffset(c: Cidr, target: nat, offset: nat)
    requires c.V4? && Parsed(c) && offset < 0x1_0000_0000 && target == Wrapped(Value(Network(c)), offset)
    ensures Contains(c, V4_IN_V6 + Quad(target)) <==> offset < Pow2(32 - c.prefix)
  {
    OffsetInNetwork(c, offset);
    ContainsQuad(c, target, offset < Pow2(32 - c.prefix));
  }

  lemma ContainsQuad(c: Cidr, target: nat, inside: bool)
    requires c.V4? && Parsed(c) && target < 0x1_0000_0000
    requires inside <==> target - target % Pow2(32 - c.prefix) == Value(Network(c))
    ensures Contains(c, V4_IN_V6 + Quad(target)) <==> inside
  {
    QuadValue(target);
    ContainsV4(c, Quad(target));
  }

  lemma QuadInside(c: Cidr, target: nat, offset: nat)
    requires c.V4? && Parsed(c) && target == Wrapped(Value(Network(c)), offset) && offset < Pow2(32 - c.prefix)
    ensures Quad(target) == Bytes(Value(Network(c)) + offset, 4)
  {
    NetworkBlock(c.addr, c.prefix);
    assert target == Value(Network(c)) + offset;
    QuadValue(target);
  }

  lemma OffsetInNetwork(c: Cidr, offset: nat)
    requires c.V4? && Parsed(c) && offset < 0x1_0000_0000
    ensures var base, size := Value(Network(c)), Pow2(32 - c.prefix);
            var target := Wrapped(base, offset);
            && (target - target % size == base <==> offset < size)
            && (offset < size ==> target == base + offset)
  {
    NetworkBlock(c.addr, c.prefix);
    OffsetInBlock(Value(Network(c)), offset, Pow2(32 - c.prefix));
  }

  lemma LocatedAt(c: Cidr, offset: uint32, n: seq<byte>, target: nat)
    requires To4(c.addr).Some? && To4(Network(c)) == Some(n) && |n| == 4
    requires target == Wrapped(Value(n), offset as int)
    ensures IpAtOffset(Some(c), offset) == Checked(c, target)
  {
    WordValue(n);
  }

  // ---------------------------------------------------------------- colon notation

  /** The dotted-decimal network an IPv4-mapped one stands for. */
  function Dotted(c: Cidr): Cidr
    requires c.V6? && |c.addr| == 16 && c.prefix >= 96
  {
    V4(c.addr[12..], c.prefix - 96)
  }

  lemma MaskedMapped(c: Cidr)
    requires c.V6? && Parsed(c) && To4(c.addr).Some?
    ensures c.prefix >= 96 ==> Network(c) == V4_IN_V6 + Network(Dotted(c))
    ensures c.prefix < 96 ==> To4(Network(c)).None?
  {
    WideForm(c.addr);
    if c.prefix >= 96 {
      MaskKeepsMapping(c.addr, c.prefix);
    } else {
      MaskCutsMapping(c.addr, c.prefix);
    }
  }

  lemma MaskKeepsMapping(addr: seq<byte>, p: nat)
    requires |addr| == 16 && addr[..12] == V4_IN_V6 && p >= 96
    ensures Mask(addr, p) == V4_IN_V6 + Mask(addr[12..], p - 96)
  {
    forall i | 0 <= i < 12
      ensures Mask(addr, p)[i] == V4_IN_V6[i]
    {
      assert Clamp(p - 8 * i) == 8 && Pow2(0) == 1;
      assert addr[i] == addr[..12][i];
    }
    forall i | 12 <= i < 16
      ensures Mask(addr, p)[i] == Mask(addr[12..], p - 96)[i - 12]
    {
      assert p - 8 * i == p - 96 - 8 * (i - 12);
    }
  }

  lemma MaskCutsMapping(addr: seq<byte>, p: nat)
    requires |addr| == 16 && addr[..12] == V4_IN_V6 && p < 96
    ensures To4(Mask(addr, p)).None?
  {
    var k := Clamp(p - 88);
    assert addr[11] == addr[..12][11] == 0xff;
    assert Mask(addr, p)[11] == KeepBits(0xff, k);
    Pow2Monotone(1, 8 - k);
    ResidueOf255(8 - k);
    assert Mask(addr, p)[..12][11] != V4_IN_V6[11];
  }

  lemma ResidueOf255(h: nat)
    requires 1 <= h <= 8
    ensures 0xff % Pow2(h) != 0
  {
    assert Pow2(1) == 2 && Pow2(2) == 4 && Pow2(3) == 8 && Pow2(4) == 16;
    assert Pow2(5) == 32 && Pow2(6) == 64 && Pow2(7) == 128 && Pow2(8) == 256;
    assert h == 1 || h == 2 || h == 3 || h == 4 || h == 5 || h == 6 || h == 7 || h == 8;
  }

  /**
    Networks in colon notation. A plain IPv6 one is refused. An IPv4-mapped one behaves as the dotted network it stands
    for when its prefix covers the mapping, and otherwise ends in the index on a nil slice: the code guards the address
    and not the masked network.
   */
  lemma IpAtOffsetColon(c: Cidr, offset: uint32)
    requires c.V6? && Parsed(c)
    ensures IpAtOffset(Some(c), offset).NotIPv4? <==> To4(c.addr).None?
    ensures IpAtOffset(Some(c), offset).Crash? <==> To4(c.addr).Some? && c.prefix < 96
    ensures To4(c.addr).Some? && c.prefix >= 96 ==> IpAtOffset(Some(c), offset) == IpAtOffset(Some(Dotted(c)), offset)
  {
    if To4(c.addr).Some? {
      MaskedMapped(c);
      if c.prefix >= 96 { SameAsDotted(c, offset); }
    }
  }

  /** ::ffff:10.0.0.0/64 is such a network. */
  lemma MappedCrash(offset: uint32)
    ensures var c := V6(V4_IN_V6 + [10, 0, 0, 0], 64); Parsed(c) && IpAtOffset(Some(c), offset) == Crash
  {
    var c := V6(V4_IN_V6 + [10, 0, 0, 0], 64);
    MappedForms([10, 0, 0, 0]);
    IpAtOffsetColon(c, offset);
  }

  lemma SameAsDotted(c: Cidr, offset: uint32)
    requires c.V6? && Parsed(c) && To4(c.addr).Some? && c.prefix >= 96
    ensures IpAtOffset(Some(c), offset) == IpAtOffset(Some(Dotted(c)), offset)
    ensures !IpAtOffset(Some(c), offset).Crash? && !IpAtOffset(Some(c), offset).NotIPv4?
  {
    var n := Network(Dotted(c));
    var target := Wrapped(Value(n), offset as int);
    MaskedMapped(c);
    MappedForms(n);
    LocatedAt(c, offset, n, target);
    LocatedAt(Dotted(c), offset, n, target);
    CheckedDotted(c, target);
  }

  lemma CheckedDotted(c: Cidr, target: nat)
    requires c.V6? && Parsed(c) && To4(c.addr).Some? && c.prefix >= 96 && target < 0x1_0000_0000
    ensures Checked(c, target) == Checked(Dotted(c), target)
    ensures Checked(c, target).Address? || Checked(c, target).OutOfRange?
  {
    ContainsDotted(c, V4_IN_V6 + Quad(target));
  }

  lemma ContainsDotted(c: Cidr, ip: seq<byte>)
    requires c.V6? && Parsed(c) && To4(c.addr).Some? && c.prefix >= 96
    ensures Contains(c, ip) == Contains(Dotted(c), ip)
  {
    var n := Network(Dotted(c));
    MaskedMapped(c);
    MappedForms(n);
    ContainsUnder(c, n, c.prefix - 96, ip);
    ContainsUnder(Dotted(c), n, c.prefix - 96, ip);
  }

  lemma ContainsUnder(c: Cidr, n: seq<byte>, p: nat, ip: seq<byte>)
    requires |n| == 4 && Canonical(Network(c)) == n && c.prefix == if c.V6? then p + 96 else p
    ensures Contains(c, ip) <==> |Canonical(ip)| == 4 && Mask(n, p) == Mask(Canonical(ip), p)
  {
  }

  // ---------------------------------------------------------------- firstServiceIP

  /** firstServiceIP before printing: no result for an unparsable CIDR, a nil address (printed "<nil>") on overflow. */
  ghost function FirstServiceIpOf(cidr: Option<Cidr>): Option<Option<seq<byte>>> {
    if cidr.None? then None else Some(Add(Network(cidr.value), 1))
  }

  method FirstServiceIp(cidr: Option<Cidr>) returns (ip: array?<byte>, ok: bool)
    ensures ok <==> cidr.Some?
    ensures FirstServiceIpOf(cidr) == if ok then Some(if ip == null then None else Some(ip[..])) else None
  {
    if cidr.None? {
      return null, false;
    }
    var ip' := Copy(Network(cidr.value));
    ip := AddIp(ip', 1);
    ok := true;
  }

  /**
    The two computations of "network + 1" agree on every IPv4 network up to /31 and differ exactly at /32, where
    IPAtOffset refuses and firstServiceIP still answers, with the nil address after 255.255.255.255.
   */
  lemma FirstServiceIpAgrees(c: Cidr)
    requires c.V4? && Parsed(c)
    ensures var first, located := FirstServiceIpOf(Some(c)).value, IpAtOffset(Some(c), 1);
            && (located.Address? && first == Some(Canonical(located.ip)) <==> c.prefix <= 31)
            && (c.prefix == 32 ==> located == OutOfRange &&
                                   (first.None? <==> Value(c.addr) == 0xffff_ffff) &&
                                   (first.Some? ==> Value(first.value) == Value(c.addr) + 1))
  {
    if c.prefix <= 31 {
      RoomForOne(c);
      IpAtOffsetExact(c, 1);
      FirstServiceIpInside(c, IpAtOffset(Some(c), 1));
    } else {
      FirstServiceIpAlone(c);
    }
  }

  lemma FirstServiceIpInside(c: Cidr, located: Located)
    requires c.V4? && Parsed(c) && c.prefix <= 31
    requires located == Address(V4_IN_V6 + Bytes(Value(Network(c)) + 1, 4))
    ensures located.Address? && FirstServiceIpOf(Some(c)) == Some(Some(Canonical(located.ip)))
  {
    RoomForOne(c);
    FirstServiceIpIs(c);
    MappedForms(Bytes(Value(Network(c)) + 1, 4));
  }

  lemma RoomForOne(c: Cidr)
    requires c.V4? && Parsed(c) && c.prefix <= 31
    ensures 1 < Pow2(32 - c.prefix) && Value(Network(c)) + 1 < 0x1_0000_0000
  {
    Pow2Monotone(1, 32 - c.prefix);
    NetworkBlock(c.addr, c.prefix);
  }

  lemma FirstServiceIpIs(c: Cidr)
    requires c.V4? && Parsed(c)
    ensures var v := Value(Network(c)) + 1;
            FirstServiceIpOf(Some(c)) == Some(if v < 0x1_0000_0000 then Some(Bytes(v, 4)) else None)
  {
  }

  lemma FirstServiceIpAlone(c: Cidr)
    requires c.V4? && Parsed(c) && c.prefix == 32
    ensures var first := FirstServiceIpOf(Some(c)).value;
            && IpAtOffset(Some(c), 1) == OutOfRange
            && (first.None? <==> Value(c.addr) == 0xffff_ffff)
            && (first.Some? ==> Value(first.value) == Value(c.addr) + 1)
  {
    IpAtOffsetExact(c, 1);
    FirstServiceIpIs(c);
    HostRoute(c);
    var v := Value(c.addr) + 1;
    Width16();
    ValueBound(c.addr);
    if v < 0x1_0000_0000 { ValueOfBytes(v, 4); }
  }

  lemma HostRoute(c: Cidr)
    requires c.V4? && Parsed(c) && c.prefix == 32
    ensures Value(Network(c)) == Value(c.addr) && Pow2(32 - c.prefix) == 1
  {
    MaskValue(c.addr, 32);
  }

  /**
    firstServiceIP on networks in colon notation. An IPv4-mapped one gives what its dotted form gives. Any other gives
    the next 16-byte address, with wrap-around and never nil; it is a member of the network exactly up to /127.
   */
  lemma FirstServiceIpWide(c: Cidr)
    requires c.V6? && Parsed(c)
    ensures if To4(Network(c)).Some? then
              && To4(c.addr).Some? && c.prefix >= 96
              && FirstServiceIpOf(Some(c)) == FirstServiceIpOf(Some(Dotted(c)))
            else
              var first := FirstServiceIpOf(Some(c)).value;
              && first.Some? && |first.value| == 16
              && Value(first.value) == (Value(Network(c)) + 1) % Pow256(16)
              && (Contains(c, first.value) <==> c.prefix < 128)
  {
    if To4(Network(c)).Some? {
      MappedNetwork(c.addr, c.prefix);
      FirstOfMapped(c);
    } else {
      WideNext(Network(c));
      NextUnderMask(c.addr, c.prefix, Network(c), Add(Network(c), 1).value);
      ContainsWide(c, Network(c), Add(Network(c), 1).value);
    }
  }

  lemma FirstOfMapped(c: Cidr)
    requires c.V6? && Parsed(c) && To4(c.addr).Some? && c.prefix >= 96
    ensures FirstServiceIpOf(Some(c)) == FirstServiceIpOf(Some(Dotted(c)))
  {
    MaskedMapped(c);
    MappedForms(Network(Dotted(c)));
    AddOfMapped(Network(c), 1);
  }

  lemma NextUnderMask(addr: seq<byte>, p: nat, n: seq<byte>, next: seq<byte>)
    requires |addr| == 16 && p <= 128 && n == Mask(addr, p) && To4(n).None?
    requires Add(n, 1) == Some(next) && |next| == 16 && Value(next) == (Value(n) + 1) % Pow256(16)
    ensures To4(next).None? && Mask(n, p) == Mask(next, p) <==> p < 128
  {
    if p < 128 { NextInNetwork(addr, p); } else { NotItself(n, next); }
  }

  lemma ContainsWide(c: Cidr, n: seq<byte>, x: seq<byte>)
    requires c.V6? && n == Network(c) && |n| == |x| == 16 && To4(n).None?
    ensures Contains(c, x) <==> To4(x).None? && Mask(n, c.prefix) == Mask(x, c.prefix)
  {
  }

  /** The first service address as a number, where there is room for it. */
  lemma FirstOfV4(c: Cidr) returns (ip: seq<byte>)
    requires c.V4? && Parsed(c) && c.prefix < 32
    ensures FirstServiceIpOf(Some(c)) == Some(Some(ip)) && Value(ip) == Value(Canonical(Network(c))) + 1
  {
    RoomForOne(c);
    FirstServiceIpIs(c);
    ip := Bytes(Value(Network(c)) + 1, 4);
    Width16();
    ValueOfBytes(Value(Network(c)) + 1, 4);
    MappedForms(Network(c));
  }

  lemma FirstOfV6(c: Cidr) returns (ip: seq<byte>)
    requires c.V6? && Parsed(c) && c.prefix < 128
    ensures FirstServiceIpOf(Some(c)) == Some(Some(ip)) && Value(ip) == Value(Canonical(Network(c))) + 1
  {
    FirstServiceIpWide(c);
    if To4(Network(c)).Some? {
      ip := FirstOfV4(Dotted(c));
      MaskedMapped(c);
      MappedForms(Network(Dotted(c)));
    } else {
      ip := FirstServiceIpOf(Some(c)).value.value;
      NextValue(c.addr, c.prefix, ip);
    }
  }

  lemma NextValue(addr: seq<byte>, p: nat, ip: seq<byte>)
    requires |addr| == 16 && p < 128 && To4(Mask(addr, p)).None? && Add(Mask(addr, p), 1) == Some(ip)
    ensures Value(ip) == Value(Mask(addr, p)) + 1
  {
    var n := Mask(addr, p);
    LastKept(addr, p, n[15], Clamp(p - 120));
    LastByteUp(n);
    LastByteValue(n);
  }

  /** The next 16-byte address. */
  lemma WideNext(n: seq<byte>)
    requires |n| == 16 && To4(n).None?
    ensures Add(n, 1).Some? && |Add(n, 1).value| == 16
    ensures Value(Add(n, 1).value) == (Value(n) + 1) % Pow256(16)
  {
    ValueOfBytes((Value(n) + 1) % Pow256(16), 16);
  }

  /** A host route does not contain the next address. */
  lemma NotItself(n: seq<byte>, next: seq<byte>)
    requires |n| == |next| == 16 && Value(next) == (Value(n) + 1) % Pow256(16)
    ensures next != n && Mask(n, 128) == n && Mask(next, 128) == next
  {
    HostMask(n);
    HostMask(next);
    Width16();
    ValueBound(n);
  }

  lemma HostMask(n: seq<byte>)
    requires |n| == 16
    ensures Mask(n, 128) == n
  {
    assert Pow2(0) == 1;
    forall i | 0 <= i < 16
      ensures Mask(n, 128)[i] == n[i]
    {
      assert Clamp(128 - 8 * i) == 8;
    }
  }

  /** Only an IPv4-mapped address has an IPv4-mapped network, and only with a prefix that covers the mapping. */
  lemma MappedNetwork(addr: seq<byte>, p: nat)
    requires |addr| == 16 && To4(Mask(addr, p)).Some?
    ensures To4(addr).Some? && p >= 96
  {
    var n := Mask(addr, p);
    assert n[11] == KeepBits(addr[11], Clamp(p - 88));
    assert n[11] == n[..12][11] == 0xff;
    if p < 96 {
      KeptByte(addr[11], Clamp(p - 88));
      assert false;
    }
    forall i | 0 <= i < 12
      ensures addr[i] == n[i]
    {
      assert Clamp(p - 8 * i) == 8 && Pow2(0) == 1;
    }
    assert addr[..12] == n[..12];
  }

  /** What is left of a byte after clearing one low bit or more: even, and still the same after setting the lowest. */
  lemma KeptByte(x: byte, k: nat)
    requires k < 8
    ensures var y := KeepBits(x, k);
            y as nat % 2 == 0 && y < 0xff && KeepBits(y, k) == y && KeepBits(y + 1, k) == y
  {
    var y, m := KeepBits(x, k), Pow2(8 - k);
    KeepBitsIs(x, k, m);
    WholeMultiple(x as nat, m);
    RoundedEven(x as nat / m, m, Pow2(7 - k), y as nat);
    KeptAgain(y, k, m);
  }

  lemma KeptAgain(y: byte, k: nat, m: nat)
    requires k < 8 && m == Pow2(8 - k) && y < 0xff && y as nat % m == 0 && (y as nat + 1) % m == 1
    ensures KeepBits(y, k) == y && KeepBits(y + 1, k) == y
  {
    KeepBitsIs(y, k, m);
    KeepBitsIs(y + 1, k, m);
  }

  lemma KeepBitsIs(x: byte, k: nat, m: nat)
    requires k <= 8 && m == Pow2(8 - k)
    ensures m > 0 && KeepBits(x, k) as int == x as int - x as int % m
  {
  }

  lemma RoundedEven(q: nat, m: nat, half: nat, y: nat)
    requires m == 2 * half && half > 0 && y == q * m
    ensures y % 2 == 0 && y % m == 0 && (y + 1) % m == 1
  {
    Halves(q, half);
    EvenBlock(y, q, m, q * half);
  }

  lemma WholeMultiple(x: nat, m: nat)
    requires m > 0
    ensures x - x % m == (x / m) * m
  {
  }

  lemma Halves(q: nat, half: nat)
    ensures q * (2 * half) == (q * half) * 2
  {
  }

  lemma EvenBlock(y: nat, q: nat, m: nat, halves: nat)
    requires m >= 2 && y == q * m && y == halves * 2
    ensures y % 2 == 0 && y % m == 0 && (y + 1) % m == 1
  {
    ModUnique(y, halves, 0, 2);
    ModUnique(y, q, 0, m);
    ModUnique(y + 1, q, 1, m);
  }

  /** Below a prefix of 128 only the last byte of the network changes, and only below the mask. */
  lemma NextInNetwork(addr: seq<byte>, p: nat)
    requires |addr| == 16 && p < 128 && To4(Mask(addr, p)).None?
    ensures var n := Mask(addr, p);
            var next := Add(n, 1).value;
            |next| == 16 && To4(next).None? && Mask(n, p) == Mask(next, p)
  {
    var n := Mask(addr, p);
    LastKept(addr, p, n[15], Clamp(p - 120));
    LastByteUp(n);
    NextMasked(n, n[15 := n[15] + 1], p);
  }

  lemma LastKept(addr: seq<byte>, p: nat, y: byte, k: nat)
    requires |addr| == 16 && p < 128 && k == Clamp(p - 120) && y == Mask(addr, p)[15]
    ensures y < 0xff && KeepBits(y, k) == y && KeepBits(y + 1, k) == y
  {
    assert p - 8 * 15 == p - 120;
    assert y == KeepBits(addr[15], k);
    KeptByte(addr[15], k);
  }

  lemma NextMasked(n: seq<byte>, next: seq<byte>, p: nat)
    requires |n| == 16 && n[15] < 0xff && next == n[15 := n[15] + 1] && To4(n).None?
    requires KeepBits(n[15], Clamp(p - 120)) == KeepBits(next[15], Clamp(p - 120))
    ensures To4(next).None? && Mask(n, p) == Mask(next, p)
  {
    assert next[..12] == n[..12];
    SameMask(n, next, p);
  }

  lemma SameMask(a: seq<byte>, b: seq<byte>, p: nat)
    requires |a| == |b| == 16 && forall i :: 0 <= i < 15 ==> a[i] == b[i]
    requires KeepBits(a[15], Clamp(p - 120)) == KeepBits(b[15], Clamp(p - 120))
    ensures Mask(a, p) == Mask(b, p)
  {
    forall i | 0 <= i < 16
      ensures Mask(a, p)[i] == Mask(b, p)[i]
    {
      if i < 15 { assert a[i] == b[i]; }
    }
  }

  lemma LastByteUp(n: seq<byte>)
    requires |n| == 16 && n[15] < 0xff && To4(n).None?
    ensures Add(n, 1) == Some(n[15 := n[15] + 1])
  {
    var next := n[15 := n[15] + 1];
    LastByteValue(n);
    ValueBound(next);
    ModUnique(Value(next), 0, Value(next), Pow256(16));
    WideAdd(n, 1, next);
  }

  lemma LastByteValue(n: seq<byte>)
    requires |n| == 16 && n[15] < 0xff
    ensures Value(n[15 := n[15] + 1]) == Value(n) + 1
  {
    assert n[15 := n[15] + 1][..15] == n[..15];
  }

  /**
    The DNS service address (offset 10) exists exactly up to /28; then it and the first service address are distinct
    members.
   */
  lemma DnsAndFirstServiceIp(c: Cidr)
    requires c.V4? && Parsed(c)
    ensures var dns, first := IpAtOffset(Some(c), 10), FirstServiceIpOf(Some(c)).value;
            && (dns.Address? <==> c.prefix <= 28)
            && (dns.Address? ==> first.Some? && first.value != Canonical(dns.ip) &&
                                 Contains(c, dns.ip) && Contains(c, V4_IN_V6 + first.value))
  {
    IpAtOffsetExact(c, 10);
    RoomForTen(32 - c.prefix);
    if c.prefix <= 28 { FirstAndTenth(c); }
  }

  lemma RoomForTen(h: nat)
    ensures if h >= 4 then Pow2(h) >= 16 else Pow2(h) <= 8
  {
    SmallPowers();
    if h >= 4 { Pow2Monotone(4, h); } else { Pow2Monotone(h, 3); }
  }

  lemma SmallPowers()
    ensures Pow2(3) == 8 && Pow2(4) == 16
  {
  }

  lemma FirstAndTenth(c: Cidr)
    requires c.V4? && Parsed(c) && c.prefix <= 28 && Pow2(32 - c.prefix) >= 16
    ensures var dns, first := IpAtOffset(Some(c), 10), FirstServiceIpOf(Some(c)).value;
            && dns.Address? && first.Some? && first.value != Canonical(dns.ip)
            && Contains(c, dns.ip) && Contains(c, V4_IN_V6 + first.value)
  {
    var v := Value(Network(c));
    IpAtOffsetExact(c, 10);
    IpAtOffsetExact(c, 1);
    FirstServiceIpAgrees(c);
    NetworkBlock(c.addr, c.prefix);
    MappedForms(Bytes(v + 1, 4));
    MappedForms(Bytes(v + 10, 4));
    DifferentBytes(v + 1, v + 10);
  }

  lemma DifferentBytes(v: nat, w: nat)
    requires v < w < 0x1_0000_0000
    ensures Bytes(v, 4) != Bytes(w, 4)
  {
    Width16();
    ValueOfBytes(v, 4);
    ValueOfBytes(w, 4);
  }
}
