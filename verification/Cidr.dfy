/**
 * CIDR masking on address bytes (mask and nets in src/utils/ip/index.js), against integer
 * arithmetic on the address read as one big-endian number.
 */
module Cidr {
  import opened Bytes

  // ---------------------------------------------------------------- bits

  function Pow2(n: nat): (p: nat)
    ensures p > 0
  {
    if n == 0 then 1 else 2 * Pow2(n - 1)
  }

  /** Bitwise and of the k low bits. */
  function And(a: nat, b: nat, k: nat): nat {
    if k == 0 then 0 else (a % 2) * (b % 2) + 2 * And(a / 2, b / 2, k - 1)
  }

  /** parseInt(bits, 2) */
  function Binary(bits: seq<nat>): nat {
    if bits == [] then 0 else 2 * Binary(bits[..|bits| - 1]) + bits[|bits| - 1]
  }

  /** m ones, padded with zeros to n digits. */
  function Ones(m: nat, n: nat): (bits: seq<nat>)
    ensures |bits| == n
  {
    seq(n, i => if i < m then 1 else 0)
  }

  function MaskByte(m: nat): nat {
    Binary(Ones(m, 8))
  }

  /** How many of n leading bits fall into byte i. */
  function BitsIn(n: nat, i: nat): nat {
    if n <= 8 * i then 0 else Min(n - 8 * i, 8)
  }

  function Masked(address: bytes, n: nat): (r: bytes)
    ensures |r| == |address|
  {
    seq(|address|, i requires 0 <= i < |address| => MaskedByte(address[i], BitsIn(n, i)))
  }

  function MaskedByte(b: byte, m: nat): (r: byte)
    requires m <= 8
  {
    MaskedByteIsFloor(b, m);
    FloorBelow(b, Pow2(8 - m));
    And(b, MaskByte(m), 8)
  }

  // ---------------------------------------------------------------- the code

  /** mask(initialMaskSize): the address's own buffer is copied, then masked in place. */
  method Mask(address: array<byte>, initialMaskSize: nat) returns (r: bytes)
    ensures r == Masked(address[..], initialMaskSize)
  {
    var maskSize := initialMaskSize;
    var buffer := new byte[address.Length](i requires 0 <= i < address.Length reads address => address[i]);
    var masks: seq<nat> := [];
    for key := 0 to buffer.Length
      invariant |masks| == key
      invariant maskSize == if initialMaskSize <= 8 * key then 0 else initialMaskSize - 8 * key
      invariant forall i :: 0 <= i < key ==> masks[i] == MaskByte(BitsIn(initialMaskSize, i))
    {
      var mask := Min(maskSize, 8);
      maskSize := maskSize - mask;
      masks := masks + [Binary(Ones(mask, 8))];
    }
    for key := 0 to buffer.Length
      invariant forall i :: 0 <= i < key ==> buffer[i] == Masked(address[..], initialMaskSize)[i]
      invariant forall i :: key <= i < buffer.Length ==> buffer[i] == address[i]
    {
      var m := BitsIn(initialMaskSize, key);
      assert MaskedByte(buffer[key], m) == And(buffer[key], masks[key], 8);
      buffer[key] := And(buffer[key], masks[key], 8);
    }
    r := buffer[..];
  }

  /** nets(): one network per prefix length. */
  method Nets(address: array<byte>) returns (nets: seq<(bytes, nat)>)
    ensures |nets| == address.Length * 8
    ensures forall k :: 0 <= k < |nets| ==> nets[k] == (Masked(address[..], k + 1), k + 1)
  {
    var mask := address.Length * 8;
    nets := [];
    for key := 0 to mask
      invariant |nets| == key
      invariant forall k :: 0 <= k < key ==> nets[k] == (Masked(address[..], k + 1), k + 1)
    {
      var net := Mask(address, key + 1);
      nets := nets + [(net, key + 1)];
    }
  }

  // ---------------------------------------------------------------- division

  /** The greatest multiple of d not above x. */
  function Floor(x: nat, d: nat): nat
    requires d > 0
  {
    x / d * d
  }

  lemma FloorBelow(x: nat, d: nat)
    requires d > 0
    ensures Floor(x, d) <= x < Floor(x, d) + d
  {
    assert x == x / d * d + x % d;
  }

  /** Floor is the only multiple of d in reach. */
  lemma {:induction false} FloorUnique(x: nat, d: nat, q: nat)
    requires d > 0 && q * d <= x < q * d + d
    ensures x / d == q && Floor(x, d) == q * d
  {
    FloorBelow(x, d);
    if x / d < q {
      Gap(x / d, q, d);
    } else if q < x / d {
      Gap(q, x / d, d);
    }
  }

  lemma {:induction false} Gap(p: nat, q: nat, d: nat)
    requires p < q
    ensures p * d + d <= q * d
  {
    Scale(p + 1, q, d);
  }

  lemma {:induction false} FloorNests(x: nat, c: nat, d: nat)
    requires c > 0 && d > 0
    ensures c * d > 0 && x / (c * d) == x / c / d && Floor(x, c * d) == Floor(x / c, d) * c
  {
    var y, q := x / c, x / c / d;
    FloorBelow(x, c);
    FloorBelow(y, d);
    Regroup(q, d, c);
    Scale(q * d, y, c);
    Scale(y + 1, q * d + d, c);
    Distribute(y, 1, c);
    Distribute(q * d, d, c);
    FloorUnique(x, c * d, q);
  }

  lemma Regroup(a: nat, b: nat, c: nat)
    ensures a * b * c == a * (c * b)
  {
  }

  lemma Distribute(a: nat, b: nat, c: nat)
    ensures (a + b) * c == a * c + b * c
  {
  }

  lemma Scale(a: nat, b: nat, c: nat)
    requires a <= b
    ensures a * c <= b * c
  {
  }

  lemma {:induction false} FloorShift(v: nat, e: nat, x: nat, d: nat)
    requires d > 0
    ensures Floor(v * (e * d) + x, d) == v * (e * d) + Floor(x, d)
  {
    FloorBelow(x, d);
    var q := v * e + x / d;
    assert q * d == v * (e * d) + x / d * d;
    FloorUnique(v * (e * d) + x, d, q);
  }

  lemma {:induction false} Pow2Adds(a: nat, b: nat)
    ensures Pow2(a + b) == Pow2(a) * Pow2(b)
    decreases b
  {
    if b > 0 {
      Pow2Adds(a, b - 1);
      assert Pow2(a + b) == 2 * Pow2(a + (b - 1));
    }
  }

  lemma Pow2Of8()
    ensures Pow2(8) == 256
  {
    assert Pow2(4) == 16;
    assert Pow2(8) == 2 * (2 * (2 * (2 * Pow2(4))));
  }

  // ---------------------------------------------------------------- one byte

  lemma {:induction false} OnesValue(m: nat, n: nat)
    requires m <= n
    ensures Binary(Ones(m, n)) == Pow2(n) - Pow2(n - m)
    decreases n
  {
    if n > 0 {
      if m == n {
        OnesValue(n - 1, n - 1);
        assert Ones(m, n)[..n - 1] == Ones(n - 1, n - 1);
      } else {
        OnesValue(m, n - 1);
        assert Ones(m, n)[..n - 1] == Ones(m, n - 1);
        assert Pow2(n - m) == 2 * Pow2(n - 1 - m);
      }
    }
  }

  lemma {:induction false} AndAllOnes(a: nat, k: nat)
    requires a < Pow2(k)
    ensures And(a, Pow2(k) - 1, k) == a
    decreases k
  {
    if k > 0 {
      AndAllOnes(a / 2, k - 1);
      assert (Pow2(k) - 1) / 2 == Pow2(k - 1) - 1;
    }
  }

  /** Masking away j low bits with an and is rounding down to a multiple of 2^j. */
  lemma {:induction false} AndIsFloor(a: nat, j: nat, k: nat)
    requires j <= k && a < Pow2(k)
    ensures Pow2(j) <= Pow2(k)
    ensures And(a, Pow2(k) - Pow2(j), k) == Floor(a, Pow2(j))
    decreases k
  {
    if j == 0 {
      AndAllOnes(a, k);
    } else {
      AndIsFloor(a / 2, j - 1, k - 1);
      var mask := Pow2(k) - Pow2(j);
      assert mask == 2 * (Pow2(k - 1) - Pow2(j - 1));
      FloorNests(a, 2, Pow2(j - 1));
    }
  }

  lemma MaskedByteIsFloor(b: byte, m: nat)
    requires m <= 8
    ensures And(b, MaskByte(m), 8) == Floor(b, Pow2(8 - m))
  {
    Pow2Of8();
    OnesValue(m, 8);
    AndIsFloor(b, 8 - m, 8);
  }

  // ---------------------------------------------------------------- whole addresses

  /** The address as one big-endian number. */
  function Value(s: bytes): nat {
    if s == [] then 0 else Value(s[..|s| - 1]) * 256 + s[|s| - 1]
  }

  lemma MaskedInit(s: bytes, n: nat)
    requires s != []
    ensures Masked(s, n)[..|s| - 1] == Masked(s[..|s| - 1], n)
  {
  }

  lemma FullMask(s: bytes, n: nat)
    requires n >= 8 * |s|
    ensures Masked(s, n) == s
  {
    forall i | 0 <= i < |s|
      ensures Masked(s, n)[i] == s[i]
    {
      MaskedByteIsFloor(s[i], 8);
    }
  }

  /** The byte-wise mask is integer rounding: n leading bits kept is floor to a multiple of 2^(L-n). */
  lemma {:induction false} MaskIsFloor(s: bytes, n: nat)
    requires n <= 8 * |s|
    ensures Value(Masked(s, n)) == Floor(Value(s), Pow2(8 * |s| - n))
    decreases |s|
  {
    if s != [] {
      var k := |s| - 1;
      var init, last := s[..k], s[k];
      var v := Value(init);
      MaskedInit(s, n);
      Pow2Of8();
      if n >= 8 * k {
        var m := n - 8 * k;
        FullMask(init, n);
        MaskedByteIsFloor(last, m);
        Pow2Adds(m, 8 - m);
        FloorShift(v, Pow2(m), last, Pow2(8 - m));
      } else {
        MaskIsFloor(init, n);
        MaskedByteIsFloor(last, 0);
        FloorUnique(last, 256, 0);
        var j := 8 * k - n;
        Pow2Adds(8, j);
        assert 8 * |s| - n == 8 + j;
        FloorNests(v * 256 + last, 256, Pow2(j));
        FloorUnique(v * 256 + last, 256, v);
      }
    }
  }

  lemma {:induction false} ValueInjective(a: bytes, b: bytes)
    requires |a| == |b| && Value(a) == Value(b)
    ensures a == b
    decreases |a|
  {
    if a != [] {
      ValueInjective(a[..|a| - 1], b[..|b| - 1]);
      assert a == a[..|a| - 1] + [a[|a| - 1]] && b == b[..|b| - 1] + [b[|b| - 1]];
    }
  }

  lemma {:induction false} FloorCoarser(x: nat, c: nat, d: nat)
    requires c > 0 && d > 0
    ensures c * d > 0 && Floor(Floor(x, c), c * d) == Floor(x, c * d)
  {
    FloorNests(x, c, d);
    FloorNests(Floor(x, c), c, d);
    FloorUnique(Floor(x, c), c, x / c);
  }

  lemma {:induction false} FloorFiner(x: nat, c: nat, d: nat)
    requires c > 0 && d > 0
    ensures c * d > 0 && Floor(Floor(x, c * d), c) == Floor(x, c * d)
  {
    FloorNests(x, c, d);
    var q := Floor(x / c, d);
    FloorUnique(q * c, c, q);
  }

  lemma {:induction false} FloorOfFloor(x: nat, j: nat, k: nat)
    ensures Floor(Floor(x, Pow2(j)), Pow2(k)) == Floor(x, Pow2(if j <= k then k else j))
  {
    if j <= k {
      Pow2Adds(j, k - j);
      FloorCoarser(x, Pow2(j), Pow2(k - j));
    } else {
      Pow2Adds(k, j - k);
      FloorFiner(x, Pow2(k), Pow2(j - k));
    }
  }

  /** A mask applied to a masked address is the shorter of the two masks. */
  lemma MasksCompose(s: bytes, n: nat, m: nat)
    ensures Masked(Masked(s, n), m) == Masked(s, Min(m, n))
  {
    forall i | 0 <= i < |s|
      ensures Masked(Masked(s, n), m)[i] == Masked(s, Min(m, n))[i]
    {
      var p, q := BitsIn(n, i), BitsIn(m, i);
      MaskedByteIsFloor(s[i], p);
      MaskedByteIsFloor(Masked(s, n)[i], q);
      MaskedByteIsFloor(s[i], BitsIn(Min(m, n), i));
      FloorOfFloor(s[i], 8 - p, 8 - q);
    }
  }

  // ---------------------------------------------------------------- networks

  /** x is in the network of this prefix length around the address. */
  ghost predicate InNet(x: bytes, address: bytes, n: nat) {
    |x| == |address| && Masked(x, n) == Masked(address, n)
  }

  lemma {:induction false} BlockMembers(v: nat, w: nat, size: nat)
    requires size > 0
    ensures Floor(v, size) == Floor(w, size) <==> Floor(w, size) <= v < Floor(w, size) + size
  {
    FloorBelow(v, size);
    if Floor(w, size) <= v < Floor(w, size) + size {
      FloorUnique(v, size, w / size);
    }
  }

  /** A network is the block of 2^(L-n) consecutive addresses starting at the masked one. */
  lemma {:induction false} NetIsBlock(x: bytes, address: bytes, n: nat)
    requires |x| == |address| && n <= 8 * |x|
    ensures var size := Pow2(8 * |x| - n); var base := Value(Masked(address, n));
            InNet(x, address, n) <==> base <= Value(x) < base + size
  {
    MaskIsFloor(x, n);
    MaskIsFloor(address, n);
    BlockMembers(Value(x), Value(address), Pow2(8 * |x| - n));
    if Value(Masked(x, n)) == Value(Masked(address, n)) {
      ValueInjective(Masked(x, n), Masked(address, n));
    }
  }

  /** The networks nets() lists contain the address and lie inside one another, longest prefix innermost. */
  lemma NetsNest(x: bytes, address: bytes, n: nat, m: nat)
    requires m <= n
    ensures InNet(address, address, n) && InNet(Masked(address, n), address, n)
    ensures InNet(x, address, n) ==> InNet(x, address, m)
  {
    MasksCompose(address, n, n);
    MasksCompose(x, n, m);
    MasksCompose(address, n, m);
  }
}
