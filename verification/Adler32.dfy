/** The Adler-32 checksum of sections 2.2 and 8.2 of RFC 1950, and which changes it detects. */
module Adler32 {

  type Byte = x: int | 0 <= x < 256
  type Bytes = seq<Byte>

  /** The remainder modulo the largest prime below 2^16. */
  function Mod(x: int): (r: int)
    ensures 0 <= r < 65521
  {
    x % 65521
  }

  /** The two running sums, reduced at every byte; the initial value is 1. */
  function Sums(data: Bytes): (r: (int, int))
    ensures 0 <= r.0 < 65521 && 0 <= r.1 < 65521
  {
    if data == [] then (1, 0)
    else
      var (a, b) := Sums(data[..|data| - 1]);
      var a' := Mod(a + data[|data| - 1]);
      (a', Mod(b + a'))
  }

  function Checksum(data: Bytes): (r: int)
    ensures 0 <= r < 0x1_0000_0000
  {
    var (a, b) := Sums(data);
    b * 65536 + a
  }

  // ------------------------------------------------- the sums without the reductions

  ghost function PlainA(data: Bytes): int
  {
    if data == [] then 1 else PlainA(data[..|data| - 1]) + data[|data| - 1]
  }

  ghost function PlainB(data: Bytes): int
  {
    if data == [] then 0 else PlainB(data[..|data| - 1]) + PlainA(data)
  }

  lemma ModOfSum(x: int, y: int)
    ensures Mod(Mod(x) + y) == Mod(x + y)
  {
  }

  lemma SameRemainder(x: int, y: int)
    ensures Mod(x) == Mod(y) <==> Mod(x - y) == 0
  {
  }

  lemma {:induction false} SumsArePlainModulo(data: Bytes)
    ensures Sums(data) == (Mod(PlainA(data)), Mod(PlainB(data)))
  {
    if data != [] {
      var front, last := data[..|data| - 1], data[|data| - 1];
      SumsArePlainModulo(front);
      ModOfSum(PlainA(front), last);
      ModOfSum(PlainB(front), Mod(PlainA(data)));
      ModOfSum(PlainA(data), PlainB(front));
    }
  }

  // ----------------------------------------------------------------------- closed form

  ghost function ByteSum(data: Bytes): int
  {
    if data == [] then 0 else data[0] + ByteSum(data[1..])
  }

  /** Every byte as often as there are bytes from it to the end. */
  ghost function WeightedSum(data: Bytes): int
  {
    if data == [] then 0 else |data| * data[0] + WeightedSum(data[1..])
  }

  lemma {:induction false} OneMoreByte(data: Bytes, x: Byte)
    ensures ByteSum(data + [x]) == ByteSum(data) + x
    ensures WeightedSum(data + [x]) == WeightedSum(data) + ByteSum(data) + x
  {
    if data == [] {
      assert data + [x] == [x];
    } else {
      assert (data + [x])[1..] == data[1..] + [x];
      OneMoreByte(data[1..], x);
      assert (|data| + 1) * data[0] == |data| * data[0] + data[0];
    }
  }

  lemma {:induction false} PlainSums(data: Bytes)
    ensures PlainA(data) == 1 + ByteSum(data) && PlainB(data) == |data| + WeightedSum(data)
  {
    if data != [] {
      var front := data[..|data| - 1];
      PlainSums(front);
      OneMoreByte(front, data[|data| - 1]);
      assert data == front + [data[|data| - 1]];
    }
  }

  /** The low half is one more than the sum of the bytes; the high half is the number of bytes and each byte
      times the number of bytes from it to the end; both modulo 65521. */
  lemma ClosedForm(data: Bytes)
    ensures Checksum(data) % 65536 == (1 + ByteSum(data)) % 65521
    ensures Checksum(data) / 65536 == (|data| + WeightedSum(data)) % 65521
  {
    SumsArePlainModulo(data);
    PlainSums(data);
  }

  // ------------------------------------------------------------- when two checksums are equal

  /** Equal checksums mean congruent sums. */
  lemma SameChecksum(x: Bytes, y: Bytes)
    ensures Checksum(x) == Checksum(y) <==>
            Mod(PlainA(x) - PlainA(y)) == 0 && Mod(PlainB(x) - PlainB(y)) == 0
  {
    SumsArePlainModulo(x);
    SumsArePlainModulo(y);
    SameRemainder(PlainA(x), PlainA(y));
    SameRemainder(PlainB(x), PlainB(y));
  }

  /** Changing one byte moves the first sum by the difference, and the second by the difference
      times the distance from the end. */
  lemma {:induction false} ChangeOneByte(data: Bytes, i: nat, v: Byte)
    requires i < |data|
    ensures PlainA(data[i := v]) == PlainA(data) + (v - data[i])
    ensures PlainB(data[i := v]) == PlainB(data) + (|data| - i) * (v - data[i])
  {
    var n, changed := |data| - 1, data[i := v];
    if i == n {
      assert changed[..n] == data[..n];
    } else {
      assert changed[..n] == data[..n][i := v];
      ChangeOneByte(data[..n], i, v);
    }
  }

  // --------------------------------------------------------- the modulus has no small factor

  ghost predicate NoFactorUpTo(n: nat)
  {
    n < 2 || (65521 % n != 0 && NoFactorUpTo(n - 1))
  }

  /** Computed in steps that the verifier can evaluate. */
  lemma NoByteFactor()
    ensures NoFactorUpTo(255)
  {
    NoFactorUpTo64();
    NoFactorUpTo128();
    NoFactorUpTo192();
    assert NoFactorUpTo(200);
    assert NoFactorUpTo(208);
    assert NoFactorUpTo(216);
    assert NoFactorUpTo(224);
    assert NoFactorUpTo(232);
    assert NoFactorUpTo(240);
    assert NoFactorUpTo(248);
  }

  lemma NoFactorUpTo64()
    ensures NoFactorUpTo(64)
  {
    assert NoFactorUpTo(8);
    assert NoFactorUpTo(16);
    assert NoFactorUpTo(24);
    assert NoFactorUpTo(32);
    assert NoFactorUpTo(40);
    assert NoFactorUpTo(48);
    assert NoFactorUpTo(56);
  }

  lemma NoFactorUpTo128()
    ensures NoFactorUpTo(128)
  {
    NoFactorUpTo64();
    assert NoFactorUpTo(72);
    assert NoFactorUpTo(80);
    assert NoFactorUpTo(88);
    assert NoFactorUpTo(96);
    assert NoFactorUpTo(104);
    assert NoFactorUpTo(112);
    assert NoFactorUpTo(120);
  }

  lemma NoFactorUpTo192()
    ensures NoFactorUpTo(192)
  {
    NoFactorUpTo128();
    assert NoFactorUpTo(136);
    assert NoFactorUpTo(144);
    assert NoFactorUpTo(152);
    assert NoFactorUpTo(160);
    assert NoFactorUpTo(168);
    assert NoFactorUpTo(176);
    assert NoFactorUpTo(184);
  }

  lemma {:induction false} NoFactor(n: nat, k: nat)
    requires NoFactorUpTo(n) && 2 <= k <= n
    ensures 65521 % k != 0
  {
    if k < n {
      NoFactor(n - 1, k);
    }
  }

  /** As for any prime: if k * d is a multiple of the modulus and d is a byte difference, then k is one. */
  lemma {:induction false} CancelSmallFactor(k: int, d: int)
    requires 1 <= d <= 255 && Mod(k * d) == 0
    ensures Mod(k) == 0
    decreases d
  {
    if d > 1 {
      NoByteFactor();
      NoFactor(255, d);
      var q, r, m := 65521 / d, 65521 % d, (k * d) / 65521;
      assert q * d + r == 65521;
      RemainderIsMultiple(k, d, q, r, m);
      CancelSmallFactor(k, r);
    }
  }

  lemma RemainderIsMultiple(k: int, d: int, q: int, r: int, m: int)
    requires q * d + r == 65521 && k * d == m * 65521
    ensures Mod(k * r) == 0
  {
    assert k * (q * d) == q * (k * d);
    assert k * r == k * 65521 - q * (m * 65521) == (k - q * m) * 65521;
  }

  lemma MultipleOfMultiple(k: int, m: int, x: int)
    requires k == m * 65521
    ensures Mod(k * x) == 0
  {
    assert k * x == (m * x) * 65521;
  }

  // -------------------------------------------------------------------- error detection

  /** A single changed byte always changes the checksum. */
  lemma DetectsOneByte(data: Bytes, i: nat, v: Byte)
    requires i < |data| && v != data[i]
    ensures Checksum(data[i := v]) != Checksum(data)
  {
    ChangeOneByte(data, i, v);
    SameChecksum(data[i := v], data);
    SmallRemainder(v - data[i]);
  }

  lemma OppositeSign(k: int, x: int)
    ensures (-k) * (-x) == k * x
  {
  }

  lemma NegatedRemainder(k: int)
    ensures Mod(-k) == 0 <==> Mod(k) == 0
  {
  }

  /** The change of the second sum when two changes cancel in the first. */
  lemma DistanceDecides(k: int, x: int)
    requires -255 <= x <= 255 && x != 0
    ensures Mod(k * x) == 0 <==> Mod(k) == 0
  {
    if Mod(k) == 0 {
      MultipleOfMultiple(k, k / 65521, x);
    } else if x > 0 {
      if Mod(k * x) == 0 {
        CancelSmallFactor(k, x);
      }
    } else {
      OppositeSign(k, x);
      NegatedRemainder(k);
      if Mod((-k) * (-x)) == 0 {
        CancelSmallFactor(-k, -x);
      }
    }
  }

  lemma OppositeChanges(n: int, i: int, j: int, x: int)
    ensures (n - i) * x + (n - j) * (-x) == (j - i) * x
  {
  }

  /** Two changed bytes go unnoticed exactly when their changes cancel and their distance is a
      multiple of 65521; in particular never when they are less than 65521 apart. */
  lemma DetectsTwoBytes(data: Bytes, i: nat, j: nat, u: Byte, v: Byte)
    requires i < j < |data| && u != data[i] && v != data[j]
    ensures Checksum(data[i := u][j := v]) == Checksum(data) <==>
            (u - data[i]) + (v - data[j]) == 0 && (j - i) % 65521 == 0
  {
    var once, x, y := data[i := u], u - data[i], v - data[j];
    TwoChanges(data, i, j, u, v);
    SameChecksum(once[j := v], data);
    SmallRemainder(x + y);
    if x + y == 0 {
      OppositeChanges(|data|, i, j, x);
      DistanceDecides(j - i, x);
    }
  }

  lemma TwoChanges(data: Bytes, i: nat, j: nat, u: Byte, v: Byte)
    requires i < j < |data|
    ensures var changed, x, y := data[i := u][j := v], u - data[i], v - data[j];
            && PlainA(changed) - PlainA(data) == x + y
            && PlainB(changed) - PlainB(data) == (|data| - i) * x + (|data| - j) * y
  {
    ChangeOneByte(data, i, u);
    ChangeOneByte(data[i := u], j, v);
  }

  lemma SmallRemainder(z: int)
    requires -510 <= z <= 510
    ensures Mod(z) == 0 <==> z == 0
  {
  }
}
