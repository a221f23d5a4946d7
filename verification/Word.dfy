/** 32-bit words as numbers, with the bitwise operators the cache applies to addresses. */
module Word {

  const WORD := 0x1_0000_0000

  type word = x: int | 0 <= x < 0x1_0000_0000

  function And(a: nat, b: nat): (c: nat)
    ensures c <= a && c <= b
  {
    if a == 0 || b == 0 then 0 else 2 * And(a / 2, b / 2) + (if a % 2 == 1 && b % 2 == 1 then 1 else 0)
  }

  function Or(a: nat, b: nat): (c: nat)
    ensures a <= c && b <= c <= a + b
    decreases a + b
  {
    if a == 0 then b else if b == 0 then a
    else 2 * Or(a / 2, b / 2) + (if a % 2 == 0 then b % 2 else 1)
  }

  /** `~a` */
  function Not(a: word): word {
    WORD - 1 - a
  }

  /** The word read as a C `int`. */
  function Signed(a: word): int {
    if a < 0x8000_0000 then a else a - WORD
  }

  function Pow2(k: nat): nat {
    if k == 0 then 1 else 2 * Pow2(k - 1)
  }

  lemma {:induction false} OrFits(a: nat, b: nat, k: nat)
    requires a < Pow2(k) && b < Pow2(k)
    ensures Or(a, b) < Pow2(k)
    decreases k
  {
    if a != 0 && b != 0 {
      OrFits(a / 2, b / 2, k - 1);
    }
  }

  lemma {:induction false} AndOr(a: nat, b: nat, h: nat)
    ensures And(Or(a, b), h) == Or(And(a, h), And(b, h))
    decreases h
  {
    if a != 0 && b != 0 && h != 0 {
      AndOr(a / 2, b / 2, h / 2);
      OrHalves(a, b);
      AndHalves(a, h);
      AndHalves(b, h);
      AndHalves(Or(a, b), h);
      OrHalves(And(a, h), And(b, h));
    }
  }

  lemma OrHalves(a: nat, b: nat)
    ensures Or(a, b) / 2 == Or(a / 2, b / 2)
    ensures Or(a, b) % 2 == if a % 2 == 0 then b % 2 else 1
  {
  }

  lemma AndHalves(a: nat, b: nat)
    ensures And(a, b) / 2 == And(a / 2, b / 2)
    ensures And(a, b) % 2 == if a % 2 == 1 && b % 2 == 1 then 1 else 0
  {
  }

  /** A contiguous host part, 2^k - 1, keeps every number it covers. */
  lemma {:induction false} AndContiguous(i: nat, k: nat)
    requires i < Pow2(k)
    ensures And(i, Pow2(k) - 1) == i
  {
    if i != 0 {
      var h, host := Pow2(k - 1), Pow2(k) - 1;
      assert host == 2 * (h - 1) + 1 && i / 2 < h;
      AndContiguous(i / 2, k - 1);
      AndHalves(i, host);
      hide And, Pow2;
    }
  }

  lemma Halved(a: nat, p: nat)
    requires p > 0
    ensures a / (2 * p) == (a / 2) / p
  {
    var q, r := a / (2 * p), a % (2 * p);
    assert a == 2 * p * q + r;
    assert 2 * p * q == 2 * (p * q);
    assert a / 2 == p * q + r / 2;
    Quotient(a / 2, p, q, r / 2);
  }

  lemma Quotient(a: nat, p: nat, q: nat, r: nat)
    requires a == p * q + r && r < p
    ensures a / p == q
  {
    var d := a / p - q;
    assert a == p * (a / p) + a % p;
    assert p * d == p * (a / p) - p * q;
    Apart(p, d);
  }

  lemma Apart(p: int, d: int)
    requires p > 0
    ensures d > 0 ==> p * d >= p
    ensures d < 0 ==> p * d <= -p
  {
  }

  /** Bit `k` of a number. */
  predicate Bit(a: nat, k: nat) {
    if k == 0 then a % 2 == 1 else Bit(a / 2, k - 1)
  }

  lemma {:induction false} Pow2Positive(k: nat)
    ensures Pow2(k) > 0
  {
    if k != 0 {
      Pow2Positive(k - 1);
    }
  }

  lemma {:induction false} BitIs(a: nat, k: nat)
    ensures Pow2(k) > 0
    ensures Bit(a, k) <==> (a / Pow2(k)) % 2 == 1
  {
    Pow2Positive(k);
    if k != 0 {
      Pow2Positive(k - 1);
      BitIs(a / 2, k - 1);
      Halved(a, Pow2(k - 1));
    }
  }

  lemma TwoZero(a: nat)
    ensures Or(a, 0) == a && And(a, 0) == 0
  {
  }

  lemma {:induction false} OrBit(a: nat, k: nat)
    ensures Or(a, Pow2(k)) == if Bit(a, k) then a else a + Pow2(k)
  {
    OrHalves(a, Pow2(k));
    if k == 0 {
      TwoZero(a / 2);
      hide Or;
    } else {
      OrBit(a / 2, k - 1);
      hide Or;
    }
  }

  lemma {:induction false} AndBit(a: nat, k: nat)
    ensures And(a, Pow2(k)) == if Bit(a, k) then Pow2(k) else 0
  {
    AndHalves(a, Pow2(k));
    if k == 0 {
      TwoZero(a / 2);
      hide And;
    } else {
      AndBit(a / 2, k - 1);
      hide And;
    }
  }

  lemma SomePowers()
    ensures Pow2(7) == 0x80 && Pow2(8) == 0x100 && Pow2(15) == 0x8000
  {
    assert Pow2(4) == 16;
    assert Pow2(8) == 256;
    assert Pow2(12) == 4096;
  }

  /** Index `i`, sent out as an address of `net`, comes back. */
  predicate ComesBack(net: nat, host: nat, i: nat) {
    And(Or(net, i), host) == i
  }

  predicate InHost(host: nat, i: nat) {
    And(i, host) == i
  }

  lemma OneComesBack(net: nat, host: nat, i: nat)
    ensures And(net, host) == 0 ==> (ComesBack(net, host, i) <==> InHost(host, i))
  {
    AndOr(net, i, host);
  }

  /** Exactly when every index below `max` survives the trip through an address. */
  lemma AddressesComeBack(net: nat, host: nat, max: nat)
    requires 1 <= max
    ensures (forall i :: 0 <= i < max ==> ComesBack(net, host, i))
      <==> And(net, host) == 0 && (forall i :: 0 <= i < max ==> InHost(host, i))
  {
    assert ComesBack(net, host, 0) <==> And(net, host) == 0;
    forall i | 0 <= i < max ensures And(net, host) == 0 ==> (ComesBack(net, host, i) <==> InHost(host, i)) {
      OneComesBack(net, host, i);
    }
  }
}
