/** Fixed-width integers as bytes. */
module Words {
  import opened Clonepack

  function Pow(base: nat, n: nat): nat {
    if n == 0 then 1 else base * Pow(base, n - 1)
  }

  /** Big-endian, in `width` bytes. */
  function ToBe(n: nat, width: nat): Bytes {
    if width == 0 then [] else ToBe(n / 256, width - 1) + [n % 256]
  }

  function FromBe(bs: Bytes): nat {
    if bs == [] then 0 else FromBe(bs[..|bs| - 1]) * 256 + bs[|bs| - 1]
  }

  lemma {:induction false} BeRoundTrip(n: nat, width: nat)
    requires n < Pow(256, width)
    ensures |ToBe(n, width)| == width && FromBe(ToBe(n, width)) == n
  {
    if width > 0 {
      Divided(n, Pow(256, width - 1));
      BeRoundTrip(n / 256, width - 1);
    }
  }

  lemma Divided(n: nat, p: nat)
    requires n < 256 * p
    ensures n / 256 < p
  {}

  lemma {:induction false} BeLength(n: nat, width: nat)
    ensures |ToBe(n, width)| == width
  {
    if width > 0 {
      BeLength(n / 256, width - 1);
    }
  }

  lemma Pow4()
    ensures Pow(256, 4) == 0x1_0000_0000 && Pow(256, 8) == 0x1_0000_0000_0000_0000
  {
    assert Pow(256, 0) == 1 && Pow(256, 1) == 256 && Pow(256, 2) == 0x1_0000 && Pow(256, 3) == 0x100_0000;
    assert Pow(256, 4) == 0x1_0000_0000 && Pow(256, 5) == 0x100_0000_0000 && Pow(256, 6) == 0x1_0000_0000_0000;
    assert Pow(256, 7) == 0x100_0000_0000_0000;
  }
}
