/** The header of a git pack entry: a type and a size in base 128 (written by
    rust/src/tags.rs, `pack`; read by rust/src/extract.rs, `parse_pack_obj_header`). */
module PackHeaders {
  import opened Clonepack
  import opened Seqs
  import opened Words

  type Kind = k: nat | k < 8

  /** Little-endian base 128, a high bit on all bytes but the last. */
  function Varint(n: nat): Bytes {
    if n < 128 then [n] else [128 + n % 128] + Varint(n / 128)
  }

  /** The type and four bits of the size, then the rest of the size. */
  function Header(kind: Kind, size: nat): Bytes {
    if size < 16 then [16 * kind + size] else [128 + 16 * kind + size % 16] + Varint(size / 16)
  }

  /** What is still to write with `byte` pending. */
  ghost function Unwritten(byte: nat, size: nat): Bytes
    requires byte < 128
  {
    if size == 0 then [byte] else [128 + byte] + Varint(size)
  }

  lemma UnwrittenNext(byte: nat, size: nat)
    requires byte < 128 && size > 0
    ensures Unwritten(byte, size) == [128 + byte] + Unwritten(size % 128, size / 128)
  {}

  lemma UnwrittenLast(byte: nat)
    requires byte < 128
    ensures Unwritten(byte, 0) == [byte]
  {}

  lemma UnwrittenAll(kind: Kind, size: nat)
    ensures 16 * kind + size % 16 < 128
    ensures Unwritten(16 * kind + size % 16, size / 16) == Header(kind, size)
  {}

  method WriteHeader(kind: Kind, size0: nat) returns (out: Bytes)
    ensures out == Header(kind, size0)
  {
    hide Unwritten, Header;
    out := [];
    UnwrittenAll(kind, size0);
    var byte: nat, size: nat := 16 * kind + size0 % 16, size0 / 16;
    while size > 0
      invariant byte < 128
      invariant out + Unwritten(byte, size) == Header(kind, size0)
    {
      UnwrittenNext(byte, size);
      out := out + [byte + 128];
      byte, size := size % 128, size / 128;
    }
    UnwrittenLast(byte);
    out := out + [byte];
  }

  /** The value of base-128 digits. */
  function Digits(bs: Bytes): nat {
    if bs == [] then 0 else bs[0] % 128 + 128 * Digits(bs[1..])
  }

  /** The size the bytes of a header stand for, however large. */
  function Value(bs: Bytes): nat
    requires bs != []
  {
    bs[0] % 16 + 16 * Digits(bs[1..])
  }

  /** The first `n` bytes are one header. */
  predicate IsHeader(buf: Bytes, n: nat) {
    && 0 < n <= |buf| && buf[n - 1] < 128
    && forall i :: 0 <= i < n - 1 ==> buf[i] >= 128
  }

  /** The header's size fits 64 bits, in no more bytes than that takes. */
  predicate GoodHeader(buf: Bytes, n: nat) {
    IsHeader(buf, n) && n <= 10 && Value(buf[..n]) <= U64_MAX
  }

  lemma {:induction false} DigitsSnoc(bs: Bytes, x: Byte)
    ensures Digits(bs + [x]) == Digits(bs) + Pow(128, |bs|) * (x % 128)
    ensures Digits(bs) < Pow(128, |bs|)
  {
    if bs != [] {
      DigitsSnoc(bs[1..], x);
      assert (bs + [x])[1..] == bs[1..] + [x];
      Distribute(Pow(128, |bs| - 1), x % 128);
    } else {
      assert (bs + [x])[1..] == [];
    }
  }

  lemma Distribute(p: nat, d: nat)
    ensures 128 * (p * d) == (128 * p) * d
  {}

  lemma {:induction false} ShiftIs(k: nat)
    ensures Pow(2, 4 + 7 * k) == 16 * Pow(128, k)
  {
    if k == 0 {
      assert Pow(2, 4) == 2 * Pow(2, 3) == 4 * Pow(2, 2) == 8 * Pow(2, 1) == 16 * Pow(2, 0);
    } else {
      ShiftIs(k - 1);
      var n := 4 + 7 * (k - 1);
      assert Pow(2, n + 7) == 2 * Pow(2, n + 6) == 4 * Pow(2, n + 5) == 8 * Pow(2, n + 4) == 16 * Pow(2, n + 3);
      assert Pow(2, n + 3) == 2 * Pow(2, n + 2) == 4 * Pow(2, n + 1) == 8 * Pow(2, n);
    }
  }

  /** One more digit. */
  lemma ValueNext(buf: Bytes, i: nat)
    requires 0 < i < |buf|
    ensures Value(buf[..i + 1]) == Value(buf[..i]) + buf[i] % 128 * Pow(2, 4 + 7 * (i - 1))
    ensures Value(buf[..i]) < Pow(2, 4 + 7 * (i - 1))
  {
    DigitsSnoc(buf[1..i], buf[i]);
    assert buf[..i + 1][1..] == buf[1..i] + [buf[i]] && buf[..i][1..] == buf[1..i];
    ShiftIs(i - 1);
    Times(Pow(128, i - 1), buf[i] % 128);
  }

  lemma Times(p: nat, d: nat)
    ensures 16 * (p * d) == d * (16 * p)
  {}

  lemma ValueStep(buf: Bytes, i: nat)
    requires 0 < i < |buf|
    ensures Value(buf[..i]) <= Value(buf[..i + 1])
  {
    hide Value, Pow;
    ValueNext(buf, i);
    Product(buf[i] % 128, Pow(2, 4 + 7 * (i - 1)));
  }

  lemma Product(a: nat, b: nat)
    ensures a * b >= 0
  {
    MulOrder(0, a, b);
  }

  lemma {:induction false} ValueGrows(buf: Bytes, i: nat, n: nat)
    requires 0 < i <= n <= |buf|
    ensures Value(buf[..i]) <= Value(buf[..n])
    decreases n
  {
    hide Value;
    if i < n {
      ValueGrows(buf, i, n - 1);
      ValueStep(buf, n - 1);
    }
  }

  /** The powers the reader's shifts reach. */
  lemma Powers(k: nat)
    requires k <= 8
    ensures k < 8 ==> Pow(2, 4 + 7 * k) * 128 <= 0x1000_0000_0000_0000
    ensures k == 8 ==> Pow(2, 4 + 7 * k) == 0x1000_0000_0000_0000 && Pow(2, 64 - (4 + 7 * k)) == 16
  {
    ShiftIs(k);
    assert Pow(128, 1) == 128 * Pow(128, 0) && Pow(128, 2) == 128 * Pow(128, 1) && Pow(128, 3) == 128 * Pow(128, 2);
    assert Pow(128, 4) == 128 * Pow(128, 3) && Pow(128, 5) == 128 * Pow(128, 4) && Pow(128, 6) == 128 * Pow(128, 5);
    assert Pow(128, 7) == 128 * Pow(128, 6) && Pow(128, 8) == 128 * Pow(128, 7);
    assert Pow(2, 4) == 2 * Pow(2, 3) == 4 * Pow(2, 2) == 8 * Pow(2, 1) == 16 * Pow(2, 0);
  }

  /** Whether the next digit fits: what the reader's test decides. */
  lemma DigitFits(buf: Bytes, i: nat)
    requires 0 < i < |buf| && i <= 9
    ensures var shift, part := 4 + 7 * (i - 1), buf[i] % 128;
      (64 - shift < 7 && part >= Pow(2, 64 - shift)) <==> Value(buf[..i + 1]) > U64_MAX
  {
    ValueNext(buf, i);
    Powers(i - 1);
    var p, part := Pow(2, 4 + 7 * (i - 1)), buf[i] % 128;
    Bounded(p, part);
  }

  lemma Bounded(p: nat, d: nat)
    ensures d <= 127 ==> d * p <= 127 * p
    ensures d >= 16 ==> d * p >= 16 * p
    ensures d <= 15 ==> d * p <= 15 * p
  {
    if d <= 127 { MulOrder(d, 127, p); }
    if d >= 16 { MulOrder(16, d, p); } else { MulOrder(d, 15, p); }
  }

  /** Parse a header. It succeeds exactly on one whose size fits 64 bits, and
      then gives its type, its exact size and its length. */
  method ParseHeader(buf: Bytes) returns (r: Result<(Kind, nat, nat)>)
    ensures r.Ok? ==> GoodHeader(buf, r.value.2) && r.value.0 == buf[0] / 16 % 8 && r.value.1 == Value(buf[..r.value.2])
    ensures r.Err? ==> forall n :: !GoodHeader(buf, n)
  {
    hide Digits, Pow, Value;
    if |buf| == 0 {
      return Err(PastFrame);
    }
    var i: nat := 1;
    var kind: Kind := buf[0] / 16 % 8;
    var size: nat := buf[0] % 16;
    var shift: nat := 4;
    var more: bool := buf[0] >= 128;
    FirstValue(buf);
    while more
      invariant 0 < i <= |buf| && shift == 4 + 7 * (i - 1) && i <= 10
      invariant size == Value(buf[..i]) && size <= U64_MAX
      invariant forall j :: 0 <= j < i - 1 ==> buf[j] >= 128
      invariant more <==> buf[i - 1] >= 128
      decreases |buf| - i
    {
      if shift >= 64 {
        return Err(Limit);
      }
      if i >= |buf| {
        return Err(PastFrame);
      }
      var b := buf[i];
      var part := b % 128;
      var remaining := 64 - shift;
      DigitFits(buf, i);
      if remaining < 7 && part >= Pow(2, remaining) {
        TooLarge(buf, i + 1);
        return Err(Limit);
      }
      ValueNext(buf, i);
      i := i + 1;
      size := size + part * Pow(2, shift);
      shift := shift + 7;
      more := b >= 128;
    }
    return Ok((kind, size, i));
  }

  lemma FirstValue(buf: Bytes)
    requires buf != []
    ensures Value(buf[..1]) == buf[0] % 16
  {
    assert buf[..1][1..] == [];
  }

  lemma TooLarge(buf: Bytes, i: nat)
    requires 0 < i <= |buf| && Value(buf[..i]) > U64_MAX && forall j :: 0 <= j < i - 1 ==> buf[j] >= 128
    ensures forall n :: !GoodHeader(buf, n)
  {
    forall n: nat | IsHeader(buf, n) ensures Value(buf[..n]) > U64_MAX {
      ValueGrows(buf, i, n);
    }
  }

  lemma {:induction false} VarintIs(n: nat)
    ensures var v := Varint(n);
      && v != [] && Digits(v) == n && v[|v| - 1] < 128
      && (forall i :: 0 <= i < |v| - 1 ==> v[i] >= 128)
      && (forall k: nat :: n < Pow(128, k) ==> |v| <= k || (|v| == 1 && k == 0))
  {
    if n < 128 {
      assert Varint(n)[1..] == [];
    } else {
      VarintIs(n / 128);
      var v, w := Varint(n), Varint(n / 128);
      assert v[1..] == w;
      forall k: nat | n < Pow(128, k) ensures |v| <= k || (|v| == 1 && k == 0) {
        if k > 1 {
          assert n / 128 < Pow(128, k - 1) by { assert Pow(128, k) == 128 * Pow(128, k - 1); }
        }
      }
    }
  }

  /** A size of 64 bits takes at most nine bytes after the first. */
  lemma VarintFits(n: nat)
    requires n <= U64_MAX / 16
    ensures |Varint(n)| <= 9
  {
    hide Varint, Digits;
    VarintIs(n);
    Powers(8);
    ShiftIs(8);
    assert Pow(128, 9) == 128 * Pow(128, 8);
    hide Pow;
  }

  lemma HeaderIs(kind: Kind, size: nat)
    requires size <= U64_MAX
    ensures var h := Header(kind, size);
      IsHeader(h, |h|) && |h| <= 10 && h[0] / 16 % 8 == kind && Value(h) == size
  {
    var h := Header(kind, size);
    if size < 16 {
      FirstValue(h);
      assert h[..1] == h;
    } else {
      hide Varint, Pow, Digits;
      var v := Varint(size / 16);
      VarintIs(size / 16);
      VarintFits(size / 16);
      assert h[1..] == v;
      assert forall i :: 0 < i < |h| ==> h[i] == v[i - 1];
    }
  }

  /** A written header of any 64-bit size is read back, whatever follows. */
  lemma HeaderReads(kind: Kind, size: nat, rest: Bytes)
    requires size <= U64_MAX
    ensures var h := Header(kind, size);
      GoodHeader(h + rest, |h|) && (h + rest)[0] / 16 % 8 == kind && Value((h + rest)[..|h|]) == size
  {
    hide Header, Value;
    HeaderIs(kind, size);
    var h := Header(kind, size);
    assert (h + rest)[..|h|] == h;
  }
}
