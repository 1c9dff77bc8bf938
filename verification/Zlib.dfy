/** Stored zlib streams (rust/src/tags.rs, `stored_zlib`). */
module Zlib {
  import opened Clonepack
  import opened Words

  /** Arithmetic that must not pass 32 bits. */
  newtype u32 = x: int | 0 <= x < 0x1_0000_0000

  const BLOCK: nat := 0xffff
  const MODULUS: int := 65521
  const RUN: nat := 5552

  /** Adler-32's two sums, each reduced at every byte: section 8.2 of RFC 1950. */
  function Sums(data: Bytes): (nat, nat) {
    if data == [] then (1, 0) else
      var before := Sums(data[..|data| - 1]);
      var a := (before.0 + data[|data| - 1]) % MODULUS;
      (a, (before.1 + a) % MODULUS)
  }

  lemma {:induction false} SumsSmall(data: Bytes)
    ensures 0 <= Sums(data).0 < MODULUS && 0 <= Sums(data).1 < MODULUS
  {
    if data != [] {
      SumsSmall(data[..|data| - 1]);
    }
  }

  /** The checksum as stored. */
  function Adler(data: Bytes): nat {
    Sums(data).1 * 0x1_0000 + Sums(data).0
  }

  /** The sums so far are right but for reductions. */
  ghost predicate Agree(a: int, b: int, data: Bytes) {
    a % MODULUS == Sums(data).0 && b % MODULUS == Sums(data).1
  }

  lemma AgreeNext(a: int, b: int, data: Bytes, byte: Byte)
    requires a >= 0 && b >= 0 && Agree(a, b, data)
    ensures Agree(a + byte, b + a + byte, data + [byte])
  {
    assert (data + [byte])[..|data|] == data;
    SumsSmall(data);
    var s := Sums(data);
    var sa := (s.0 + byte) % MODULUS;
    ModAdd(a, s.0, byte);
    ModAdd(b, s.1, a + byte);
    ModAdd(a + byte, sa, s.1);
  }

  lemma ModAdd(x: int, y: int, z: int)
    requires x % MODULUS == y % MODULUS
    ensures (x + z) % MODULUS == (y + z) % MODULUS
  {
    var k := x / MODULUS - y / MODULUS;
    assert x - y == k * MODULUS;
    Shift(y + z, k);
  }

  lemma {:induction false} Shift(v: int, k: int)
    ensures (v + k * MODULUS) % MODULUS == v % MODULUS
    decreases if k < 0 then -k else k
  {
    if k > 0 {
      Shift(v, k - 1);
    } else if k < 0 {
      Shift(v, k + 1);
    }
  }

  /** How large the sums can be after `k` bytes without a reduction. */
  function MaxA(k: nat): nat { MODULUS - 1 + 255 * k }

  function MaxB(k: nat): nat {
    if k == 0 then MODULUS - 1 else MaxB(k - 1) + MaxA(k)
  }

  lemma {:induction false} MaxBIs(k: nat)
    ensures 2 * MaxB(k) == 2 * (MODULUS - 1) * (k + 1) + 255 * k * (k + 1)
  {
    if k > 0 {
      MaxBIs(k - 1);
      assert k * (k + 1) == k * (k - 1) + 2 * k;
    }
  }

  lemma {:induction false} MaxBGrows(k: nat, n: nat)
    requires k <= n
    ensures MaxB(k) <= MaxB(n)
    decreases n
  {
    if k < n {
      MaxBGrows(k, n - 1);
    }
  }

  /** A run of bytes cannot overflow. */
  lemma RunFits(k: nat)
    requires k <= RUN
    ensures MaxA(k) < 0x1_0000_0000 && MaxB(k) < 0x1_0000_0000
  {
    MaxBIs(RUN);
    MaxBGrows(k, RUN);
  }

  method AdlerRun(run: Bytes, a0: u32, b0: u32, ghost before: Bytes) returns (a: u32, b: u32)
    requires |run| <= RUN && a0 < 65521 && b0 < 65521 && Agree(a0 as int, b0 as int, before)
    ensures Agree(a as int, b as int, before + run)
  {
    a, b := a0, b0;
    assert before + run[..0] == before;
    for k := 0 to |run|
      invariant Agree(a as int, b as int, before + run[..k])
      invariant a as int <= MaxA(k) && b as int <= MaxB(k)
    {
      RunFits(k + 1);
      AgreeNext(a as int, b as int, before + run[..k], run[k]);
      assert before + run[..k] + [run[k]] == before + run[..k + 1];
      a := a + run[k] as u32;
      b := b + a;
    }
    assert run[..|run|] == run;
  }

  lemma StartAgrees(data: Bytes)
    ensures Agree(1, 0, data[..0])
  {}

  lemma Reduced(a: int, b: int, data: Bytes)
    requires Agree(a, b, data)
    ensures Agree(a % MODULUS, b % MODULUS, data)
  {}

  lemma AgreeExact(a: int, b: int, data: Bytes)
    requires 0 <= a < MODULUS && 0 <= b < MODULUS && Agree(a, b, data)
    ensures Sums(data) == (a, b)
  {}

  /** Adler-32 with one reduction per run: the same as one per byte, in 32 bits. */
  method Adler32(data: Bytes) returns (r: u32)
    ensures r as int == Adler(data)
  {
    hide Agree, Sums;
    var a: u32, b: u32 := 1, 0;
    var pos := 0;
    StartAgrees(data);
    while pos < |data|
      invariant pos <= |data| && a < 65521 && b < 65521
      invariant Agree(a as int, b as int, data[..pos])
    {
      var end := if pos + RUN < |data| then pos + RUN else |data|;
      a, b := AdlerRun(data[pos..end], a, b, data[..pos]);
      assert data[..pos] + data[pos..end] == data[..end];
      Reduced(a as int, b as int, data[..end]);
      a, b := a % 65521, b % 65521;
      pos := end;
    }
    assert data[..|data|] == data;
    AgreeExact(a as int, b as int, data);
    r := b * 0x1_0000 + a;
  }

  function Le16(n: nat): Bytes { [n % 256, n / 256 % 256] }

  /** A stored block: the last-block bit, the length and its complement, the bytes. */
  function Block(last: bool, data: Bytes): Bytes
    requires |data| <= BLOCK
  {
    [if last then 1 else 0] + Le16(|data|) + Le16(BLOCK - |data|) + data
  }

  function Blocks(data: Bytes): Bytes {
    if |data| <= BLOCK then Block(true, data) else Block(false, data[..BLOCK]) + Blocks(data[BLOCK..])
  }

  /** The whole stream. */
  function Stored(data: Bytes): Bytes {
    [0x78, 0x01] + Blocks(data) + ToBe(Adler(data), 4)
  }

  /** The loop over blocks puts out the whole stream of the specification. */
  method StoredZlib(data: Bytes) returns (out: Bytes)
    ensures out == Stored(data)
  {
    hide Adler, Blocks, Block;
    out := [0x78, 0x01];
    if |data| == 0 {
      NoData();
      out := out + [1, 0, 0, 0xff, 0xff];
    }
    var pos := 0;
    assert data[0..] == data;
    while pos < |data|
      invariant pos <= |data|
      invariant pos < |data| ==> out + Blocks(data[pos..]) == [0x78, 0x01] + Blocks(data)
      invariant pos == |data| ==> out == [0x78, 0x01] + Blocks(data)
    {
      var end := if pos + BLOCK < |data| then pos + BLOCK else |data|;
      var block := data[pos..end];
      NextBlock(data, pos);
      BlockIs(end == |data|, block);
      out := out + [if end == |data| then 1 else 0] + Le16(|block|) + Le16(BLOCK - |block|) + block;
      pos := end;
    }
    var sum := Adler32(data);
    out := out + ToBe(sum as int, 4);
  }

  lemma NoData()
    ensures Blocks([]) == [1, 0, 0, 0xff, 0xff]
  {}

  lemma BlockIs(last: bool, data: Bytes)
    requires |data| <= BLOCK
    ensures Block(last, data) == [if last then 1 else 0] + Le16(|data|) + Le16(BLOCK - |data|) + data
  {}

  lemma NextBlock(data: Bytes, pos: nat)
    requires pos < |data|
    ensures var end := if pos + BLOCK < |data| then pos + BLOCK else |data|;
      Blocks(data[pos..]) == Block(end == |data|, data[pos..end]) + if end == |data| then [] else Blocks(data[end..])
  {
    var rest := data[pos..];
    if |rest| > BLOCK {
      assert rest[..BLOCK] == data[pos..pos + BLOCK] && rest[BLOCK..] == data[pos + BLOCK..];
    }
  }

  function Word(low: int, high: int): int { low + 256 * high }

  /** Read stored blocks by section 3.2.4 of RFC 1951: the bytes and what follows. */
  function ReadBlocks(s: Bytes): Option<(Bytes, Bytes)>
    decreases |s|
  {
    if |s| < 5 || s[0] / 2 % 4 != 0 then None else
      var len, complement := Word(s[1], s[2]), Word(s[3], s[4]);
      if len + complement != 0xffff || |s| < 5 + len then None
      else if s[0] % 2 == 1 then Some((s[5..5 + len], s[5 + len..]))
      else
        var rest := ReadBlocks(s[5 + len..]);
        if rest.None? then None else Some((s[5..5 + len] + rest.value.0, rest.value.1))
  }

  /** Read a zlib stream by section 2.2 of RFC 1950: deflate, no dictionary, the
      header check, the blocks, the checksum. */
  function ReadZlib(s: Bytes): Option<(Bytes, Bytes)> {
    if |s| < 2 || s[0] % 16 != 8 || s[0] / 16 > 7 || Word(s[1], s[0]) % 31 != 0 || s[1] / 32 % 2 != 0 then None else
      var body := ReadBlocks(s[2..]);
      if body.None? || |body.value.1| < 4 || FromBe(body.value.1[..4]) != Adler(body.value.0) then None
      else Some((body.value.0, body.value.1[4..]))
  }

  lemma LengthBytes(n: nat)
    requires n <= BLOCK
    ensures Word(Le16(n)[0], Le16(n)[1]) == n
  {}

  lemma BlockParts(last: bool, data: Bytes, rest: Bytes)
    requires |data| <= BLOCK
    ensures var s := Block(last, data) + rest;
      && |s| == 5 + |data| + |rest| && s[0] == (if last then 1 else 0)
      && Word(s[1], s[2]) == |data| && Word(s[3], s[4]) == BLOCK - |data|
      && s[5..5 + |data|] == data && s[5 + |data|..] == rest
  {
    var s := Block(last, data) + rest;
    LengthBytes(|data|);
    LengthBytes(BLOCK - |data|);
    hide Word;
    var head := [if last then 1 else 0] + Le16(|data|) + Le16(BLOCK - |data|);
    assert |head| == 5 && s == head + (data + rest);
    assert s[5..] == data + rest && s[5..5 + |data|] == (data + rest)[..|data|];
    assert s[5 + |data|..] == (data + rest)[|data|..];
  }

  lemma ReadBlock(last: bool, data: Bytes, rest: Bytes)
    requires |data| <= BLOCK
    ensures ReadBlocks(Block(last, data) + rest) ==
      if last then Some((data, rest))
      else
        var more := ReadBlocks(rest);
        if more.None? then None else Some((data + more.value.0, more.value.1))
  {
    hide *;
    BlockParts(last, data, rest);
    ReadOne(Block(last, data) + rest, last, data, rest);
  }

  lemma ReadOne(s: Bytes, last: bool, data: Bytes, rest: Bytes)
    requires |data| <= BLOCK && |s| == 5 + |data| + |rest| && s[0] == (if last then 1 else 0)
    requires Word(s[1], s[2]) == |data| && Word(s[3], s[4]) == BLOCK - |data|
    requires s[5..5 + |data|] == data && s[5 + |data|..] == rest
    ensures ReadBlocks(s) ==
      if last then Some((data, rest))
      else
        var more := ReadBlocks(rest);
        if more.None? then None else Some((data + more.value.0, more.value.1))
  {
    hide Word;
  }

  lemma {:induction false} BlocksRoundTrip(data: Bytes, rest: Bytes)
    ensures ReadBlocks(Blocks(data) + rest) == Some((data, rest))
  {
    hide ReadBlocks, Block;
    if |data| <= BLOCK {
      ReadBlock(true, data, rest);
    } else {
      var tail := Blocks(data[BLOCK..]) + rest;
      ReadBlock(false, data[..BLOCK], tail);
      BlocksRoundTrip(data[BLOCK..], rest);
      assert Block(false, data[..BLOCK]) + Blocks(data[BLOCK..]) + rest == Block(false, data[..BLOCK]) + tail;
      assert data[..BLOCK] + data[BLOCK..] == data;
    }
  }

  lemma AdlerBytes(data: Bytes)
    ensures |ToBe(Adler(data), 4)| == 4 && FromBe(ToBe(Adler(data), 4)) == Adler(data)
  {
    SumsSmall(data);
    Pow4();
    BeRoundTrip(Adler(data), 4);
  }

  /** Any data reads back from its stream, and reading stops at its end. */
  lemma ZlibRoundTrip(data: Bytes, rest: Bytes)
    ensures ReadZlib(Stored(data) + rest) == Some((data, rest))
  {
    hide Blocks, ReadBlocks, Adler, ToBe, FromBe;
    var sum := ToBe(Adler(data), 4);
    AdlerBytes(data);
    BlocksRoundTrip(data, sum + rest);
    var s := Stored(data) + rest;
    assert s[2..] == Blocks(data) + (sum + rest);
    assert s[0] == 0x78 && s[1] == 0x01;
    assert (sum + rest)[..4] == sum && (sum + rest)[4..] == rest;
  }
}
