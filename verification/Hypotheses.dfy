/** The hypotheses of the other modules can be met. */
module Hypotheses {
  import opened Clonepack
  import opened Seqs
  import opened Archives
  import opened Streams
  import opened FrameMaps

  /** A self-delimiting code: a 1 before each byte and a 0 at the end. */
  function Encode(x: Bytes): Bytes {
    if x == [] then [0] else [1, x[0]] + Encode(x[1..])
  }

  lemma {:induction false} EncodeLength(x: Bytes)
    ensures |Encode(x)| == 2 * |x| + 1
  {
    if x != [] {
      EncodeLength(x[1..]);
    }
  }

  /** No code is the start of another. */
  lemma {:induction false} PrefixFree(x: Bytes, y: Bytes)
    requires Encode(x) <= Encode(y)
    ensures x == y
  {
    EncodeLength(x);
    EncodeLength(y);
    var a, b := Encode(x), Encode(y);
    assert a[0] == b[0];
    if x != [] && y != [] {
      assert a[1] == b[1];
      assert Encode(x[1..]) == a[2..] && Encode(y[1..]) == b[2..];
      PrefixFree(x[1..], y[1..]);
      assert x == [x[0]] + x[1..] && y == [y[0]] + y[1..];
    }
  }

  ghost predicate IsCode(c: Bytes) {
    exists x :: x != [] && c == Encode(x)
  }

  ghost function Decode(c: Bytes): Option<Bytes> {
    if IsCode(c) then var x :| x != [] && c == Encode(x); Some(x) else None
  }

  lemma DecodeEncode(x: Bytes)
    requires x != []
    ensures IsCode(Encode(x)) && Decode(Encode(x)) == Some(x)
  {
    forall y | Encode(y) == Encode(x) ensures y == x {
      PrefixFree(x, y);
    }
  }

  /** A digest that tells strings shorter than 64 bytes apart. */
  function Pad(x: Bytes): Digest {
    if |x| < DIGEST_WIDTH then x + [1] + seq(DIGEST_WIDTH - 1 - |x|, _ => 0) else seq(DIGEST_WIDTH, _ => 0)
  }

  lemma PadDiffers(x: Bytes, y: Bytes)
    requires |x| < |y| < DIGEST_WIDTH
    ensures Pad(x) != Pad(y)
  {
    assert Pad(x)[|y|] == 0;
    assert Pad(y)[|y|] == 1;
  }

  lemma PadSame(x: Bytes, y: Bytes)
    requires |x| == |y| < DIGEST_WIDTH && Pad(x) == Pad(y)
    ensures x == y
  {
    assert Pad(x)[..|x|] == x && Pad(y)[..|y|] == y;
  }

  /** Cut before and after every byte from 100 on. */
  function Cut(x: Bytes): seq<nat> {
    if x == [] then [] else
      var n := |x| - 1;
      var front := Cut(x[..n]);
      if front == [] || x[n] >= 100 || x[n - 1] >= 100 then front + [1]
      else front[..|front| - 1] + [front[|front| - 1] + 1]
  }

  lemma {:induction false} CutSums(x: Bytes)
    ensures Sum(Cut(x)) == |x| && (Cut(x) == [] ==> x == [])
    ensures forall i :: 0 <= i < |Cut(x)| ==> Cut(x)[i] > 0
  {
    if x != [] {
      var n := |x| - 1;
      var front := Cut(x[..n]);
      CutSums(x[..n]);
      if front == [] || x[n] >= 100 || x[n - 1] >= 100 {
        SumSnoc(front, 1);
      } else {
        var k := |front| - 1;
        assert front == front[..k] + [front[k]];
        SumSnoc(front[..k], front[k]);
        SumSnoc(front[..k], front[k] + 1);
      }
    }
  }

  lemma SumSnoc(ns: seq<nat>, n: nat)
    ensures Sum(ns + [n]) == Sum(ns) + n
  {
    SumAppend(ns, [n]);
    assert [n][1..] == [];
  }

  /** An object of one byte has twenty copies of it as its id. */
  function Blob(oid: Oid): Bytes { if |oid| == 20 then oid[..1] else oid }

  function BlobId(x: Bytes): Oid { if |x| == 1 then seq(20, _ => x[0]) else x }

  ghost function Short(): iset<Bytes> { iset x: Bytes | |x| < DIGEST_WIDTH }

  /** An environment in which SHA-256 tells short strings apart and zstd and
      chunking keep their laws. */
  ghost function Sample(): Env {
    Env(Pad, Encode, (c: Bytes, n: nat) => Decode(c), Cut, Blob, BlobId, Short(), (c: Bytes) => IsCode(c))
  }

  lemma ZipLaws()
    ensures forall x :: x != [] ==> Decode(Encode(x)) == Some(x) && IsCode(Encode(x))
    ensures forall x, y :: IsCode(x) && IsCode(y) && x <= y ==> x == y
    ensures !IsCode([])
  {
    forall x | x != [] ensures Decode(Encode(x)) == Some(x) && IsCode(Encode(x)) {
      DecodeEncode(x);
    }
    forall x, y | IsCode(x) && IsCode(y) && x <= y ensures x == y {
      var a :| a != [] && x == Encode(a);
      var b :| b != [] && y == Encode(b);
      PrefixFree(a, b);
    }
    forall a ensures Encode(a) != [] {
      EncodeLength(a);
    }
  }

  lemma HashLaws()
    ensures forall x :: |Pad(x)| == DIGEST_WIDTH
    ensures forall x, y :: x in Short() && y in Short() && Pad(x) == Pad(y) ==> x == y
  {
    forall x, y | x in Short() && y in Short() && Pad(x) == Pad(y) ensures x == y {
      if |x| < |y| {
        PadDiffers(x, y);
      } else if |y| < |x| {
        PadDiffers(y, x);
      } else {
        PadSame(x, y);
      }
    }
  }

  lemma CutLaws()
    ensures forall x :: Sum(Cut(x)) == |x| && forall i :: 0 <= i < |Cut(x)| ==> Cut(x)[i] > 0
  {
    forall x: Bytes ensures Sum(Cut(x)) == |x| && forall i :: 0 <= i < |Cut(x)| ==> Cut(x)[i] > 0 {
      CutSums(x);
    }
  }

  /** The hypotheses hold of it, and the streams of small trees are among those
      told apart. */
  lemma HypothesesHold()
    ensures Lawful(Sample()) && OneDecoding(Sample())
    ensures forall s: Bytes :: |s| < 32 ==> StreamKnown(Sample(), s)
  {
    hide Pad, Encode, Decode, Cut, IsCode, Short, Sum, StreamKnown;
    HashLaws();
    ZipLaws();
    CutLaws();
    forall s: Bytes | |s| < 32 ensures StreamKnown(Sample(), s) {
      SmallStream(s);
    }
  }

  lemma SmallStream(s: Bytes)
    requires |s| < 32
    ensures StreamKnown(Sample(), s)
  {
    hide Encode;
    forall i: nat, j: nat | i <= j <= |s|
      ensures s[i..j] in Sample().known && ZipFrame(Sample(), s[i..j]) in Sample().known
    {
      EncodeLength(s[i..j]);
    }
  }
}
