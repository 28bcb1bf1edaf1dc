/** Byte strings, little-endian integers, and "these bytes stand at this offset". */
module Bytes {
  /** A string of bytes: every element is in 0..255. */
  predicate Octets(s: seq<int>) {
    forall i :: 0 <= i < |s| ==> 0 <= s[i] < 256
  }

  function Pow256(k: nat): nat {
    if k == 0 then 1 else 256 * Pow256(k - 1)
  }

  /** The `k` low-order bytes of `n`, least significant first. */
  function Le(n: nat, k: nat): (s: seq<int>)
    ensures |s| == k
    decreases k
  {
    if k == 0 then [] else [n % 256] + Le(n / 256, k - 1)
  }

  function FromLe(s: seq<int>): int {
    if s == [] then 0 else s[0] + 256 * FromLe(s[1..])
  }

  lemma {:induction false} LeOctets(n: nat, k: nat)
    ensures Octets(Le(n, k))
    decreases k
  {
    if k > 0 {
      LeOctets(n / 256, k - 1);
    }
  }

  lemma {:induction false} FromLeBelow(s: seq<int>)
    requires Octets(s)
    ensures 0 <= FromLe(s) < Pow256(|s|)
  {
    if s != [] {
      FromLeBelow(s[1..]);
    }
  }

  lemma {:induction false} LeRoundTrip(n: nat, k: nat)
    requires n < Pow256(k)
    ensures FromLe(Le(n, k)) == n
    decreases k
  {
    if k > 0 {
      LeRoundTrip(n / 256, k - 1);
      assert Le(n, k)[1..] == Le(n / 256, k - 1);
    }
  }

  lemma {:induction false} FromLeRoundTrip(s: seq<int>)
    requires Octets(s)
    ensures FromLe(s) >= 0 && Le(FromLe(s), |s|) == s
  {
    if s != [] {
      FromLeRoundTrip(s[1..]);
      assert FromLe(s) % 256 == s[0] && FromLe(s) / 256 == FromLe(s[1..]);
    }
  }

  lemma Widths()
    ensures Pow256(4) == 0x1_0000_0000
    ensures Pow256(8) == 0x1_0000_0000_0000_0000
  {
    assert Pow256(1) == 256 && Pow256(2) == 65536 && Pow256(3) == 0x100_0000;
    assert Pow256(5) == 0x100_0000_0000 && Pow256(6) == 0x1_0000_0000_0000 && Pow256(7) == 0x100_0000_0000_0000;
  }

  predicate IsU32(n: int) { 0 <= n < 0x1_0000_0000 }
  predicate IsI32(n: int) { -0x8000_0000 <= n < 0x8000_0000 }
  predicate IsU64(n: int) { 0 <= n < 0x1_0000_0000_0000_0000 }

  function U32(n: int): (s: seq<int>)
    requires IsU32(n)
    ensures |s| == 4
  {
    Le(n, 4)
  }

  /** Two's complement. */
  function I32(n: int): (s: seq<int>)
    requires IsI32(n)
    ensures |s| == 4
  {
    Le(if n < 0 then n + 0x1_0000_0000 else n, 4)
  }

  function U64(n: int): (s: seq<int>)
    requires IsU64(n)
    ensures |s| == 8
  {
    Le(n, 8)
  }

  function AsU32(s: seq<int>): int {
    FromLe(s)
  }

  function AsI32(s: seq<int>): int {
    if FromLe(s) < 0x8000_0000 then FromLe(s) else FromLe(s) - 0x1_0000_0000
  }

  function AsU64(s: seq<int>): int {
    FromLe(s)
  }

  lemma U32Exact(s: seq<int>, n: int)
    requires |s| == 4 && Octets(s)
    ensures AsU32(s) == n <==> IsU32(n) && s == U32(n)
  {
    Widths(); FromLeBelow(s); FromLeRoundTrip(s);
    if IsU32(n) { LeRoundTrip(n, 4); }
  }

  lemma I32Exact(s: seq<int>, n: int)
    requires |s| == 4 && Octets(s)
    ensures AsI32(s) == n <==> IsI32(n) && s == I32(n)
  {
    Widths(); FromLeBelow(s); FromLeRoundTrip(s);
    if IsI32(n) { LeRoundTrip(if n < 0 then n + 0x1_0000_0000 else n, 4); }
  }

  lemma U64Exact(s: seq<int>, n: int)
    requires |s| == 8 && Octets(s)
    ensures AsU64(s) == n <==> IsU64(n) && s == U64(n)
  {
    Widths(); FromLeBelow(s); FromLeRoundTrip(s);
    if IsU64(n) { LeRoundTrip(n, 8); }
  }

  /*------------------------------------------------------------------ bytes at an offset */

  predicate Stands(data: seq<int>, at: int, part: seq<int>) {
    0 <= at && at + |part| <= |data| && forall i :: 0 <= i < |part| ==> part[i] == data[at + i]
  }

  lemma StandsSplit(data: seq<int>, at: int, a: seq<int>, b: seq<int>)
    ensures Stands(data, at, a + b) <==> Stands(data, at, a) && Stands(data, at + |a|, b)
  {
    var ab := a + b;
    if Stands(data, at, ab) {
      assert forall i :: 0 <= i < |a| ==> a[i] == ab[i];
      assert forall i :: 0 <= i < |b| ==> b[i] == ab[|a| + i];
    }
  }

  lemma StandsIsSlice(data: seq<int>, at: int, part: seq<int>)
    ensures Stands(data, at, part) <==> 0 <= at && at + |part| <= |data| && data[at..at + |part|] == part
  {
    if 0 <= at && at + |part| <= |data| {
      var s := data[at..at + |part|];
      assert forall i :: 0 <= i < |part| ==> s[i] == data[at + i];
    }
  }

  lemma StandsBound(data: seq<int>, at: int, part: seq<int>)
    requires Stands(data, at, part)
    ensures 0 <= at && at + |part| <= |data|
  {
  }
}
