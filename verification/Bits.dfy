/** Words as bitmaps: population count, masks, and the rank of a bit. A word is
    a natural number below 2^32; masking with `(1 << b) - 1` keeps its low bits. */
module Bits {

  const WORD := 0x1_0000_0000

  predicate Bit(w: nat, i: nat) {
    if i == 0 then w % 2 == 1 else Bit(w / 2, i - 1)
  }

  /** `w & ((1 << b) - 1)`. */
  function Low(w: nat, b: nat): nat {
    if b == 0 then 0 else w % 2 + 2 * Low(w / 2, b - 1)
  }

  /** The population count of a word. */
  function Pc(w: nat): nat {
    if w == 0 then 0 else w % 2 + Pc(w / 2)
  }

  /** How many of the first `b` bits are set, counted one by one. */
  function CountBits(w: nat, b: nat): nat {
    if b == 0 then 0 else CountBits(w, b - 1) + (if Bit(w, b - 1) then 1 else 0)
  }

  lemma {:induction false} CountShift(w: nat, b: nat)
    ensures CountBits(w, b + 1) == w % 2 + CountBits(w / 2, b)
  {
    if b == 0 {
      assert CountBits(w, 0) == 0;
    } else {
      CountShift(w, b - 1);
    }
  }

  /** Masking and counting is counting below the mask. */
  lemma {:induction false} PcLow(w: nat, b: nat)
    ensures Pc(Low(w, b)) == CountBits(w, b)
  {
    if b > 0 {
      PcLow(w / 2, b - 1);
      CountShift(w, b - 1);
      var l := Low(w, b);
      assert l % 2 == w % 2 && l / 2 == Low(w / 2, b - 1);
    }
  }

  /** The population count of a word counts all of its bits. */
  lemma {:induction false} PcAll(w: nat, b: nat)
    requires w < Power(b)
    ensures Pc(w) == CountBits(w, b)
  {
    if b > 0 {
      PcAll(w / 2, b - 1);
      CountShift(w, b - 1);
    }
  }

  function Power(b: nat): nat {
    if b == 0 then 1 else 2 * Power(b - 1)
  }

  lemma PowerWord()
    ensures Power(32) == WORD
  {
    assert Power(8) == 0x100;
    assert Power(16) == 0x10000;
    assert Power(24) == 0x1000000;
  }

  lemma {:induction false} CountMono(w: nat, a: nat, b: nat)
    requires a <= b
    ensures CountBits(w, a) <= CountBits(w, b) <= CountBits(w, a) + (b - a)
    ensures a < b && Bit(w, a) ==> CountBits(w, a) < CountBits(w, b)
    decreases b - a
  {
    if a < b {
      CountMono(w, a + 1, b);
    }
  }

  /** `w | (1 << i)`. */
  function SetBit(w: nat, i: nat): nat {
    if i == 0 then w - w % 2 + 1 else w % 2 + 2 * SetBit(w / 2, i - 1)
  }

  lemma {:induction false} SetBitAt(w: nat, i: nat, j: nat)
    ensures Bit(SetBit(w, i), j) <==> j == i || Bit(w, j)
  {
    if i > 0 && j > 0 {
      SetBitAt(w / 2, i - 1, j - 1);
    }
  }

  lemma {:induction false} SetBitSmall(w: nat, i: nat, n: nat)
    requires i < n && w < Power(n)
    ensures SetBit(w, i) < Power(n)
  {
    var p := Power(n - 1);
    assert w < 2 * p;
    if i > 0 {
      assert w / 2 < p;
      SetBitSmall(w / 2, i - 1, n - 1);
    }
  }

  lemma {:induction false} ZeroBit(i: nat)
    ensures !Bit(0, i)
  {
    if i > 0 {
      ZeroBit(i - 1);
    }
  }

  /** `w & ~(1 << i)`. */
  function ClearBit(w: nat, i: nat): nat {
    if i == 0 then w - w % 2 else w % 2 + 2 * ClearBit(w / 2, i - 1)
  }

  lemma {:induction false} ClearBitAt(w: nat, i: nat, j: nat)
    ensures Bit(ClearBit(w, i), j) <==> j != i && Bit(w, j)
    ensures ClearBit(w, i) <= w
  {
    if i > 0 {
      ClearBitAt(w / 2, i - 1, if j > 0 then j - 1 else 0);
    }
  }

  /** Counts of words that differ in one bit. */
  lemma {:induction false} CountDiffer(w: nat, v: nat, i: nat, b: nat)
    requires !Bit(w, i) && Bit(v, i) && forall j: nat :: j != i ==> (Bit(w, j) <==> Bit(v, j))
    ensures CountBits(v, b) == CountBits(w, b) + (if i < b then 1 else 0)
  {
    if b > 0 {
      CountDiffer(w, v, i, b - 1);
    }
  }

  /** A bitmap of 32-bit words. */
  predicate IsMap(m: seq<nat>) {
    forall k :: 0 <= k < |m| ==> m[k] < WORD
  }

  predicate BitAt(m: seq<nat>, i: nat)
    requires i < 32 * |m|
  {
    Bit(m[i / 32], i % 32)
  }

  /** Plain rank: how many bits below `i` are set. */
  function Rank(m: seq<nat>, i: nat): nat
    requires i <= 32 * |m|
  {
    if i == 0 then 0 else Rank(m, i - 1) + (if BitAt(m, i - 1) then 1 else 0)
  }

  lemma {:induction false} RankMono(m: seq<nat>, i: nat, j: nat)
    requires i <= j <= 32 * |m|
    ensures Rank(m, i) <= Rank(m, j) <= Rank(m, i) + (j - i)
    ensures i < j && BitAt(m, i) ==> Rank(m, i) < Rank(m, j)
    decreases j - i
  {
    if i < j {
      RankMono(m, i + 1, j);
    }
  }

  lemma {:induction false} RankBlock(m: seq<nat>, k: nat, b: nat)
    requires k < |m| && b <= 32
    ensures Rank(m, 32 * k + b) == Rank(m, 32 * k) + CountBits(m[k], b)
  {
    if b > 0 {
      RankBlock(m, k, b - 1);
      assert (32 * k + b - 1) / 32 == k && (32 * k + b - 1) % 32 == b - 1;
    }
  }

  lemma WordRank(m: seq<nat>, i: nat)
    requires IsMap(m) && i < |m|
    ensures Rank(m, 32 * (i + 1)) == Rank(m, 32 * i) + Pc(m[i])
  {
    PowerWord();
    PcAll(m[i], 32);
    RankBlock(m, i, 32);
    assert 32 * i + 32 == 32 * (i + 1);
  }

  /** Running totals of the words' population counts. */
  method PrefixSums(m: seq<nat>) returns (sums: seq<nat>)
    requires IsMap(m)
    ensures |sums| == |m| && forall k :: 0 <= k < |m| ==> sums[k] == Rank(m, 32 * k)
  {
    hide Pc;
    sums := [];
    var sum, i := 0, 0;
    while i < |m|
      invariant i <= |m| && |sums| == i && sum == Rank(m, 32 * i)
      invariant forall k :: 0 <= k < i ==> sums[k] == Rank(m, 32 * k)
    {
      sums := sums + [sum];
      WordRank(m, i);
      sum := sum + Pc(m[i]);
      i := i + 1;
    }
  }

  /** The rank as it is looked up: a running total and one masked word. */
  function FastRank(m: seq<nat>, sums: seq<nat>, i: nat): nat
    requires i < 32 * |m| && |sums| == |m|
  {
    sums[i / 32] + Pc(Low(m[i / 32], i % 32))
  }

  lemma FastRankIsRank(m: seq<nat>, sums: seq<nat>, i: nat)
    requires i < 32 * |m| && |sums| == |m|
    requires forall k :: 0 <= k < |m| ==> sums[k] == Rank(m, 32 * k)
    ensures FastRank(m, sums, i) == Rank(m, i)
  {
    hide *;
    var k, b := i / 32, i % 32;
    Split(i);
    FastRankAt(m, sums, k, b);
    PcLow(m[k], b);
    RankBlock(m, k, b);
  }

  lemma Split(i: nat)
    ensures i == 32 * (i / 32) + i % 32 && i % 32 < 32
  {
  }

  lemma FastRankAt(m: seq<nat>, sums: seq<nat>, k: nat, b: nat)
    requires k < |m| == |sums| && b < 32
    ensures FastRank(m, sums, 32 * k + b) == sums[k] + Pc(Low(m[k], b))
  {
    assert (32 * k + b) / 32 == k && (32 * k + b) % 32 == b;
  }
}
