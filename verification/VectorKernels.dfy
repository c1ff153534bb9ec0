/** Sums and inner products computed lane by lane. */
module VectorKernels {

  // ---------------------------------------------------------------- 64-bit integers

  const MODULUS := 0x1_0000_0000_0000_0000
  const HALF := 0x8000_0000_0000_0000

  /** A 64-bit signed integer after wrap-around. */
  function Wrap(x: int): int {
    (x + HALF) % MODULUS - HALF
  }

  function Sum(s: seq<int>): int {
    if s == [] then 0 else Sum(s[..|s| - 1]) + s[|s| - 1]
  }

  /** Numbers that differ by a multiple of 2^64. */
  ghost predicate Same(x: int, y: int) {
    exists k: int :: x - y == k * MODULUS
  }

  lemma SameByMultiple(x: int, y: int, k: int)
    requires x - y == k * MODULUS
    ensures Same(x, y)
  {
  }

  lemma SameWrap(x: int, y: int)
    ensures Same(x, y) <==> Wrap(x) == Wrap(y)
  {
    if Same(x, y) {
      var k: int :| x - y == k * MODULUS;
      AddMultiple(y + HALF, k);
      assert y + HALF + k * MODULUS == x + HALF;
    }
    if Wrap(x) == Wrap(y) {
      SameByMultiple(x, y, (x + HALF) / MODULUS - (y + HALF) / MODULUS);
    }
  }

  lemma AddMultiple(x: int, k: int)
    ensures (x + k * MODULUS) % MODULUS == x % MODULUS
  {
  }

  lemma SameAdd(a: int, b: int, c: int, d: int)
    requires Same(a, b) && Same(c, d)
    ensures Same(a + c, b + d)
  {
    var j: int :| a - b == j * MODULUS;
    var k: int :| c - d == k * MODULUS;
    SameByMultiple(a + c, b + d, j + k);
  }

  lemma WrapIsSame(x: int)
    ensures Same(Wrap(x), x)
  {
    SameByMultiple(Wrap(x), x, -((x + HALF) / MODULUS));
  }

  lemma SumAppend(s: seq<int>, t: seq<int>)
    ensures Sum(s + t) == Sum(s) + Sum(t)
  {
    if t == [] {
      assert s + t == s;
    } else {
      assert (s + t)[..|s + t| - 1] == s + t[..|t| - 1];
      SumAppend(s, t[..|t| - 1]);
    }
  }

  /** Lane-wise addition of two batches. */
  function AddLanes(a: seq<int>, b: seq<int>): (c: seq<int>)
    requires |a| == |b|
    ensures |c| == |a|
  {
    seq(|a|, i requires 0 <= i < |a| => Wrap(a[i] + b[i]))
  }

  lemma {:induction false} SumOfLanes(a: seq<int>, b: seq<int>)
    requires |a| == |b|
    ensures Same(Sum(AddLanes(a, b)), Sum(a) + Sum(b))
    decreases |a|
  {
    if a == [] {
      SameByMultiple(0, 0, 0);
    } else {
      var n := |a| - 1;
      assert AddLanes(a, b)[..n] == AddLanes(a[..n], b[..n]);
      SumOfLanes(a[..n], b[..n]);
      WrapIsSame(a[n] + b[n]);
      SameAdd(Sum(AddLanes(a[..n], b[..n])), Sum(a[..n]) + Sum(b[..n]), Wrap(a[n] + b[n]), a[n] + b[n]);
    }
  }

  lemma SameTrans(a: int, b: int, c: int)
    requires Same(a, b) && Same(b, c)
    ensures Same(a, c)
  {
    var j: int :| a - b == j * MODULUS;
    var k: int :| b - c == k * MODULUS;
    SameByMultiple(a, c, j + k);
  }

  lemma {:induction false} SumOfZeros(s: seq<int>)
    requires forall i | 0 <= i < |s| :: s[i] == 0
    ensures Sum(s) == 0
    decreases |s|
  {
    if s != [] { SumOfZeros(s[..|s| - 1]); }
  }

  /** One more pair of batches is accumulated. */
  lemma PairAdded(vec: seq<int>, offset: nat, inc: nat, c: seq<int>)
    requires offset + inc + inc <= |vec| && |c| == inc && Same(Sum(c), Sum(vec[..offset]))
    ensures var a, b := vec[offset..offset + inc], vec[offset + inc..offset + inc + inc];
            Same(Sum(AddLanes(c, AddLanes(a, b))), Sum(vec[..offset + inc + inc]))
  {
    var a, b := vec[offset..offset + inc], vec[offset + inc..offset + inc + inc];
    var ab := AddLanes(a, b);
    SumOfLanes(a, b);
    SumOfLanes(c, ab);
    SameAdd(Sum(c), Sum(vec[..offset]), Sum(ab), Sum(a) + Sum(b));
    SumAppend(vec[..offset], a);
    SumAppend(vec[..offset] + a, b);
    assert vec[..offset] + a + b == vec[..offset + inc + inc];
    SameTrans(Sum(AddLanes(c, ab)), Sum(c) + Sum(ab), Sum(vec[..offset]) + (Sum(a) + Sum(b)));
  }

  lemma TermAdded(vec: seq<int>, offset: nat, sum: int)
    requires offset < |vec| && Same(sum, Sum(vec[..offset]))
    ensures Same(Wrap(sum + vec[offset]), Sum(vec[..offset + 1]))
  {
    assert vec[..offset + 1][..offset] == vec[..offset];
    WrapIsSame(sum + vec[offset]);
    SameByMultiple(vec[offset], vec[offset], 0);
    SameAdd(sum, Sum(vec[..offset]), vec[offset], vec[offset]);
    SameTrans(Wrap(sum + vec[offset]), sum + vec[offset], Sum(vec[..offset + 1]));
  }

  method ReduceAdd(c: seq<int>) returns (sum: int)
    ensures sum == Wrap(Sum(c))
  {
    sum := 0;
    var i := 0;
    SameByMultiple(0, 0, 0);
    while i < |c|
      invariant 0 <= i <= |c| && Same(sum, Sum(c[..i])) && Wrap(sum) == sum
    {
      TermAdded(c, i, sum);
      SameWrap(Wrap(sum + c[i]), sum + c[i]);
      WrapIsSame(sum + c[i]);
      sum := Wrap(sum + c[i]);
      i := i + 1;
    }
    assert c[..i] == c;
    SameWrap(sum, Sum(c));
  }

  /** The sum of a vector, in batches of `inc` lanes: the plain sum, up to the wrap-around of 64 bits. */
  method XSum(vec: seq<int>, inc: nat) returns (sum: int)
    requires inc > 0
    ensures sum == Wrap(Sum(vec))
  {
    var inc2 := inc * 2;
    var offset := 0;
    var c := seq(inc, _ => 0);
    SumOfZeros(c);
    SameByMultiple(0, 0, 0);
    assert vec[..0] == [];
    while offset + inc2 <= |vec|
      invariant 0 <= offset <= |vec| && |c| == inc && Same(Sum(c), Sum(vec[..offset]))
    {
      var a := vec[offset..offset + inc];
      var b := vec[offset + inc..offset + inc2];
      PairAdded(vec, offset, inc, c);
      c := AddLanes(c, AddLanes(a, b));
      offset := offset + inc2;
    }
    sum := ReduceAdd(c);
    WrapIsSame(Sum(c));
    SameTrans(sum, Sum(c), Sum(vec[..offset]));
    SameWrap(sum, Sum(c));
    while offset < |vec|
      invariant 0 <= offset <= |vec| && Same(sum, Sum(vec[..offset])) && Wrap(sum) == sum
    {
      TermAdded(vec, offset, sum);
      WrapIsSame(sum + vec[offset]);
      SameWrap(Wrap(sum + vec[offset]), sum + vec[offset]);
      sum := Wrap(sum + vec[offset]);
      offset := offset + 1;
    }
    assert vec[..offset] == vec;
    SameWrap(sum, Sum(vec));
  }

  // ---------------------------------------------------------------- inner products

  function RealSum(s: seq<real>): real {
    if s == [] then 0.0 else RealSum(s[..|s| - 1]) + s[|s| - 1]
  }

  function Products(a: seq<real>, b: seq<real>): (p: seq<real>)
    requires |a| == |b|
    ensures |p| == |a|
  {
    seq(|a|, i requires 0 <= i < |a| => a[i] * b[i])
  }

  lemma ProductsPrefix(a: seq<real>, b: seq<real>, n: nat)
    requires |a| == |b| && n <= |a|
    ensures Products(a, b)[..n] == Products(a[..n], b[..n])
  {
    forall i | 0 <= i < n ensures Products(a, b)[i] == Products(a[..n], b[..n])[i] {}
  }

  /** The inner product, from left to right. */
  function Dot(a: seq<real>, b: seq<real>): real
    requires |a| == |b|
  {
    RealSum(Products(a, b))
  }

  /** Multiplies two batches lane by lane and adds a third. */
  function Fma(a: seq<real>, b: seq<real>, c: seq<real>): (r: seq<real>)
    requires |a| == |b| == |c|
    ensures |r| == |a|
  {
    seq(|a|, i requires 0 <= i < |a| => a[i] * b[i] + c[i])
  }

  lemma {:induction false} SumOfFma(a: seq<real>, b: seq<real>, c: seq<real>)
    requires |a| == |b| == |c|
    ensures RealSum(Fma(a, b, c)) == RealSum(c) + Dot(a, b)
    decreases |a|
  {
    if a != [] {
      var n := |a| - 1;
      forall i | 0 <= i < n ensures Fma(a, b, c)[i] == Fma(a[..n], b[..n], c[..n])[i] {}
      assert Fma(a, b, c)[..n] == Fma(a[..n], b[..n], c[..n]);
      ProductsPrefix(a, b, n);
      SumOfFma(a[..n], b[..n], c[..n]);
    }
  }

  lemma {:induction false} RealSumAppend(s: seq<real>, t: seq<real>)
    ensures RealSum(s + t) == RealSum(s) + RealSum(t)
    decreases |t|
  {
    if t == [] {
      assert s + t == s;
    } else {
      assert (s + t)[..|s + t| - 1] == s + t[..|t| - 1];
      RealSumAppend(s, t[..|t| - 1]);
    }
  }

  lemma DotAppend(a: seq<real>, b: seq<real>, m: nat, n: nat)
    requires |a| == |b| && m <= n <= |a|
    ensures Dot(a[..n], b[..n]) == Dot(a[..m], b[..m]) + Dot(a[m..n], b[m..n])
  {
    var whole, front, back := Products(a[..n], b[..n]), Products(a[..m], b[..m]), Products(a[m..n], b[m..n]);
    forall i | 0 <= i < n ensures whole[i] == (front + back)[i] {}
    assert whole == front + back;
    RealSumAppend(Products(a[..m], b[..m]), Products(a[m..n], b[m..n]));
  }

  lemma {:induction false} RealSumOfZeros(s: seq<real>)
    requires forall i | 0 <= i < |s| :: s[i] == 0.0
    ensures RealSum(s) == 0.0
    decreases |s|
  {
    if s != [] { RealSumOfZeros(s[..|s| - 1]); }
  }

  lemma BatchAdded(a: seq<real>, b: seq<real>, p: nat, n: nat, c: seq<real>)
    requires |a| == |b| && p + n <= |a| && |c| == n && RealSum(c) == Dot(a[..p], b[..p])
    ensures RealSum(Fma(a[p..p + n], b[p..p + n], c)) == Dot(a[..p + n], b[..p + n])
  {
    SumOfFma(a[p..p + n], b[p..p + n], c);
    DotAppend(a, b, p, p + n);
  }

  // ---------------------------------------------------------------- eight lanes, with a masked tail

  /** The lanes of a mask, given from the highest to the lowest. */
  function SetLanes(e7: bool, e6: bool, e5: bool, e4: bool, e3: bool, e2: bool, e1: bool, e0: bool): (mask: seq<bool>)
    ensures |mask| == 8
  {
    [e0, e1, e2, e3, e4, e5, e6, e7]
  }

  function TailMask(n: nat): (mask: seq<bool>)
    requires 0 < n < 8
    ensures |mask| == 8
  {
    match n
    case 1 => SetLanes(false, false, false, false, false, false, false, true)
    case 2 => SetLanes(false, false, false, false, false, false, true, true)
    case 3 => SetLanes(false, false, false, false, false, true, true, true)
    case 4 => SetLanes(false, false, false, false, true, true, true, true)
    case 5 => SetLanes(false, false, false, true, true, true, true, true)
    case 6 => SetLanes(false, false, true, true, true, true, true, true)
    case 7 => SetLanes(false, true, true, true, true, true, true, true)
  }

  lemma TailMaskLanes(n: nat, i: nat)
    requires 0 < n < 8 && i < 8
    ensures TailMask(n)[i] <==> i < n
  {
  }

  /** Loads the lanes the mask selects, and zero into the others. */
  function MaskLoad(a: seq<real>, p: nat, mask: seq<bool>): (r: seq<real>)
    requires |mask| == 8 && forall i | 0 <= i < 8 && mask[i] :: p + i < |a|
    ensures |r| == 8
  {
    seq(8, i requires 0 <= i < 8 => if mask[i] then a[p + i] else 0.0)
  }

  /** Exchanges the two halves of a batch. */
  function SwapHalves(v: seq<real>): (r: seq<real>)
    requires |v| == 8
    ensures |r| == 8
  {
    v[4..] + v[..4]
  }

  function Add(a: seq<real>, b: seq<real>): (r: seq<real>)
    requires |a| == |b|
    ensures |r| == |a|
  {
    seq(|a|, i requires 0 <= i < |a| => a[i] + b[i])
  }

  /** Adds neighbouring lanes, within each half of the batches. */
  function HorizontalAdd(a: seq<real>, b: seq<real>): (r: seq<real>)
    requires |a| == 8 && |b| == 8
    ensures |r| == 8
  {
    [a[0] + a[1], a[2] + a[3], b[0] + b[1], b[2] + b[3], a[4] + a[5], a[6] + a[7], b[4] + b[5], b[6] + b[7]]
  }

  lemma RealSumOfEight(v: seq<real>)
    requires |v| == 8
    ensures RealSum(v) == v[0] + v[1] + v[2] + v[3] + v[4] + v[5] + v[6] + v[7]
  {
    PrefixSum(v, 1); PrefixSum(v, 2); PrefixSum(v, 3); PrefixSum(v, 4);
    PrefixSum(v, 5); PrefixSum(v, 6); PrefixSum(v, 7); PrefixSum(v, 8);
    assert v[..0] == [] && v[..8] == v;
  }

  lemma PrefixSum(v: seq<real>, n: nat)
    requires 0 < n <= |v|
    ensures RealSum(v[..n]) == RealSum(v[..n - 1]) + v[n - 1]
  {
    assert v[..n][..n - 1] == v[..n - 1];
  }

  /** The permutation and the two horizontal additions leave the sum of all lanes in the lowest one. */
  lemma ReductionIsSum(v: seq<real>)
    requires |v| == 8
    ensures var w := Add(SwapHalves(v), v);
            var h := HorizontalAdd(w, w);
            HorizontalAdd(h, h)[0] == RealSum(v)
  {
    RealSumOfEight(v);
  }

  lemma TailAdded(a: seq<real>, b: seq<real>, p: nat, n: nat, c: seq<real>)
    requires |a| == |b| == p + n && 0 < n < 8 && |c| == 8 && RealSum(c) == Dot(a[..p], b[..p])
    ensures forall i | 0 <= i < 8 && TailMask(n)[i] :: p + i < |a|
    ensures RealSum(Fma(MaskLoad(a, p, TailMask(n)), MaskLoad(b, p, TailMask(n)), c)) == Dot(a, b)
  {
    var mask := TailMask(n);
    forall i | 0 <= i < 8 ensures mask[i] <==> i < n { TailMaskLanes(n, i); }
    var x, y := MaskLoad(a, p, mask), MaskLoad(b, p, mask);
    SumOfFma(x, y, c);
    DotAppend(x, y, n, 8);
    assert x[..8] == x && y[..8] == y && x[..n] == a[p..] && y[..n] == b[p..];
    RealSumOfZeros(Products(x[n..], y[n..]));
    DotAppend(a, b, p, p + n);
    assert a[..p + n] == a && b[..p + n] == b;
  }

  /** The inner product with eight lanes; zero for vectors of different lengths. */
  method DistanceIp(va: seq<real>, vb: seq<real>) returns (result: real)
    ensures result == if |va| == |vb| then Dot(va, vb) else 0.0
  {
    if |va| != |vb| {
      return 0.0;
    }
    var abVec := seq(8, _ => 0.0);
    RealSumOfZeros(abVec);
    var p, n := 0, |va|;
    assert Products(va[..0], vb[..0]) == [];
    while n >= 8
      invariant p + n == |va| && 0 <= n && |abVec| == 8 && RealSum(abVec) == Dot(va[..p], vb[..p])
    {
      BatchAdded(va, vb, p, 8, abVec);
      abVec := Fma(va[p..p + 8], vb[p..p + 8], abVec);
      p, n := p + 8, n - 8;
    }
    if n != 0 {
      TailAdded(va, vb, p, n, abVec);
      var mask := TailMask(n);
      abVec := Fma(MaskLoad(va, p, mask), MaskLoad(vb, p, mask), abVec);
    } else {
      assert va[..p] == va && vb[..p] == vb;
    }
    ReductionIsSum(abVec);
    abVec := Add(SwapHalves(abVec), abVec);
    abVec := HorizontalAdd(abVec, abVec);
    abVec := HorizontalAdd(abVec, abVec);
    return abVec[0];
  }

  // ---------------------------------------------------------------- any number of lanes

  /** The inner product with `inc` lanes and a scalar tail. */
  method XDistanceIp(va: seq<real>, vb: seq<real>, inc: nat) returns (result: real)
    requires inc > 0
    ensures result == if |va| == |vb| then Dot(va, vb) else 0.0
  {
    if |va| != |vb| {
      return 0.0;
    }
    var vs := |va|;
    var ims := vs - vs % inc;
    var c := seq(inc, _ => 0.0);
    RealSumOfZeros(c);
    var idx := 0;
    assert Products(va[..0], vb[..0]) == [];
    ghost var rounds := vs / inc;
    while idx < ims
      invariant 0 <= idx <= ims && ims - idx == rounds * inc
      invariant |c| == inc && RealSum(c) == Dot(va[..idx], vb[..idx])
    {
      OneRound(inc, rounds);
      rounds := rounds - 1;
      BatchAdded(va, vb, idx, inc, c);
      c := Fma(va[idx..idx + inc], vb[idx..idx + inc], c);
      idx := idx + inc;
    }
    result := RealSum(c);
    while idx < vs
      invariant 0 <= idx <= vs && result == Dot(va[..idx], vb[..idx])
    {
      DotMore(va, vb, idx);
      result := result + va[idx] * vb[idx];
      idx := idx + 1;
    }
    assert va[..idx] == va && vb[..idx] == vb;
  }

  lemma OneRound(inc: nat, rounds: int)
    requires rounds * inc > 0
    ensures rounds > 0 && rounds * inc == (rounds - 1) * inc + inc && (rounds - 1) * inc >= 0
  {
  }

  lemma DotMore(a: seq<real>, b: seq<real>, k: nat)
    requires |a| == |b| && k < |a|
    ensures Dot(a[..k + 1], b[..k + 1]) == Dot(a[..k], b[..k]) + a[k] * b[k]
  {
    ProductsPrefix(a[..k + 1], b[..k + 1], k);
    assert a[..k + 1][..k] == a[..k] && b[..k + 1][..k] == b[..k];
  }
}
