/** Sizes of an index file: how many leaves, how many levels, how many bytes (lsm_tree.c:80-133). */
module BitShape {
  function Pow(b: nat, e: nat): nat {
    if e == 0 then 1 else b * Pow(b, e - 1)
  }

  /// 1 + b + ... + b^(n-1).
  function Geo(b: nat, n: nat): nat {
    if n == 0 then 0 else Geo(b, n - 1) + Pow(b, n - 1)
  }

  function NrLeaf(n: nat, leafLen: nat): nat
    requires leafLen >= 1
  {
    n / leafLen + if n % leafLen != 0 then 1 else 0
  }

  /// The least height whose bottom level has room for every leaf.
  ghost predicate IsHeight(n: nat, degree: nat, leafLen: nat, h: nat)
    requires leafLen >= 1
  {
    && n >= 1 && h >= 1 && NrLeaf(n, leafLen) <= Pow(degree, h - 1)
    && (h >= 2 ==> Pow(degree, h - 2) < NrLeaf(n, leafLen))
  }

  lemma {:induction false} PowMono(b: nat, i: nat, j: nat)
    requires b >= 1 && i <= j
    ensures 1 <= Pow(b, i) <= Pow(b, j)
  {
    if i < j {
      PowMono(b, i, j - 1);
      assert b * Pow(b, j - 1) >= Pow(b, j - 1);
    } else if i > 0 {
      PowMono(b, i - 1, i - 1);
    }
  }

  lemma {:induction false} HeightUnique(n: nat, degree: nat, leafLen: nat, h: nat, k: nat)
    requires leafLen >= 1 && degree >= 1 && IsHeight(n, degree, leafLen, h) && IsHeight(n, degree, leafLen, k)
    ensures h == k
  {
    if h < k { PowMono(degree, h - 1, k - 2); }
    if k < h { PowMono(degree, k - 1, h - 2); }
  }

  lemma {:induction false} PowGrows(b: nat, e: nat)
    requires b >= 2
    ensures Pow(b, e) > e
  {
    if e > 0 {
      PowGrows(b, e - 1);
      assert b * Pow(b, e - 1) >= 2 * Pow(b, e - 1);
    }
  }

  /// __bit_height.
  method BitHeight(nrRecord: nat, degree: nat, leafLen: nat) returns (height: nat)
    requires degree >= 2 && leafLen >= 1
    ensures nrRecord == 0 ==> height == 0
    ensures nrRecord > 0 ==> IsHeight(nrRecord, degree, leafLen, height)
  {
    if nrRecord == 0 { return 0; }
    height := 1;
    var size := 1;
    var nrLeaf := nrRecord / leafLen;
    if nrRecord % leafLen != 0 { nrLeaf := nrLeaf + 1; }
    assert nrLeaf >= 1 by { Nonzero(nrRecord, leafLen); }
    while size < nrLeaf
      invariant height >= 1 && size == Pow(degree, height - 1)
      invariant height >= 2 ==> Pow(degree, height - 2) < nrLeaf
      decreases nrLeaf - height
    {
      PowGrows(degree, height - 1);
      height := height + 1;
      size := degree * size;
    }
  }

  lemma {:induction false} Nonzero(n: nat, l: nat)
    requires n >= 1 && l >= 1
    ensures NrLeaf(n, l) >= 1
  {
    assert l * (n / l) + n % l == n;
  }

  /// __bit_array_len: inner nodes of a full tree plus leaves.
  method BitArrayLen(nrRecord: nat, degree: nat, leafLen: nat) returns (len: nat)
    requires degree >= 2 && leafLen >= 1
    ensures nrRecord == 0 ==> len == 0
    ensures forall h: nat :: IsHeight(nrRecord, degree, leafLen, h) ==> len == Geo(degree, h - 1) + NrLeaf(nrRecord, leafLen)
  {
    if nrRecord == 0 { return 0; }
    var size := 1;
    ghost var height := 1;
    len := 0;
    var nrLeaf := nrRecord / leafLen;
    if nrRecord % leafLen != 0 { nrLeaf := nrLeaf + 1; }
    assert nrLeaf >= 1 by { Nonzero(nrRecord, leafLen); }
    while size < nrLeaf
      invariant height >= 1 && size == Pow(degree, height - 1) && len == Geo(degree, height - 1)
      invariant height >= 2 ==> Pow(degree, height - 2) < nrLeaf
      decreases nrLeaf - height
    {
      PowGrows(degree, height - 1);
      len := len + size;
      height := height + 1;
      size := degree * size;
    }
    len := len + nrLeaf;
    forall h: nat | IsHeight(nrRecord, degree, leafLen, h) ensures h == height {
      HeightUnique(nrRecord, degree, leafLen, h, height);
    }
  }

  /// calculate_bit_size.
  method CalculateBitSize(nrRecord: nat, degree: nat, leafLen: nat, leafSize: nat, innerSize: nat) returns (bytes: nat)
    requires degree >= 2 && leafLen >= 1
    ensures nrRecord == 0 ==> bytes == 0
    ensures forall h: nat :: IsHeight(nrRecord, degree, leafLen, h) ==>
      bytes == Geo(degree, h - 1) * innerSize + NrLeaf(nrRecord, leafLen) * leafSize
  {
    if nrRecord == 0 { return 0; }
    var nrLeaf := nrRecord / leafLen;
    if nrRecord % leafLen != 0 { nrLeaf := nrLeaf + 1; }
    var len := BitArrayLen(nrRecord, degree, leafLen);
    var height := BitHeight(nrRecord, degree, leafLen);
    assert len == Geo(degree, height - 1) + nrLeaf;
    bytes := (len - nrLeaf) * innerSize + nrLeaf * leafSize;
    forall h: nat | IsHeight(nrRecord, degree, leafLen, h) ensures h == height {
      HeightUnique(nrRecord, degree, leafLen, h, height);
    }
  }

  // ---------------------------------------------------------------- the parameters of a file

  datatype Geometry = Geometry(leafLen: nat, degree: nat, height: nat, leafSize: nat, innerSize: nat,
                               bufSize: nat, capacity: nat)
  {
    /// A node buffer is as large as a leaf node, the larger of the two; the staging buffer holds
    /// at least one node for every level.
    ghost predicate Valid() {
      && leafLen >= 1 && degree >= 2 && height >= 2 && 1 <= innerSize <= leafSize
      && height * leafSize <= bufSize && IsHeight(capacity, degree, leafLen, height)
    }

    /// calculate_bit_size of the capacity.
    ghost function BitSize(): nat
      requires leafLen >= 1 && height >= 1
    {
      Geo(degree, height - 1) * innerSize + NrLeaf(capacity, leafLen) * leafSize
    }
  }

  /// The parameters of the module (lsm_tree.h:20-62, 111; segment_buffer.h:18).
  const DEFAULT: Geometry := Geometry(128, 32, 3, 5665, 441, 4194304, 131072)

  lemma {:induction false} DefaultValid()
    ensures DEFAULT.Valid() && DEFAULT.BitSize() == 5815513
  {
    assert Pow(32, 0) == 1 && Pow(32, 1) == 32 && Pow(32, 2) == 1024;
    assert Geo(32, 1) == 1 && Geo(32, 2) == 33;
  }

  /// The entries of a file up to its capacity need at most as many leaves as the bottom level has places.
  lemma {:induction false} LeafBound(g: Geometry, n: nat)
    requires g.Valid() && n <= g.capacity
    ensures NrLeaf(n, g.leafLen) <= NrLeaf(g.capacity, g.leafLen) <= Pow(g.degree, g.height - 1)
    ensures n / g.leafLen <= NrLeaf(n, g.leafLen)
  {
    CeilBounds(n, g.leafLen);
    CeilBounds(g.capacity, g.leafLen);
    var a, b := NrLeaf(n, g.leafLen), NrLeaf(g.capacity, g.leafLen);
    if a > b {
      Scale(g.leafLen, b, a - 1);
    }
  }

  lemma {:induction false} Scale(l: nat, a: nat, b: nat)
    requires a <= b
    ensures l * a <= l * b
  {
  }

  lemma {:induction false} CeilBounds(n: nat, l: nat)
    requires l >= 1
    ensures n <= l * NrLeaf(n, l) && (NrLeaf(n, l) >= 1 ==> l * (NrLeaf(n, l) - 1) < n)
  {
    var q, m := n / l, n % l;
    assert l * q + m == n && 0 <= m < l;
    assert l * (q + 1) == l * q + l;
    assert m == 0 && q >= 1 ==> l * (q - 1) == l * q - l;
  }
}
