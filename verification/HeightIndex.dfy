/**
 The scroll geometry index (crates/core/src/height_index.rs): a Fenwick tree
 over row heights. Heights are reals; a float that is not finite is a value of
 its own.
 */
module HeightIndex {
  import opened Wrappers

  datatype Float = Finite(r: real) | NotFinite

  // ----- the lowest set bit -----

  /** The largest power of two that divides `i`, which is what `i & (!i + 1)` computes (LowBitMask). */
  function LowBit(i: nat): (b: nat)
    requires i > 0
    ensures 0 < b <= i
  {
    if i % 2 == 1 then 1 else 2 * LowBit(i / 2)
  }

  function Pow2(k: nat): (p: nat)
    ensures p > 0
  {
    if k == 0 then 1 else 2 * Pow2(k - 1)
  }

  /** `a & b`, bit by bit. */
  function And(a: nat, b: nat): nat {
    if a == 0 || b == 0 then 0 else 2 * And(a / 2, b / 2) + a % 2 * (b % 2)
  }

  /** `!a` on words of `width` bits. */
  function Not(a: nat, width: nat): nat {
    if width == 0 then 0 else 2 * Not(a / 2, width - 1) + (1 - a % 2)
  }

  lemma {:induction false} AndNot(a: nat, width: nat)
    requires a < Pow2(width)
    ensures And(a, Not(a, width)) == 0
    ensures Not(a, width) == Pow2(width) - 1 - a
  {
    if width > 0 {
      AndNot(a / 2, width - 1);
    }
  }

  /** On words of any width, `i & (!i + 1)` is the lowest bit, and the sum in it does not overflow. */
  lemma {:induction false} LowBitMask(i: nat, width: nat)
    requires 0 < i < Pow2(width)
    ensures And(i, Not(i, width) + 1) == LowBit(i)
    ensures Not(i, width) + 1 < Pow2(width)
  {
    AndNot(i, width);
    if i % 2 == 0 {
      LowBitMask(i / 2, width - 1);
    } else {
      AndNot(i / 2, width - 1);
    }
  }

  /** The next cell of a chain covers at least twice as much. */
  lemma {:induction false} LowBitGrows(i: nat)
    requires i > 0
    ensures LowBit(i + LowBit(i)) >= 2 * LowBit(i)
  {
    if i % 2 == 0 {
      LowBitGrows(i / 2);
      assert (i + LowBit(i)) / 2 == i / 2 + LowBit(i / 2);
    }
  }

  /** Cells strictly between two of a chain cover nothing up to the first of them. */
  lemma {:induction false} LowBitBetween(i: nat, j: nat)
    requires 0 < i < j < i + LowBit(i)
    ensures LowBit(j) <= j - i
  {
    if i % 2 == 0 && j % 2 == 0 {
      LowBitBetween(i / 2, j / 2);
    }
  }

  lemma {:induction false} LowBitOfDouble(n: nat)
    requires n > 0
    ensures LowBit(2 * n) == 2 * LowBit(n)
  {
    assert 2 * n % 2 == 0 && 2 * n / 2 == n;
  }

  lemma {:induction false} DoubleProduct(m: nat, p: nat)
    ensures m * (2 * (2 * p)) == 2 * (m * (2 * p))
  {
  }

  /** Adding a power of two to a multiple of its double makes it the lowest bit. */
  lemma {:induction false} LowBitOfSum(m: nat, k: nat)
    ensures LowBit(m * (2 * Pow2(k)) + Pow2(k)) == Pow2(k)
  {
    if k == 0 {
      assert (m * 2 + 1) % 2 == 1;
    } else {
      var p := Pow2(k - 1);
      LowBitOfSum(m, k - 1);
      DoubleProduct(m, p);
      LowBitOfDouble(m * (2 * p) + p);
    }
  }

  // ----- sums of heights -----

  function Sum(s: seq<real>): real {
    if s == [] then 0.0 else Sum(s[..|s| - 1]) + s[|s| - 1]
  }

  lemma {:induction false} SumSplit(s: seq<real>, t: seq<real>)
    ensures Sum(s + t) == Sum(s) + Sum(t)
  {
    if t == [] {
      assert s + t == s;
    } else {
      SumSplit(s, t[..|t| - 1]);
      assert (s + t)[..|s + t| - 1] == s + t[..|t| - 1];
    }
  }

  lemma {:induction false} SumUpdate(s: seq<real>, k: nat, x: real)
    requires k < |s|
    ensures Sum(s[k := x]) == Sum(s) + x - s[k]
  {
    var n := |s| - 1;
    if k == n {
      assert s[k := x][..n] == s[..n];
    } else {
      SumUpdate(s[..n], k, x);
      assert s[k := x][..n] == s[..n][k := x];
    }
  }

  lemma {:induction false} SumOfPositive(s: seq<real>)
    requires forall i :: 0 <= i < |s| ==> s[i] > 0.0
    ensures Sum(s) >= 0.0 && (s != [] ==> Sum(s) > 0.0)
  {
    if s != [] { SumOfPositive(s[..|s| - 1]); }
  }

  /** The height of the first `k` rows. */
  function Prefix(values: seq<real>, k: nat): real
    requires k <= |values|
  {
    Sum(values[..k])
  }

  predicate Positive(values: seq<real>) {
    forall i :: 0 <= i < |values| ==> values[i] > 0.0
  }

  lemma {:induction false} PrefixGrows(values: seq<real>, i: nat, j: nat)
    requires Positive(values) && i <= j <= |values|
    ensures Prefix(values, i) <= Prefix(values, j)
    ensures i < j ==> Prefix(values, i) < Prefix(values, j)
  {
    SumSplit(values[..i], values[i..j]);
    assert values[..j] == values[..i] + values[i..j];
    SumOfPositive(values[i..j]);
  }

  function Clamp(x: real, most: real): real {
    if x <= 0.0 then 0.0 else if x > most then most else x
  }

  /** Row `i` is the one at height `y`: below it the rows sum to at most `y`, with it to more. */
  predicate IsRowAt(values: seq<real>, y: real, i: nat) {
    i < |values| && Prefix(values, i) <= y < Prefix(values, i + 1)
  }

  lemma {:induction false} RowIsUnique(values: seq<real>, y: real, i: nat, j: nat)
    requires Positive(values) && IsRowAt(values, y, i) && IsRowAt(values, y, j)
    ensures i == j
  {
    if i < j { PrefixGrows(values, i + 1, j); }
    if j < i { PrefixGrows(values, j + 1, i); }
  }

  // ----- the tree -----

  /** Cell `j` holds the sum of the block of rows it covers. */
  predicate IsCell(values: seq<real>, tree: seq<real>, j: nat) {
    0 < j <= |values| && j < |tree| && tree[j] == Sum(values[j - LowBit(j)..j])
  }

  predicate IsTree(values: seq<real>, tree: seq<real>) {
    |tree| == |values| + 1 && forall j :: 0 < j <= |values| ==> IsCell(values, tree, j)
  }

  lemma {:induction false} CellIsDifference(values: seq<real>, tree: seq<real>, j: nat)
    requires IsTree(values, tree) && 0 < j <= |values|
    ensures tree[j] == Prefix(values, j) - Prefix(values, j - LowBit(j))
  {
    assert IsCell(values, tree, j);
    SumSplit(values[..j - LowBit(j)], values[j - LowBit(j)..j]);
    assert values[..j] == values[..j - LowBit(j)] + values[j - LowBit(j)..j];
  }

  /** Cell `j` covers row `k`. */
  predicate Covers(j: nat, k: nat)
    requires j > 0
  {
    j - LowBit(j) <= k < j
  }

  /** What a cell must hold when row `k` changes by `delta`. */
  lemma {:induction false} BlockUpdate(values: seq<real>, k: nat, x: real, j: nat)
    requires k < |values| && 0 < j <= |values|
    ensures Sum(values[k := x][j - LowBit(j)..j]) ==
      Sum(values[j - LowBit(j)..j]) + if Covers(j, k) then x - values[k] else 0.0
  {
    var lo := j - LowBit(j);
    if Covers(j, k) {
      SumUpdate(values[lo..j], k - lo, x);
      assert values[k := x][lo..j] == values[lo..j][k - lo := x];
    } else {
      assert values[k := x][lo..j] == values[lo..j];
    }
  }

  /** Cells below `i` are up to date for the changed row, cells from `i` on still lack `delta`. */
  ghost predicate Updating(values: seq<real>, tree: seq<real>, k: nat, delta: real, i: nat) {
    && |tree| == |values| + 1 && k < |values|
    && forall j :: 0 < j <= |values| ==> IsUpdating(values, tree, k, delta, i, j)
  }

  ghost predicate IsUpdating(values: seq<real>, tree: seq<real>, k: nat, delta: real, i: nat, j: nat)
    requires 0 < j <= |values| && j < |tree|
  {
    tree[j] == Sum(values[j - LowBit(j)..j]) - if j >= i && Covers(j, k) then delta else 0.0
  }

  /** The cells that cover a row are a chain: the next one after `i` is `i + LowBit(i)`. */
  lemma {:induction false} NextCovering(i: nat, k: nat)
    requires i > 0 && Covers(i, k)
    ensures Covers(i + LowBit(i), k)
    ensures forall j :: i < j < i + LowBit(i) ==> !Covers(j, k)
  {
    LowBitGrows(i);
    forall j | i < j < i + LowBit(i) ensures !Covers(j, k) {
      LowBitBetween(i, j);
    }
  }

  class HeightIndex {
    const values: array<real>
    const tree: array<real>

    ghost predicate Valid()
      reads this, values, tree
    {
      values != tree && IsTree(values[..], tree[..]) && Positive(values[..])
    }

    constructor (count: nat, estimate: Float)
      ensures Valid() && fresh(values) && fresh(tree)
      ensures values.Length == count
      ensures forall i :: 0 <= i < count ==>
        values[i] == if estimate.Finite? && estimate.r > 0.0 then estimate.r else 20.0
    {
      var value := if estimate.Finite? && estimate.r > 0.0 then estimate.r else 20.0;
      values := new real[count](_ => 0.0);
      tree := new real[count + 1](_ => 0.0);
      new;
      ZeroTree(values[..], tree[..]);
      for i := 0 to count
        invariant IsTree(values[..], tree[..])
        invariant forall j :: 0 <= j < i ==> values[j] == value
      {
        Set(i, value);
      }
    }

    method Set(index: nat, value: real)
      requires values != tree && IsTree(values[..], tree[..]) && index < values.Length
      modifies values, tree
      ensures IsTree(values[..], tree[..])
      ensures values[..] == old(values[..])[index := value]
    {
      var delta := value - values[index];
      ghost var before := values[..];
      values[index] := value;
      var i := index + 1;
      StartUpdating(before, tree[..], index, value);
      while i < tree.Length
        invariant values[..] == before[index := value] && tree.Length == values.Length + 1
        invariant i > 0 && Covers(i, index) && Updating(values[..], tree[..], index, delta, i)
      {
        UpdateCell(values[..], tree[..], index, delta, i);
        ghost var t := tree[..];
        tree[i] := tree[i] + delta;
        assert tree[..] == t[i := t[i] + delta];
        i := i + LowBit(i);
      }
      DoneUpdating(values[..], tree[..], index, delta, i);
    }

    /** A height that is not a positive number is refused and changes nothing. */
    method Update(index: nat, height: Float) returns (ok: bool)
      requires Valid()
      modifies values, tree
      ensures Valid()
      ensures ok <==> index < values.Length && height.Finite? && height.r > 0.0
      ensures values[..] == if ok then old(values[..])[index := height.r] else old(values[..])
    {
      if index >= values.Length || !height.Finite? || height.r <= 0.0 { return false; }
      Set(index, height.r);
      return true;
    }

    method PrefixSum(count: nat) returns (sum: real)
      requires Valid()
      ensures sum == Prefix(values[..], if count < values.Length then count else values.Length)
    {
      var i: nat := if count < values.Length then count else values.Length;
      ghost var whole := Prefix(values[..], i);
      sum := 0.0;
      while i > 0
        invariant i <= values.Length && sum + Prefix(values[..], i) == whole
      {
        CellIsDifference(values[..], tree[..], i);
        sum := sum + tree[i];
        i := i - LowBit(i);
      }
      assert values[..][..0] == [];
    }

    method Total() returns (total: real)
      requires Valid()
      ensures total == Sum(values[..])
    {
      total := PrefixSum(values.Length);
      assert values[..][..values.Length] == values[..];
    }

    /** The row at height `y` and how far into it `y` lies; out of range heights clamp to the ends. */
    method Locate(y: Float) returns (row: nat, offset: real)
      requires Valid()
      ensures values.Length == 0 ==> row == 0 && offset == 0.0
      ensures values.Length > 0 ==> row < values.Length
      ensures values.Length > 0 && (!y.Finite? || y.r < 0.0) ==> row == 0 && offset == 0.0
      ensures values.Length > 0 && y.Finite? && 0.0 <= y.r < Sum(values[..]) ==>
        IsRowAt(values[..], y.r, row) && offset == y.r - Prefix(values[..], row)
      ensures values.Length > 0 && y.Finite? && y.r >= Sum(values[..]) ==>
        row == values.Length - 1 && offset == values[row]
    {
      if values.Length == 0 { return 0, 0.0; }
      var total := Total();
      var at := if y.Finite? then Clamp(y.r, total) else 0.0;
      SumOfPositive(values[..]);
      var index := Descend(at);
      RowOf(values[..], index, at);
      row := if index < values.Length then index else values.Length - 1;
      var before := PrefixSum(row);
      offset := Clamp(at - before, values[row]);
    }

    /** The bitwise descent: the most rows whose heights sum to at most `y`. */
    method Descend(y: real) returns (index: nat)
      requires Valid() && y >= 0.0
      ensures index <= values.Length && Prefix(values[..], index) <= y
      ensures index < values.Length ==> y < Prefix(values[..], index + 1)
    {
      index := 0;
      var sum := 0.0;
      var bit := 1;
      ghost var k := 0;
      while bit < tree.Length
        invariant bit == Pow2(k)
      {
        bit := bit * 2;
        k := k + 1;
      }
      ghost var m := 0;
      assert values[..][..0] == [];
      while bit > 0
        invariant bit == 0 || bit == Pow2(k)
        invariant bit > 0 ==> index == m * (2 * bit)
        invariant Descending(values[..], y, index, sum, bit)
        decreases bit
      {
        var next := index + bit;
        LowBitOfSum(m, k);
        if next < tree.Length { CellIsDifference(values[..], tree[..], next); }
        HalfBit(k);
        NextMultiple(m, bit);
        if next < tree.Length && sum + tree[next] <= y {
          index := next;
          sum := sum + tree[next];
          m := 2 * m + 1;
        } else {
          m := 2 * m;
        }
        bit := bit / 2;
        if k > 0 { k := k - 1; }
      }
    }
  }

  /** The first `index` rows fit below `y`; the row at distance Reach(bit) beyond does not. */
  ghost predicate Descending(values: seq<real>, y: real, index: nat, sum: real, bit: nat) {
    && index <= |values| && sum == Prefix(values, index) && sum <= y
    && (index + Reach(bit) <= |values| ==> y < Prefix(values, index + Reach(bit)))
  }

  lemma {:induction false} HalfBit(k: nat)
    ensures Pow2(k) / 2 == if k > 0 then Pow2(k - 1) else 0
    ensures Reach(Pow2(k) / 2) == Pow2(k)
  {}

  lemma {:induction false} NextMultiple(m: nat, bit: nat)
    requires bit > 0
    ensures m * (2 * bit) + bit == (2 * m + 1) * bit && m * (2 * bit) == 2 * m * bit
    ensures bit % 2 == 0 ==> bit == 2 * (bit / 2)
  {}

  /** How far beyond `index` the descent has already ruled out. */
  ghost function Reach(bit: nat): nat {
    if bit == 0 then 1 else 2 * bit
  }

  lemma {:induction false} SumOfZeros(s: seq<real>)
    requires forall i :: 0 <= i < |s| ==> s[i] == 0.0
    ensures Sum(s) == 0.0
  {
    if s != [] { SumOfZeros(s[..|s| - 1]); }
  }

  lemma {:induction false} ZeroTree(values: seq<real>, tree: seq<real>)
    requires |tree| == |values| + 1
    requires forall i :: 0 <= i < |values| ==> values[i] == 0.0
    requires forall i :: 0 <= i < |tree| ==> tree[i] == 0.0
    ensures IsTree(values, tree)
  {
    forall j | 0 < j <= |values| ensures IsCell(values, tree, j) {
      SumOfZeros(values[j - LowBit(j)..j]);
    }
  }

  lemma {:induction false} StartUpdating(before: seq<real>, tree: seq<real>, k: nat, x: real)
    requires IsTree(before, tree) && k < |before|
    ensures Covers(k + 1, k) && Updating(before[k := x], tree, k, x - before[k], k + 1)
  {
    var values, delta, next := before[k := x], x - before[k], k + 1;
    forall j | 0 < j <= |before|
      ensures IsUpdating(values, tree, k, delta, next, j)
    {
      assert IsCell(before, tree, j);
      BlockUpdate(before, k, x, j);
    }
  }

  lemma {:induction false} UpdateCell(values: seq<real>, tree: seq<real>, k: nat, delta: real, i: nat)
    requires Updating(values, tree, k, delta, i) && 0 < i < |tree| && Covers(i, k)
    ensures Covers(i + LowBit(i), k) && Updating(values, tree[i := tree[i] + delta], k, delta, i + LowBit(i))
  {
    NextCovering(i, k);
    var updated, next := tree[i := tree[i] + delta], i + LowBit(i);
    forall j | 0 < j <= |values| ensures IsUpdating(values, updated, k, delta, next, j) {
      assert IsUpdating(values, tree, k, delta, i, j);
    }
  }

  lemma {:induction false} DoneUpdating(values: seq<real>, tree: seq<real>, k: nat, delta: real, i: nat)
    requires Updating(values, tree, k, delta, i) && i >= |tree|
    ensures IsTree(values, tree)
  {
    forall j | 0 < j <= |values| ensures IsCell(values, tree, j) {
      assert IsUpdating(values, tree, k, delta, i, j);
    }
  }

  lemma {:induction false} LastPrefix(values: seq<real>, i: nat)
    requires i < |values|
    ensures Prefix(values, i + 1) == Prefix(values, i) + values[i]
  {
    assert values[..i + 1][..i] == values[..i];
  }

  /** What the descent's index says about the row at height `y`. */
  lemma {:induction false} RowOf(values: seq<real>, index: nat, y: real)
    requires Positive(values) && index <= |values| && values != [] && 0.0 <= y
    requires Prefix(values, index) <= y && (index < |values| ==> y < Prefix(values, index + 1))
    ensures y < Sum(values)
      ==> index < |values| && IsRowAt(values, y, index) && y - Prefix(values, index) <= values[index]
    ensures y == Sum(values) ==> index == |values| && y - Prefix(values, |values| - 1) == values[|values| - 1]
    ensures y == 0.0 ==> index == 0 && Prefix(values, 0) == 0.0
  {
    assert values[..|values|] == values;
    assert values[..0] == [];
    if index < |values| {
      PrefixGrows(values, index + 1, |values|);
      LastPrefix(values, index);
    }
    LastPrefix(values, |values| - 1);
    PrefixGrows(values, 0, index);
  }
}
