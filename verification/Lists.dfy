/** Python list and tensor idioms used throughout: concatenation, slices, strides. */
module Lists {

  datatype Option<T> = None | Some(value: T)

  function Min(a: int, b: int): int { if a < b then a else b }

  function Max(a: int, b: int): int { if a < b then b else a }

  /** sum(blocks, []) or torch.cat */
  function Flatten<T>(blocks: seq<seq<T>>): seq<T> {
    if blocks == [] then [] else Flatten(blocks[..|blocks| - 1]) + blocks[|blocks| - 1]
  }

  /** s[a:b], cut to the length of s */
  function Slice<T>(s: seq<T>, a: nat, b: nat): (r: seq<T>)
    ensures b <= |s| && a <= b ==> r == s[a..b]
  {
    if Min(a, |s|) <= Min(b, |s|) then s[Min(a, |s|)..Min(b, |s|)] else []
  }

  /** lo, lo + 1, ..., lo + n - 1 */
  function Iota(lo: int, n: nat): (r: seq<int>)
    ensures |r| == n && forall i :: 0 <= i < n ==> r[i] == lo + i
  {
    seq(n, i => lo + i)
  }

  /** `s` without the entry at `k`. */
  function Dropped<T>(s: seq<T>, k: nat): seq<T>
    requires k < |s|
  {
    s[..k] + s[k + 1..]
  }

  lemma DroppedMultiset<T>(s: seq<T>, k: nat)
    requires k < |s|
    ensures multiset(s) == multiset(Dropped(s, k)) + multiset{s[k]}
    ensures multiset(Dropped(s, k)) == multiset(s) - multiset{s[k]} && s[k] in multiset(s)
  {
    assert s == s[..k] + [s[k]] + s[k + 1..];
  }

  ghost predicate Distinct<T(!new)>(s: seq<T>) {
    forall i, j :: 0 <= i < j < |s| ==> s[i] != s[j]
  }

  /** Rounded up to a multiple of `k`. */
  function RoundUp(len: nat, k: int): (r: nat)
    requires 0 < k
  {
    CeilIsNat(len, k);
    (len + k - 1) / k * k
  }

  lemma CeilIsNat(len: nat, k: int)
    requires 0 < k
    ensures len <= (len + k - 1) / k * k
  {
    var q := (len + k - 1) / k;
    assert len + k - 1 == k * q + (len + k - 1) % k;
    assert q * k == k * q;
  }

  /** `m` is the least multiple of `k` that is not below `len`. */
  ghost predicate PadsTo(len: nat, k: int, m: int)
    requires 0 < k
  {
    m % k == 0 && len <= m < len + k
  }

  lemma RoundUpPads(len: nat, k: int)
    requires 0 < k
    ensures PadsTo(len, k, RoundUp(len, k))
  {
    CeilIsNat(len, k);
    var q := (len + k - 1) / k;
    assert len + k - 1 == k * q + (len + k - 1) % k;
    QuotientNotNegative(len + k - 1, k);
    assert q * k == k * q;
    ModOfMultiple(q, k);
  }

  lemma QuotientNotNegative(n: nat, k: int)
    requires 0 < k
    ensures n / k >= 0
  {}

  lemma PadsAscend(x: nat, y: nat, k: int, m: int, n: int)
    requires 0 < k && x <= y && PadsTo(x, k, m) && PadsTo(y, k, n)
    ensures m <= n
  {
    assert m == k * (m / k) && n == k * (n / k);
    CloseMultiples(k, m / k, n / k);
    MultiplesAscend(k, m / k, n / k);
  }

  lemma MultiplesAscend(k: int, p: int, q: int)
    requires 0 < k && p <= q
    ensures k * p <= k * q
  {
    assert k * q == k * p + k * (q - p);
    assert k * (q - p) >= 0;
  }

  lemma PadsOnce(len: nat, k: int, m: int, n: int)
    requires 0 < k && PadsTo(len, k, m) && PadsTo(len, k, n)
    ensures m == n
  {
    assert m == k * (m / k) && n == k * (n / k);
    CloseMultiples(k, m / k, n / k);
    CloseMultiples(k, n / k, m / k);
  }

  lemma CloseMultiples(k: int, p: int, q: int)
    requires 0 < k && k * p < k * q + k
    ensures p <= q
  {
    var d := p - q - 1;
    assert k * p == k * q + k + k * d;
    assert d >= 0 ==> k * d >= 0;
  }

  /** s[i::k] */
  function Stride<T>(s: seq<T>, i: nat, k: nat): seq<T>
    requires 0 < k
    decreases |s| - i
  {
    if i >= |s| then [] else [s[i]] + Stride(s, i + k, k)
  }

  function Sum(s: seq<int>): int {
    if s == [] then 0 else Sum(s[..|s| - 1]) + s[|s| - 1]
  }

  predicate AllOfLength<T>(blocks: seq<seq<T>>, m: nat) {
    forall j :: 0 <= j < |blocks| ==> |blocks[j]| == m
  }

  lemma FlattenNext<T>(blocks: seq<seq<T>>, i: nat)
    requires i < |blocks|
    ensures Flatten(blocks[..i + 1]) == Flatten(blocks[..i]) + blocks[i]
  {
    assert blocks[..i + 1][..i] == blocks[..i];
  }

  lemma FlattenSnoc<T>(blocks: seq<seq<T>>, x: seq<T>)
    ensures Flatten(blocks + [x]) == Flatten(blocks) + x
  {
    assert (blocks + [x])[..|blocks|] == blocks;
  }

  lemma Reassociate<T>(x: seq<T>, y: seq<T>, z: seq<T>)
    ensures (x + y) + z == x + (y + z)
  {}

  lemma {:induction false} FlattenAppend<T>(a: seq<seq<T>>, b: seq<seq<T>>)
    ensures Flatten(a + b) == Flatten(a) + Flatten(b)
  {
    if b == [] {
      assert a + b == a;
    } else {
      var front, x := b[..|b| - 1], b[|b| - 1];
      FlattenAppend(a, front);
      FlattenSnoc(a + front, x);
      assert b == front + [x];
      Reassociate(a, front, [x]);
      Reassociate(Flatten(a), Flatten(front), x);
    }
  }

  lemma BlockBounds(j: nat, n: nat, m: nat)
    requires j < n
    ensures j * m + m == (j + 1) * m <= n * m
  {
    assert n * m == (j + 1) * m + (n - j - 1) * m;
  }

  lemma {:induction false} FlattenLength<T>(blocks: seq<seq<T>>, m: nat)
    requires AllOfLength(blocks, m)
    ensures |Flatten(blocks)| == |blocks| * m
  {
    if blocks != [] {
      FlattenLength(blocks[..|blocks| - 1], m);
      assert |blocks| * m == (|blocks| - 1) * m + m;
    }
  }

  lemma SliceAppend<T>(x: seq<T>, y: seq<T>, a: nat, b: nat)
    ensures a <= b <= |x| ==> Slice(x + y, a, b) == Slice(x, a, b)
    ensures Slice(x + y, |x|, |x| + |y|) == y
  {}

  /** Block `j` of a concatenation of blocks of equal length. */
  lemma {:induction false} FlattenBlock<T>(blocks: seq<seq<T>>, m: nat, j: nat)
    requires AllOfLength(blocks, m) && j < |blocks|
    ensures (j + 1) * m <= |Flatten(blocks)|
    ensures Slice(Flatten(blocks), j * m, (j + 1) * m) == blocks[j]
  {
    var k := |blocks| - 1;
    var front, last := Flatten(blocks[..k]), blocks[k];
    FlattenLength(blocks, m);
    FlattenLength(blocks[..k], m);
    BlockBounds(j, |blocks|, m);
    SliceAppend(front, last, j * m, (j + 1) * m);
    if j < k {
      BlockBounds(j, k, m);
      FlattenBlock(blocks[..k], m, j);
    }
  }

  // ---------------------------------------------------------------- strides

  lemma {:induction false} StrideLength<T>(s: seq<T>, i: nat, k: nat, m: nat)
    requires 0 < k && |s| <= i + m * k && (m > 0 ==> i + (m - 1) * k < |s|)
    ensures |Stride(s, i, k)| == m
    decreases m
  {
    if m > 0 {
      assert m * k == (m - 1) * k + k;
      assert (m - 1) * k >= 0;
      if m > 1 { assert (m - 1) * k == (m - 2) * k + k; }
      StrideLength(s, i + k, k, m - 1);
    }
  }

  /** Position `n` is one of i, i + k, i + 2k, ... */
  predicate Hits(i: nat, n: nat, k: nat)
    requires 0 < k
    decreases n - i
  {
    i == n || (i < n && Hits(i + k, n, k))
  }

  function Residue(n: nat, k: nat): (r: nat)
    requires 0 < k
    ensures r < k
  {
    if n < k then n else Residue(n - k, k)
  }

  lemma {:induction false} HitsShift(i: nat, n: nat, k: nat)
    requires 0 < k
    ensures Hits(i + k, n + k, k) == Hits(i, n, k)
    decreases n - i
  {
    if i < n { HitsShift(i + k, n, k); }
  }

  lemma {:induction false} HitsResidue(i: nat, n: nat, k: nat)
    requires i < k
    ensures Hits(i, n, k) <==> i == Residue(n, k)
    decreases n
  {
    if n >= k {
      HitsShift(i, n - k, k);
      HitsResidue(i, n - k, k);
    }
  }

  lemma {:induction false} StrideSnoc<T>(s: seq<T>, x: T, i: nat, k: nat)
    requires 0 < k
    ensures Stride(s + [x], i, k) == Stride(s, i, k) + if Hits(i, |s|, k) then [x] else []
    decreases |s| + 1 - i
  {
    if i < |s| { StrideSnoc(s, x, i + k, k); }
  }

  function Strides<T>(s: seq<T>, k: nat, n: nat): (r: seq<seq<T>>)
    requires 0 < k
    ensures |r| == n && forall i :: 0 <= i < n ==> r[i] == Stride(s, i, k)
  {
    seq(n, (i: nat) => Stride(s, i, k))
  }

  /** The first `n` strides one after the other. */
  function Dealt<T>(s: seq<T>, k: nat, n: nat): seq<T>
    requires 0 < k
  {
    if n == 0 then [] else Dealt(s, k, n - 1) + Stride(s, n - 1, k)
  }

  lemma {:induction false} DealtIsFlatten<T>(s: seq<T>, k: nat, n: nat)
    requires 0 < k
    ensures Flatten(Strides(s, k, n)) == Dealt(s, k, n)
  {
    if n > 0 {
      DealtIsFlatten(s, k, n - 1);
      assert Strides(s, k, n)[..n - 1] == Strides(s, k, n - 1);
    }
  }

  /** The stride that `x` joins is the one of its remainder. */
  lemma StrideGains<T>(s: seq<T>, x: T, i: nat, k: nat)
    requires i < k
    ensures Stride(s + [x], i, k) == Stride(s, i, k) + if i == Residue(|s|, k) then [x] else []
  {
    StrideSnoc(s, x, i, k);
    HitsResidue(i, |s|, k);
  }

  lemma DealtSnoc<T>(s: seq<T>, x: T, k: nat, n: nat)
    requires 0 < k && n <= k
    ensures multiset(Dealt(s + [x], k, n))
         == multiset(Dealt(s, k, n)) + if Residue(|s|, k) < n then multiset{x} else multiset{}
  {
    forall i: nat | i < k ensures Joins(s, x, k, s + [x], Residue(|s|, k), i) {
      StrideGains(s, x, i, k);
    }
    DealtGains(s, x, k, n, s + [x], Residue(|s|, k));
  }

  /** Stride `i` of the longer sequence `more`: only stride `residue` has gained `x`. */
  ghost predicate Joins<T>(s: seq<T>, x: T, k: nat, more: seq<T>, residue: nat, i: nat)
    requires 0 < k
  {
    Stride(more, i, k) == Stride(s, i, k) + if i == residue then [x] else []
  }

  lemma {:induction false} DealtGains<T>(s: seq<T>, x: T, k: nat, n: nat, more: seq<T>, residue: nat)
    requires 0 < k && n <= k && forall i: nat :: i < k ==> Joins(s, x, k, more, residue, i)
    ensures multiset(Dealt(more, k, n)) == multiset(Dealt(s, k, n)) + if residue < n then multiset{x} else multiset{}
  {
    if n > 0 {
      var m: nat := n - 1;
      DealtGains(s, x, k, m, more, residue);
      assert Joins(s, x, k, more, residue, m);
      AddOne(Dealt(more, k, m), Dealt(s, k, m), Stride(s, m, k), x, residue < m, residue == m,
             Dealt(more, k, n), Dealt(s, k, n));
    }
  }

  lemma AddOne<T>(a': seq<T>, a: seq<T>, b: seq<T>, x: T, early: bool, late: bool, all': seq<T>, all: seq<T>)
    requires multiset(a') == multiset(a) + if early then multiset{x} else multiset{}
    requires !(early && late)
    requires all' == a' + (b + if late then [x] else []) && all == a + b
    ensures multiset(all') == multiset(all) + if early || late then multiset{x} else multiset{}
  {
    assert multiset(b + if late then [x] else []) == multiset(b) + if late then multiset{x} else multiset{};
  }

  lemma {:induction false} DealtKeepsAll<T>(s: seq<T>, k: nat)
    requires 0 < k
    ensures multiset(Dealt(s, k, k)) == multiset(s)
  {
    if s == [] {
      DealtNothing<T>(k, k);
    } else {
      var rest, x := s[..|s| - 1], s[|s| - 1];
      assert s == rest + [x];
      DealtKeepsAll(rest, k);
      DealtSnoc(rest, x, k, k);
    }
  }

  lemma {:induction false} DealtNothing<T>(k: nat, n: nat)
    requires 0 < k
    ensures Dealt<T>([], k, n) == []
  {
    if n > 0 { DealtNothing<T>(k, n - 1); }
  }

  /** Striding a list `k` ways keeps every element exactly once. */
  lemma StridesKeepAll<T>(s: seq<T>, k: nat)
    requires 0 < k
    ensures multiset(Flatten(Strides(s, k, k))) == multiset(s)
  {
    DealtIsFlatten(s, k, k);
    DealtKeepsAll(s, k);
  }

  // ---------------------------------------------------------------- blocks of any length

  lemma {:induction false} FlattenPrefixLength<T>(blocks: seq<seq<T>>, j: nat)
    requires j <= |blocks|
    ensures |Flatten(blocks[..j])| <= |Flatten(blocks)|
  {
    assert blocks == blocks[..j] + blocks[j..];
    FlattenAppend(blocks[..j], blocks[j..]);
  }

  /** Block `j` starts where the blocks before it end. */
  lemma BlockAtOffset<T>(blocks: seq<seq<T>>, j: nat)
    requires j < |blocks|
    ensures |Flatten(blocks[..j])| + |blocks[j]| == |Flatten(blocks[..j + 1])| <= |Flatten(blocks)|
    ensures Slice(Flatten(blocks), |Flatten(blocks[..j])|, |Flatten(blocks[..j + 1])|) == blocks[j]
  {
    assert blocks[..j + 1][..j] == blocks[..j];
    assert blocks == blocks[..j + 1] + blocks[j + 1..];
    FlattenAppend(blocks[..j + 1], blocks[j + 1..]);
  }

  lemma {:induction false} FlattenWithout<T>(blocks: seq<seq<T>>, j: nat)
    requires j < |blocks|
    ensures multiset(Flatten(blocks)) == multiset(Flatten(blocks[..j] + blocks[j + 1..])) + multiset(blocks[j])
    ensures multiset(blocks) == multiset(blocks[..j] + blocks[j + 1..]) + multiset{blocks[j]}
  {
    var before, after := blocks[..j], blocks[j + 1..];
    assert blocks == before + ([blocks[j]] + after);
    FlattenAppend(before, [blocks[j]] + after);
    FlattenAppend([blocks[j]], after);
    FlattenAppend(before, after);
    assert [blocks[j]][..0] == [];
    assert Flatten([blocks[j]]) == Flatten([blocks[j]][..0]) + blocks[j];
  }

  /** The order of the blocks does not change what they hold. */
  lemma {:induction false} FlattenMultiset<T>(x: seq<seq<T>>, y: seq<seq<T>>)
    requires multiset(x) == multiset(y)
    ensures multiset(Flatten(x)) == multiset(Flatten(y))
    decreases |x|
  {
    if x == [] {
      assert |multiset(y)| == |y|;
    } else {
      var m := |x| - 1;
      assert x[m] in multiset(y);
      var j :| 0 <= j < |y| && y[j] == x[m];
      FlattenWithout(x, m);
      FlattenWithout(y, j);
      assert x[..m] + x[m + 1..] == x[..m];
      assert multiset(x[..m]) == multiset(x) - multiset{x[m]};
      assert multiset(y[..j] + y[j + 1..]) == multiset(y) - multiset{y[j]};
      FlattenMultiset(x[..m], y[..j] + y[j + 1..]);
    }
  }

  /** `Residue` is `%`. */
  lemma {:induction false} ResidueIsMod(n: nat, k: nat)
    requires 0 < k
    ensures Residue(n, k) == n % k
  {
    if n >= k {
      ResidueIsMod(n - k, k);
      assert n == k * (n / k) + n % k;
      assert n - k == k * ((n - k) / k) + (n - k) % k;
      SameRemainder(k, n / k - 1, n % k, (n - k) / k, (n - k) % k);
    }
  }

  lemma SameRemainder(k: int, p: int, r: int, q: int, s: int)
    requires 0 <= r < k && 0 <= s < k && k * p + r == k * q + s
    ensures r == s
  {
    assert k * (p - q) == s - r;
    assert p - q >= 1 ==> k * (p - q) >= k;
    assert p - q <= -1 ==> k * (p - q) <= -k;
  }

  lemma SameQuotient(k: int, p: int, r: int, q: int, s: int)
    requires 0 <= r < k && 0 <= s < k && k * p + r == k * q + s
    ensures p == q
  {
    SameRemainder(k, p, r, q, s);
    assert k * (p - q) == 0;
  }

  lemma {:induction false} ModOfMultiple(q: nat, k: nat)
    requires 0 < k
    ensures (k * q) % k == 0
  {
    var n := k * q;
    assert n == k * (n / k) + n % k;
    SameRemainder(k, q, 0, n / k, n % k);
  }
}
