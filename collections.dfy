/** Sequence and map helpers standing in for the Rust iterator adapters the sources use. */
module Collections {

  /** `0..n` collected into a vector. */
  function Range(n: nat): (r: seq<nat>)
    ensures |r| == n
    ensures forall i :: 0 <= i < n ==> r[i] == i
  {
    seq(n, i requires 0 <= i < n => i)
  }

  lemma RangeMembers(n: nat)
    ensures forall x: int :: x in Range(n) <==> 0 <= x < n
    ensures forall x: int :: x in multiset(Range(n)) <==> 0 <= x < n
  {
    forall x: int | 0 <= x < n ensures x in Range(n) { assert Range(n)[x] == x; }
    forall x: int ensures x in multiset(Range(n)) <==> x in Range(n) { }
  }

  /** `s` written out `n` times in a row. */
  function Repeat<T>(s: seq<T>, n: nat): (r: seq<T>)
    ensures |r| == |s| * n
  {
    if n == 0 then [] else Repeat(s, n - 1) + s
  }

  /** The element at `k` of `s` repeated is the element at `k % |s|` of `s`. */
  lemma {:induction false} RepeatAt<T>(s: seq<T>, n: nat, k: nat)
    requires k < |s| * n
    ensures Repeat(s, n)[k] == s[k % |s|]
  {
    assert n > 0;
    var init := Repeat(s, n - 1);
    assert Repeat(s, n) == init + s;
    if k < |init| {
      RepeatAt(s, n - 1, k);
    } else {
      ModUnique(k, |s|, n - 1);
    }
  }

  /** Division characterised by its quotient interval. */
  lemma DivUnique(k: nat, m: nat, q: nat)
    requires m > 0 && q * m <= k < q * m + m
    ensures k / m == q && k % m == k - q * m
  {
    var d, r := k / m, k % m;
    assert k == d * m + r && 0 <= r < m;
    assert (d + 1) * m == d * m + m && (q + 1) * m == q * m + m;
    if d < q {
      MulLeq(d + 1, q, m);
      assert false;
    }
    if d > q {
      MulLeq(q + 1, d, m);
      assert false;
    }
  }

  lemma ModUnique(k: nat, m: nat, q: nat)
    requires m > 0 && m * q <= k < m * q + m
    ensures k % m == k - m * q
  {
    assert m * q == q * m;
    DivUnique(k, m, q);
  }

  lemma MulLeq(a: nat, b: nat, m: nat)
    requires a <= b
    ensures a * m <= b * m
  {
  }

  /** The concatenation of a sequence of sequences, as Rust's `flatten`. */
  function Flatten<T>(ss: seq<seq<T>>): (r: seq<T>)
    decreases |ss|
  {
    if |ss| == 0 then [] else ss[0] + Flatten(ss[1..])
  }

  lemma {:induction false} FlattenAppend<T>(a: seq<seq<T>>, b: seq<seq<T>>)
    ensures Flatten(a + b) == Flatten(a) + Flatten(b)
    decreases |a|
  {
    if |a| == 0 {
      assert a + b == b;
    } else {
      assert (a + b)[1..] == a[1..] + b;
      FlattenAppend(a[1..], b);
    }
  }

  /** Collecting key-value pairs into a `HashMap`: a later pair for the same key wins. */
  function ToMap<K, V>(pairs: seq<(K, V)>): (m: map<K, V>)
    decreases |pairs|
  {
    if |pairs| == 0 then map[]
    else ToMap(pairs[..|pairs| - 1])[pairs[|pairs| - 1].0 := pairs[|pairs| - 1].1]
  }

  /** The keys of the collected map are the keys of the pairs, and each key maps to the value
      of its LAST pair. */
  lemma {:induction false} ToMapLastWins<K, V>(pairs: seq<(K, V)>)
    ensures ToMap(pairs).Keys == set i | 0 <= i < |pairs| :: pairs[i].0
    ensures forall i :: 0 <= i < |pairs| ==>
              (forall j :: i < j < |pairs| ==> pairs[j].0 != pairs[i].0) ==>
              ToMap(pairs)[pairs[i].0] == pairs[i].1
    decreases |pairs|
  {
    if |pairs| > 0 {
      var init := pairs[..|pairs| - 1];
      ToMapLastWins(init);
      assert forall i :: 0 <= i < |init| ==> init[i] == pairs[i];
      var ks := set i | 0 <= i < |pairs| :: pairs[i].0;
      var ks0 := set i | 0 <= i < |init| :: init[i].0;
      assert ks == ks0 + {pairs[|pairs| - 1].0} by {
        forall x | x in ks ensures x in ks0 + {pairs[|pairs| - 1].0} {
          var i :| 0 <= i < |pairs| && pairs[i].0 == x;
          if i < |init| { assert init[i].0 == x; }
        }
      }
    }
  }

  /** Whether `s` lists each of its elements once. */
  predicate NoDuplicates<T(==)>(s: seq<T>) {
    forall i, j :: 0 <= i < j < |s| ==> s[i] != s[j]
  }

  /** An index below `len * n` lies in one of the `len` blocks of `n`. */
  lemma DivBelow(k: nat, n: nat, len: nat)
    requires k < len * n
    ensures n > 0 && k / n < len
  {
    if k / n >= len {
      MulLeq(len, k / n, n);
      assert false;
    }
  }

  /** The position of the first `x` in `s`, or `|s|` when there is none. */
  function IndexOf<T(==)>(s: seq<T>, x: T): (k: nat)
    ensures k <= |s|
    ensures k < |s| ==> s[k] == x
    ensures x in s ==> k < |s|
    ensures forall j :: 0 <= j < k ==> s[j] != x
  {
    if |s| == 0 then 0
    else if s[0] == x then 0
    else 1 + IndexOf(s[1..], x)
  }

  /** Every index in `ix` is below `n`. */
  predicate Below(ix: seq<nat>, n: nat)
  {
    forall x :: x in ix ==> x < n
  }

  /** The elements of `xs` at the indices `ix`, in the order `ix` lists them. */
  function Gather<T>(xs: seq<T>, ix: seq<nat>): (r: seq<T>)
    requires Below(ix, |xs|)
    ensures |r| == |ix|
  {
    if |ix| == 0 then []
    else
      assert ix[0] in ix;
      assert forall x :: x in ix[1..] ==> x in ix;
      [xs[ix[0]]] + Gather(xs, ix[1..])
  }

  lemma {:induction false} GatherAt<T>(xs: seq<T>, ix: seq<nat>, k: nat)
    requires Below(ix, |xs|) && k < |ix|
    ensures ix[k] < |xs| && Gather(xs, ix)[k] == xs[ix[k]]
    decreases k
  {
    assert ix[k] in ix;
    if k > 0 {
      assert forall x :: x in ix[1..] ==> x in ix;
      GatherAt(xs, ix[1..], k - 1);
    }
  }

  lemma {:induction false} GatherAppend<T>(xs: seq<T>, a: seq<nat>, b: seq<nat>)
    requires Below(a, |xs|) && Below(b, |xs|)
    ensures Below(a + b, |xs|)
    ensures Gather(xs, a + b) == Gather(xs, a) + Gather(xs, b)
    decreases |a|
  {
    forall x | x in a + b ensures x < |xs| {
      assert x in a || x in b;
    }
    if |a| == 0 {
      assert a + b == b;
    } else {
      assert forall x :: x in a[1..] ==> x in a;
      GatherAppend(xs, a[1..], b);
      assert a[0] in a;
      assert (a + b)[0] == a[0] && (a + b)[1..] == a[1..] + b;
      assert Gather(xs, a + b) == [xs[a[0]]] + Gather(xs, a[1..] + b);
    }
  }

  /** Taking out the element at `p` takes one of it out of the multiset. */
  lemma MultisetWithout<T>(s: seq<T>, p: nat)
    requires p < |s|
    ensures multiset(s[..p] + s[p + 1..]) == multiset(s) - multiset{s[p]}
  {
    assert s == s[..p] + [s[p]] + s[p + 1..];
    assert multiset(s) == multiset(s[..p]) + multiset{s[p]} + multiset(s[p + 1..]);
  }

  /** Gathering along indices with the one at `p` taken out. */
  lemma GatherWithout<T>(xs: seq<T>, jx: seq<nat>, p: nat)
    requires Below(jx, |xs|) && p < |jx|
    ensures Below(jx[..p] + jx[p + 1..], |xs|) && jx[p] < |xs|
    ensures multiset(Gather(xs, jx)) == multiset(Gather(xs, jx[..p] + jx[p + 1..])) + multiset{xs[jx[p]]}
  {
    var front, back := jx[..p], jx[p + 1..];
    assert jx == front + [jx[p]] + back;
    assert jx[p] in jx;
    forall x | x in front ensures x < |xs| { assert x in jx; }
    forall x | x in back ensures x < |xs| { assert x in jx; }
    GatherAppend(xs, front, [jx[p]]);
    GatherAppend(xs, front + [jx[p]], back);
    GatherAppend(xs, front, back);
  }

  /** Gathering along two orders of the same indices gives the same elements. */
  lemma {:induction false} GatherPermutes<T>(xs: seq<T>, ix: seq<nat>, jx: seq<nat>)
    requires Below(ix, |xs|) && Below(jx, |xs|)
    requires multiset(ix) == multiset(jx)
    ensures multiset(Gather(xs, ix)) == multiset(Gather(xs, jx))
    decreases |ix|
  {
    if |ix| == 0 {
      assert |jx| == |multiset(jx)| == 0;
    } else {
      var i := ix[0];
      assert i in multiset(jx) by { assert i in ix; }
      var p :| 0 <= p < |jx| && jx[p] == i;
      var rest := jx[..p] + jx[p + 1..];
      assert ix[..0] + ix[1..] == ix[1..];
      assert Below(rest, |xs|) && Below(ix[1..], |xs|) && multiset(ix[1..]) == multiset(rest) by {
        MultisetWithout(jx, p);
        MultisetWithout(ix, 0);
        GatherWithout(xs, jx, p);
        GatherWithout(xs, ix, 0);
      }
      GatherPermutes(xs, ix[1..], rest);
      GatherPermutesStep(xs, ix, jx, p);
    }
  }

  /** The inductive step: both sides gather `xs[ix[0]]` once more. */
  lemma GatherPermutesStep<T>(xs: seq<T>, ix: seq<nat>, jx: seq<nat>, p: nat)
    requires Below(ix, |xs|) && Below(jx, |xs|) && |ix| > 0 && p < |jx| && jx[p] == ix[0]
    requires Below(ix[1..], |xs|) && Below(jx[..p] + jx[p + 1..], |xs|)
    requires multiset(Gather(xs, ix[1..])) == multiset(Gather(xs, jx[..p] + jx[p + 1..]))
    ensures multiset(Gather(xs, ix)) == multiset(Gather(xs, jx))
  {
    GatherWithout(xs, jx, p);
    assert Gather(xs, ix) == [xs[ix[0]]] + Gather(xs, ix[1..]);
  }

  /** Gathering along a permutation of `0..|xs|` rearranges `xs`. */
  lemma GatherPermutation<T>(xs: seq<T>, ix: seq<nat>)
    requires multiset(ix) == multiset(Range(|xs|))
    ensures Below(ix, |xs|)
    ensures multiset(Gather(xs, ix)) == multiset(xs)
  {
    RangeMembers(|xs|);
    assert Below(Range(|xs|), |xs|);
    forall x | x in ix ensures x < |xs| { assert x in multiset(ix); }
    GatherPermutes(xs, ix, Range(|xs|));
    var g := Gather(xs, Range(|xs|));
    forall k | 0 <= k < |xs| ensures g[k] == xs[k] { GatherAt(xs, Range(|xs|), k); }
    assert g == xs;
  }
}
