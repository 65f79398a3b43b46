/**
 The list algorithm of `calculateDifferences`, which both component variants
 share, and its reference definition: which keys end up `added`, `different`
 and `removed`, given the key lists the variant's classifier selected.
 */
module Differences {
  import opened JsValues

  /** `Array.prototype.indexOf`: the first position of `x`, or -1. */
  function IndexOf(xs: seq<string>, x: string): (i: int)
    ensures -1 <= i < |xs|
    ensures i == -1 <==> x !in xs
    ensures 0 <= i ==> xs[i] == x && x !in xs[..i]
  {
    if xs == [] then -1
    else if xs[0] == x then 0
    else
      var j := IndexOf(xs[1..], x);
      if j == -1 then -1
      else
        assert xs[..j + 1] == [xs[0]] + xs[1..][..j];
        j + 1
  }

  /** `xs.splice(i, 1)`: `xs` without its element at position `i`. */
  function Splice(xs: seq<string>, i: nat): (r: seq<string>)
    requires i < |xs|
    ensures |r| == |xs| - 1
  {
    xs[..i] + xs[i + 1..]
  }

  /** The three lists `calculateDifferences` returns. */
  datatype Delta = Delta(added: seq<string>, different: seq<string>, removed: seq<string>)

  /** The `changes` flag: some list is non-empty. */
  predicate Changes(d: Delta)
  {
    |d.added| + |d.removed| + |d.different| > 0
  }

  /** One turn of the `prevKeys.forEach` loop. */
  function Visit(d: Delta, key: string, prev: Props, curr: Props): Delta
  {
    var index := IndexOf(d.added, key);
    if index >= 0 then
      Delta(Splice(d.added, index),
            if Get(curr, key) != Get(prev, key) then d.different + [key] else d.different,
            d.removed)
    else if Get(curr, key) == Undef then
      Delta(d.added, d.different, d.removed + [key])
    else
      d
  }

  /**
   The whole loop: `added` starts as a copy of `currKeys`, and the previous
   keys are visited in order.
   */
  function Scan(prevKeys: seq<string>, currKeys: seq<string>, prev: Props, curr: Props): Delta
    decreases |prevKeys|
  {
    if prevKeys == [] then Delta(currKeys, [], [])
    else Visit(Scan(prevKeys[..|prevKeys| - 1], currKeys, prev, curr), prevKeys[|prevKeys| - 1], prev, curr)
  }

  // ---------------------------------------------------------------------------
  // Reference definitions: the lists as order-preserving filters.

  /** The elements of `xs` that are not in `s`, in order. */
  function Minus(xs: seq<string>, s: set<string>): (r: seq<string>)
    ensures forall x :: x in r <==> x in xs && x !in s
  {
    if xs == [] then []
    else (if xs[0] in s then [] else [xs[0]]) + Minus(xs[1..], s)
  }

  /** The elements of `xs` that are in `s`, in order. */
  function Keep(xs: seq<string>, s: set<string>): (r: seq<string>)
    ensures forall x :: x in r <==> x in xs && x in s
  {
    if xs == [] then []
    else (if xs[0] in s then [xs[0]] else []) + Keep(xs[1..], s)
  }

  /** The previous keys that are current keys and whose values are `!==`. */
  function Changed(keys: seq<string>, current: set<string>, prev: Props, curr: Props): (r: seq<string>)
    ensures forall x :: x in r <==> x in keys && x in current && Get(curr, x) != Get(prev, x)
    decreases |keys|
  {
    if keys == [] then []
    else
      var k := keys[|keys| - 1];
      assert keys == keys[..|keys| - 1] + [k];
      Changed(keys[..|keys| - 1], current, prev, curr)
        + (if k in current && Get(curr, k) != Get(prev, k) then [k] else [])
  }

  /** The previous keys that are not current keys and read `undefined` now. */
  function Dropped(keys: seq<string>, current: set<string>, curr: Props): (r: seq<string>)
    ensures forall x :: x in r <==> x in keys && x !in current && Get(curr, x) == Undef
    decreases |keys|
  {
    if keys == [] then []
    else
      var k := keys[|keys| - 1];
      assert keys == keys[..|keys| - 1] + [k];
      Dropped(keys[..|keys| - 1], current, curr)
        + (if k !in current && Get(curr, k) == Undef then [k] else [])
  }

  // ---------------------------------------------------------------------------
  // Lemmas about the filters.

  lemma {:induction false} DistinctMinus(xs: seq<string>, s: set<string>)
    requires Distinct(xs)
    ensures Distinct(Minus(xs, s))
  {
    if xs != [] {
      assert Distinct(xs[1..]) by {
        forall i, j | 0 <= i < j < |xs[1..]| ensures xs[1..][i] != xs[1..][j] {
          assert xs[1..][i] == xs[i + 1] && xs[1..][j] == xs[j + 1];
        }
      }
      DistinctMinus(xs[1..], s);
      assert xs[0] !in xs[1..] by {
        forall j | 0 <= j < |xs[1..]| ensures xs[1..][j] != xs[0] {
          assert xs[1..][j] == xs[j + 1];
        }
      }
      DistinctCons(xs[0], Minus(xs[1..], s));
    }
  }

  lemma {:induction false} DistinctKeep(xs: seq<string>, s: set<string>)
    requires Distinct(xs)
    ensures Distinct(Keep(xs, s))
  {
    if xs != [] {
      assert Distinct(xs[1..]) by {
        forall i, j | 0 <= i < j < |xs[1..]| ensures xs[1..][i] != xs[1..][j] {
          assert xs[1..][i] == xs[i + 1] && xs[1..][j] == xs[j + 1];
        }
      }
      DistinctKeep(xs[1..], s);
      assert xs[0] !in xs[1..] by {
        forall j | 0 <= j < |xs[1..]| ensures xs[1..][j] != xs[0] {
          assert xs[1..][j] == xs[j + 1];
        }
      }
      DistinctCons(xs[0], Keep(xs[1..], s));
    }
  }

  /** Putting a fresh element in front keeps a list duplicate-free (also `[]` in front). */
  lemma DistinctCons(x: string, ys: seq<string>)
    requires Distinct(ys) && x !in ys
    ensures Distinct([x] + ys) && Distinct([] + ys)
  {
    assert [] + ys == ys;
    DistinctConcat([x], ys);
  }

  lemma DistinctConcat(xs: seq<string>, ys: seq<string>)
    requires Distinct(xs) && Distinct(ys)
    requires forall x | x in xs :: x !in ys
    ensures Distinct(xs + ys)
  {
    forall i, j | 0 <= i < j < |xs + ys| ensures (xs + ys)[i] != (xs + ys)[j] {
      if j < |xs| {
        assert (xs + ys)[i] == xs[i] && (xs + ys)[j] == xs[j];
      } else if i < |xs| {
        assert (xs + ys)[i] == xs[i] && (xs + ys)[j] == ys[j - |xs|];
        assert xs[i] in xs && ys[j - |xs|] in ys;
      } else {
        assert (xs + ys)[i] == ys[i - |xs|] && (xs + ys)[j] == ys[j - |xs|];
      }
    }
  }

  lemma {:induction false} MinusNothing(xs: seq<string>)
    ensures Minus(xs, {}) == xs
  {
    if xs != [] {
      MinusNothing(xs[1..]);
      assert xs == [xs[0]] + xs[1..];
    }
  }

  /** Excluding an element the list does not hold changes nothing. */
  lemma {:induction false} MinusAbsent(xs: seq<string>, s: set<string>, x: string)
    requires x !in xs
    ensures Minus(xs, s + {x}) == Minus(xs, s)
  {
    if xs != [] {
      assert x !in xs[1..] by {
        forall y | y in xs[1..] ensures y in xs {
        }
      }
      MinusAbsent(xs[1..], s, x);
    }
  }

  lemma DistinctTail(xs: seq<string>)
    requires Distinct(xs) && xs != []
    ensures Distinct(xs[1..]) && xs[0] !in xs[1..]
  {
    var tail := xs[1..];
    forall i, j | 0 <= i < j < |tail| ensures tail[i] != tail[j] {
      assert tail[i] == xs[i + 1] && tail[j] == xs[j + 1];
    }
    forall j | 0 <= j < |tail| ensures tail[j] != xs[0] {
      assert tail[j] == xs[j + 1];
    }
  }

  /** Searching behind a different head element. */
  lemma IndexOfCons(a: string, m: seq<string>, x: string)
    requires a != x && x in m
    ensures IndexOf([a] + m, x) == IndexOf(m, x) + 1
  {
    assert ([a] + m)[1..] == m;
  }

  lemma SpliceCons(a: string, m: seq<string>, j: nat)
    requires j < |m|
    ensures Splice([a] + m, j + 1) == [a] + Splice(m, j)
  {
    assert ([a] + m)[..j + 1] == [a] + m[..j];
    assert ([a] + m)[j + 2..] == m[j + 1..];
  }

  /** Unfolding `Minus` once. */
  lemma MinusCons(xs: seq<string>, s: set<string>)
    requires xs != []
    ensures xs[0] in s ==> Minus(xs, s) == Minus(xs[1..], s)
    ensures xs[0] !in s ==> Minus(xs, s) == [xs[0]] + Minus(xs[1..], s)
  {
  }

  /** `splice(indexOf(x), 1)` on a filtered duplicate-free list excludes `x` as well. */
  lemma {:induction false} SpliceMinus(xs: seq<string>, s: set<string>, x: string)
    requires Distinct(xs) && x in xs && x !in s
    ensures 0 <= IndexOf(Minus(xs, s), x)
    ensures Splice(Minus(xs, s), IndexOf(Minus(xs, s), x)) == Minus(xs, s + {x})
  {
    DistinctTail(xs);
    if xs[0] == x {
      SpliceMinusHead(xs, s);
    } else {
      var tail := xs[1..];
      assert x in tail by {
        var i :| 0 <= i < |xs| && xs[i] == x;
        assert tail[i - 1] == x;
      }
      SpliceMinus(tail, s, x);
      MinusCons(xs, s);
      MinusCons(xs, s + {x});
      if xs[0] !in s {
        var mt := Minus(tail, s);
        IndexOfCons(xs[0], mt, x);
        SpliceCons(xs[0], mt, IndexOf(mt, x));
      }
    }
  }

  lemma SpliceMinusHead(xs: seq<string>, s: set<string>)
    requires Distinct(xs) && xs != [] && xs[0] !in s
    ensures IndexOf(Minus(xs, s), xs[0]) == 0
    ensures Splice(Minus(xs, s), 0) == Minus(xs, s + {xs[0]})
  {
    DistinctTail(xs);
    MinusAbsent(xs[1..], s, xs[0]);
    MinusCons(xs, s);
    MinusCons(xs, s + {xs[0]});
  }

  // ---------------------------------------------------------------------------
  // The algorithm against the reference.

  /**
   On duplicate-free key lists (which `Object.keys` always yields) the loop
   computes exactly the three filters: `added` is the current keys not among
   the previous ones, `different` the previous keys still present with a value
   that is `!==`, `removed` the previous keys gone and reading `undefined`.
   */
  lemma {:induction false} ScanIsReference(prevKeys: seq<string>, currKeys: seq<string>, prev: Props, curr: Props)
    requires Distinct(prevKeys) && Distinct(currKeys)
    ensures Scan(prevKeys, currKeys, prev, curr)
         == Delta(Minus(currKeys, Elems(prevKeys)),
                  Changed(prevKeys, Elems(currKeys), prev, curr),
                  Dropped(prevKeys, Elems(currKeys), curr))
    decreases |prevKeys|
  {
    if prevKeys == [] {
      MinusNothing(currKeys);
      assert Elems(prevKeys) == {};
    } else {
      var n := |prevKeys|;
      var init := prevKeys[..n - 1];
      var key := prevKeys[n - 1];
      assert prevKeys == init + [key];
      DistinctInit(prevKeys);
      ScanIsReference(init, currKeys, prev, curr);
      var d0 := Scan(init, currKeys, prev, curr);
      VisitAdded(d0, init, key, currKeys, prev, curr);
      VisitDifferent(d0, init, key, currKeys, prev, curr);
      VisitRemoved(d0, init, key, currKeys, prev, curr);
    }
  }

  /** One turn of the loop on `added`: the visited key is filtered out too. */
  lemma VisitAdded(d0: Delta, init: seq<string>, key: string, currKeys: seq<string>, prev: Props, curr: Props)
    requires Distinct(currKeys) && key !in init
    requires d0.added == Minus(currKeys, Elems(init))
    ensures Visit(d0, key, prev, curr).added == Minus(currKeys, Elems(init + [key]))
  {
    assert Elems(init + [key]) == Elems(init) + {key};
    if key in currKeys {
      SpliceMinus(currKeys, Elems(init), key);
    } else {
      MinusAbsent(currKeys, Elems(init), key);
      assert key !in Minus(currKeys, Elems(init));
    }
  }

  /** One turn of the loop on `different`. */
  lemma VisitDifferent(d0: Delta, init: seq<string>, key: string, currKeys: seq<string>, prev: Props, curr: Props)
    requires key !in init
    requires d0.added == Minus(currKeys, Elems(init))
    requires d0.different == Changed(init, Elems(currKeys), prev, curr)
    ensures Visit(d0, key, prev, curr).different == Changed(init + [key], Elems(currKeys), prev, curr)
  {
    assert (init + [key])[..|init + [key]| - 1] == init;
    assert key in d0.added <==> key in currKeys;
  }

  /** One turn of the loop on `removed`. */
  lemma VisitRemoved(d0: Delta, init: seq<string>, key: string, currKeys: seq<string>, prev: Props, curr: Props)
    requires key !in init
    requires d0.added == Minus(currKeys, Elems(init))
    requires d0.removed == Dropped(init, Elems(currKeys), curr)
    ensures Visit(d0, key, prev, curr).removed == Dropped(init + [key], Elems(currKeys), curr)
  {
    assert (init + [key])[..|init + [key]| - 1] == init;
    assert key in d0.added <==> key in currKeys;
  }

  /** Dropping the last element of a duplicate-free list. */
  lemma DistinctInit(xs: seq<string>)
    requires Distinct(xs) && xs != []
    ensures Distinct(xs[..|xs| - 1]) && xs[|xs| - 1] !in xs[..|xs| - 1]
  {
    var init := xs[..|xs| - 1];
    forall i, j | 0 <= i < j < |init| ensures init[i] != init[j] {
      assert init[i] == xs[i] && init[j] == xs[j];
    }
    forall j | 0 <= j < |init| ensures init[j] != xs[|xs| - 1] {
      assert init[j] == xs[j];
    }
  }

  /**
   The observable meaning of `calculateDifferences` on duplicate-free key lists:
   membership in each list, the lists' pairwise disjointness, no list holding a
   key twice, and `changes` exactly when some key was added, changed or removed.
   */
  lemma DiffMembership(prevKeys: seq<string>, currKeys: seq<string>, prev: Props, curr: Props)
    requires Distinct(prevKeys) && Distinct(currKeys)
    ensures var d := Scan(prevKeys, currKeys, prev, curr);
      && (forall k :: k in d.added <==> k in currKeys && k !in prevKeys)
      && (forall k :: k in d.different <==> k in prevKeys && k in currKeys && Get(curr, k) != Get(prev, k))
      && (forall k :: k in d.removed <==> k in prevKeys && k !in currKeys && Get(curr, k) == Undef)
      && (forall k | k in d.added :: k !in d.different && k !in d.removed)
      && (forall k | k in d.different :: k !in d.removed)
      && Distinct(d.added) && Distinct(d.different) && Distinct(d.removed)
      && (Changes(d) <==> exists k :: k in d.added || k in d.different || k in d.removed)
  {
    ScanIsReference(prevKeys, currKeys, prev, curr);
    var d := Scan(prevKeys, currKeys, prev, curr);
    DistinctMinus(currKeys, Elems(prevKeys));
    DistinctChanged(prevKeys, Elems(currKeys), prev, curr);
    DistinctDropped(prevKeys, Elems(currKeys), curr);
    if Changes(d) {
      if |d.added| > 0 { assert d.added[0] in d.added; }
      else if |d.different| > 0 { assert d.different[0] in d.different; }
      else { assert d.removed[0] in d.removed; }
    }
  }

  lemma {:induction false} DistinctChanged(keys: seq<string>, current: set<string>, prev: Props, curr: Props)
    requires Distinct(keys)
    ensures Distinct(Changed(keys, current, prev, curr))
    decreases |keys|
  {
    if keys != [] {
      var init := keys[..|keys| - 1];
      var k := keys[|keys| - 1];
      assert Distinct(init) by {
        forall i, j | 0 <= i < j < |init| ensures init[i] != init[j] {
          assert init[i] == keys[i] && init[j] == keys[j];
        }
      }
      assert k !in init by {
        forall j | 0 <= j < |init| ensures init[j] != k {
          assert init[j] == keys[j];
        }
      }
      DistinctChanged(init, current, prev, curr);
      DistinctConcat(Changed(init, current, prev, curr),
                     if k in current && Get(curr, k) != Get(prev, k) then [k] else []);
    }
  }

  lemma {:induction false} DistinctDropped(keys: seq<string>, current: set<string>, curr: Props)
    requires Distinct(keys)
    ensures Distinct(Dropped(keys, current, curr))
    decreases |keys|
  {
    if keys != [] {
      var init := keys[..|keys| - 1];
      var k := keys[|keys| - 1];
      assert Distinct(init) by {
        forall i, j | 0 <= i < j < |init| ensures init[i] != init[j] {
          assert init[i] == keys[i] && init[j] == keys[j];
        }
      }
      assert k !in init by {
        forall j | 0 <= j < |init| ensures init[j] != k {
          assert init[j] == keys[j];
        }
      }
      DistinctDropped(init, current, curr);
      DistinctConcat(Dropped(init, current, curr),
                     if k !in current && Get(curr, k) == Undef then [k] else []);
    }
  }

  lemma {:induction false} MinusAll(xs: seq<string>, s: set<string>)
    requires forall x | x in xs :: x in s
    ensures Minus(xs, s) == []
  {
    if xs != [] {
      MinusAll(xs[1..], s);
    }
  }

  lemma {:induction false} ChangedSelf(keys: seq<string>, current: set<string>, p: Props)
    ensures Changed(keys, current, p, p) == []
    decreases |keys|
  {
    if keys != [] {
      ChangedSelf(keys[..|keys| - 1], current, p);
    }
  }

  lemma {:induction false} DroppedNone(keys: seq<string>, current: set<string>, curr: Props)
    requires forall x | x in keys :: x in current
    ensures Dropped(keys, current, curr) == []
    decreases |keys|
  {
    if keys != [] {
      assert keys[|keys| - 1] in keys;
      DroppedNone(keys[..|keys| - 1], current, curr);
    }
  }

  /** Diffing a record against itself reports nothing. */
  lemma DiffSelf(keys: seq<string>, p: Props)
    requires Distinct(keys)
    ensures Scan(keys, keys, p, p) == Delta([], [], [])
    ensures !Changes(Scan(keys, keys, p, p))
  {
    ScanIsReference(keys, keys, p, p);
    MinusAll(keys, Elems(keys));
    ChangedSelf(keys, Elems(keys), p);
    DroppedNone(keys, Elems(keys), p);
  }
}
