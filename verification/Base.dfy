/** Shared vocabulary: optional values, real-number helpers and sums over dictionaries. */
module Base {

  datatype Option<+T> = None | Some(value: T)

  function Max(x: real, y: real): real {
    if x >= y then x else y
  }

  function Min(x: real, y: real): real {
    if x <= y then x else y
  }

  function Abs(x: real): real {
    if x >= 0.0 then x else -x
  }

  /** Dictionary lookup with a default, as in `d.get(k, default)`. */
  function Get<K, V>(m: map<K, V>, k: K, default: V): V {
    if k in m then m[k] else default
  }

  /** The last `n` elements: what a deque with `maxlen = n` keeps of everything appended to it. */
  function LastN<T>(s: seq<T>, n: nat): seq<T> {
    if |s| <= n then s else s[|s| - n..]
  }

  /** Appending to a bounded deque and dropping the oldest overflow element is `LastN` of the longer history. */
  lemma LastNAppend<T>(s: seq<T>, n: nat, x: T)
    requires n > 0
    ensures LastN(s + [x], n)
         == (if |LastN(s, n)| < n then LastN(s, n) + [x] else LastN(s, n)[1..] + [x])
  {
  }
}

/**
 Products of reals under a name, with the laws the proofs need. A proof that states
 `hide Times` treats the product as one unknown and uses these laws explicitly, which keeps the
 solver out of nonlinear arithmetic.
 */
module Products {

  function Times(x: real, y: real): real {
    x * y
  }

  lemma TimesSplit(x: real, y: real, z: real)
    ensures Times(x, y + z) == Times(x, y) + Times(x, z)
  {
  }

  lemma TimesSplitLeft(x: real, y: real, z: real)
    ensures Times(x + y, z) == Times(x, z) + Times(y, z)
  {
  }

  lemma TimesMinus(x: real, y: real, z: real)
    ensures Times(x, y - z) == Times(x, y) - Times(x, z)
  {
  }

  lemma TimesMinusLeft(x: real, y: real, z: real)
    ensures Times(x - y, z) == Times(x, z) - Times(y, z)
  {
  }

  lemma TimesUnits(x: real)
    ensures Times(x, 0.0) == 0.0 == Times(0.0, x)
    ensures Times(x, 1.0) == x == Times(1.0, x)
  {
  }

  lemma TimesNegate(x: real, y: real)
    ensures Times(-x, y) == -Times(x, y) == Times(x, -y)
  {
  }

  lemma TimesSwap(x: real, y: real)
    ensures Times(x, y) == Times(y, x)
  {
  }

  lemma TimesOrder(x: real, y: real, q: real)
    requires x <= y && q >= 0.0
    ensures Times(x, q) <= Times(y, q)
  {
  }

  lemma TimesSign(x: real, y: real)
    ensures x >= 0.0 && y >= 0.0 ==> Times(x, y) >= 0.0
    ensures x > 0.0 && y > 0.0 ==> Times(x, y) > 0.0
  {
  }

  lemma TimesCancel(x: real, y: real, q: real)
    requires q > 0.0 && Times(x, q) <= Times(y, q)
    ensures x <= y
  {
    assert x == Times(x, q) / q && y == Times(y, q) / q;
  }

  /** The quotient under a name, for the same reason. */
  function Over(x: real, y: real): real
    requires y != 0.0
  {
    x / y
  }

  lemma TimesOver(x: real, y: real)
    requires y != 0.0
    ensures Times(Over(x, y), y) == x == Times(y, Over(x, y))
  {
  }

  lemma OverUnique(x: real, y: real, q: real)
    requires y != 0.0 && Times(q, y) == x
    ensures Over(x, y) == q
  {
    assert Times(q, y) / y == q;
  }

  lemma OverSign(x: real, y: real)
    requires y > 0.0
    ensures x > 0.0 <==> Over(x, y) > 0.0
    ensures x == 0.0 <==> Over(x, y) == 0.0
  {
    if x > 0.0 {
      assert x / y > 0.0;
    }
    if x < 0.0 {
      assert x / y < 0.0;
    }
  }
}

/** Order-independent sums over the values of a dictionary. */
module MapSums {
  import opened Base

  ghost function Pick<K>(keys: set<K>): (k: K)
    requires keys != {}
    ensures k in keys
  {
    var k :| k in keys; k
  }

  ghost function Sum<K>(m: map<K, real>): real
    decreases |m|
  {
    if m.Keys == {} then 0.0
    else
      var k := Pick(m.Keys);
      m[k] + Sum(m - {k})
  }

  /** Any key may be counted first. */
  lemma {:induction false} SumRemove<K>(m: map<K, real>, k: K)
    requires k in m
    ensures Sum(m) == m[k] + Sum(m - {k})
    decreases |m|
  {
    var first := Pick(m.Keys);
    if first != k {
      SumRemove(m - {first}, k);
      SumRemove(m - {k}, first);
      assert (m - {first}) - {k} == (m - {k}) - {first};
    }
  }

  /** Writing one entry moves the sum by exactly the change of that entry. */
  lemma SumUpdate<K>(m: map<K, real>, k: K, v: real)
    ensures Sum(m[k := v]) == Sum(m) - Get(m, k, 0.0) + v
  {
    SumRemove(m[k := v], k);
    assert m[k := v] - {k} == m - {k};
    if k in m {
      SumRemove(m, k);
    } else {
      assert m - {k} == m;
    }
  }

  ghost function Restrict<K>(m: map<K, real>, keys: set<K>): map<K, real> {
    map k | k in keys && k in m :: m[k]
  }

  /** A loop over the keys adds one entry at a time. */
  lemma SumRestrict<K>(m: map<K, real>, keys: set<K>, k: K)
    requires k in keys && k in m
    ensures Sum(Restrict(m, keys)) == m[k] + Sum(Restrict(m, keys - {k}))
  {
    SumRemove(Restrict(m, keys), k);
    assert Restrict(m, keys) - {k} == Restrict(m, keys - {k});
  }

  lemma SumRestrictEnds<K>(m: map<K, real>)
    ensures Sum(Restrict(m, m.Keys)) == Sum(m) && Sum(Restrict(m, {})) == 0.0
  {
    assert Restrict(m, m.Keys) == m;
    assert Restrict(m, {}).Keys == {};
  }
}
