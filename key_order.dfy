/**
 * The iteration order of the backend's `BTreeMap<String, _>` and `BTreeSet<String>`: keys in
 * increasing byte-wise lexicographic order (Rust's `Ord` on `str`, with characters standing for
 * bytes).
 */
module KeyOrder {
  /** `a < b` in lexicographic order: a proper prefix comes first, else the first difference decides. */
  predicate Below(a: string, b: string)
  {
    if a == [] then b != []
    else if b == [] then false
    else a[0] < b[0] || (a[0] == b[0] && Below(a[1..], b[1..]))
  }

  lemma {:induction false} BelowIrreflexive(a: string)
    ensures !Below(a, a)
  {
    if a != [] {
      BelowIrreflexive(a[1..]);
    }
  }

  lemma {:induction false} BelowAsymmetric(a: string, b: string)
    ensures !(Below(a, b) && Below(b, a))
  {
    if a != [] && b != [] && a[0] == b[0] {
      BelowAsymmetric(a[1..], b[1..]);
    }
  }

  lemma {:induction false} BelowTotal(a: string, b: string)
    ensures a == b || Below(a, b) || Below(b, a)
  {
    if a != [] && b != [] && a[0] == b[0] {
      BelowTotal(a[1..], b[1..]);
      if a[1..] == b[1..] {
        assert a == [a[0]] + a[1..] && b == [b[0]] + b[1..];
      }
    }
  }

  lemma {:induction false} BelowTransitive(a: string, b: string, c: string)
    requires Below(a, b) && Below(b, c)
    ensures Below(a, c)
  {
    if a != [] && a[0] == b[0] && b[0] == c[0] {
      BelowTransitive(a[1..], b[1..], c[1..]);
    }
  }

  /** `k` comes before every other member of `keys`. */
  predicate IsLeast(k: string, keys: set<string>)
  {
    k in keys && forall o :: o in keys && o != k ==> Below(k, o)
  }

  lemma {:induction false} FindLeast(keys: set<string>) returns (k: string)
    requires keys != {}
    ensures IsLeast(k, keys)
    decreases |keys|
  {
    var x :| x in keys;
    if keys == {x} {
      k := x;
    } else {
      var m := FindLeast(keys - {x});
      BelowTotal(x, m);
      if Below(x, m) {
        forall o | o in keys && o != x
          ensures Below(x, o)
        {
          if o != m {
            BelowTransitive(x, m, o);
          }
        }
        k := x;
      } else {
        k := m;
      }
    }
  }

  /** A non-empty set has exactly one least key. */
  lemma LeastExistsUniquely(keys: set<string>)
    requires keys != {}
    ensures exists k :: IsLeast(k, keys)
    ensures forall a, b :: IsLeast(a, keys) && IsLeast(b, keys) ==> a == b
  {
    var _ := FindLeast(keys);
    forall a, b | IsLeast(a, keys) && IsLeast(b, keys)
      ensures a == b
    {
      if a != b {
        BelowAsymmetric(a, b);
      }
    }
  }

  /** The first key in order. */
  function Least(keys: set<string>): (k: string)
    requires keys != {}
    ensures IsLeast(k, keys)
  {
    LeastExistsUniquely(keys);
    var k :| IsLeast(k, keys);
    k
  }

  /** Strictly increasing. */
  predicate Increasing(s: seq<string>)
  {
    forall i, j :: 0 <= i < j < |s| ==> Below(s[i], s[j])
  }

  /** The keys of a map or set in iteration order: each exactly once, in increasing order. */
  function SortedKeys(keys: set<string>): (r: seq<string>)
    ensures |r| == |keys|
    ensures forall k :: k in r <==> k in keys
    ensures Increasing(r)
    decreases |keys|
  {
    if keys == {} then []
    else
      var k := Least(keys);
      var rest := SortedKeys(keys - {k});
      [k] + rest
  }
}
