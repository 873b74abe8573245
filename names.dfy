/** Go's `<` on strings: byte-wise lexicographic comparison. Characters
    are compared by code point, which orders them as their UTF-8 bytes do.
    The same order ranks world-state keys in a range scan and medicines
    by name in the list. */
module Names {

  /** `a` sorts before `b` or is equal to it. */
  predicate NameLe(a: string, b: string)
  {
    if |a| == 0 then true
    else if |b| == 0 then false
    else if a[0] != b[0] then a[0] < b[0]
    else NameLe(a[1..], b[1..])
  }

  /** Go's `a < b`. */
  predicate NameLess(a: string, b: string)
  {
    !NameLe(b, a)
  }

  lemma {:induction false} NameLeReflexive(a: string)
    ensures NameLe(a, a)
  {
    if |a| > 0 {
      NameLeReflexive(a[1..]);
    }
  }

  lemma {:induction false} NameLeTotal(a: string, b: string)
    ensures NameLe(a, b) || NameLe(b, a)
  {
    if |a| > 0 && |b| > 0 && a[0] == b[0] {
      NameLeTotal(a[1..], b[1..]);
    }
  }

  lemma {:induction false} NameLeTransitive(a: string, b: string, c: string)
    requires NameLe(a, b) && NameLe(b, c)
    ensures NameLe(a, c)
  {
    if |a| > 0 && |b| > 0 && |c| > 0 && a[0] == b[0] && b[0] == c[0] {
      NameLeTransitive(a[1..], b[1..], c[1..]);
    }
  }

  lemma {:induction false} NameLeAntisymmetric(a: string, b: string)
    requires NameLe(a, b) && NameLe(b, a)
    ensures a == b
  {
    if |a| > 0 && |b| > 0 {
      NameLeAntisymmetric(a[1..], b[1..]);
      assert a == [a[0]] + a[1..];
      assert b == [b[0]] + b[1..];
    }
  }

  /** `k` is the first of `keys` in byte order. */
  predicate IsFirstKey(k: string, keys: set<string>)
  {
    k in keys && forall j :: j in keys ==> NameLe(k, j)
  }

  /** Every non-empty finite set of keys has a first key, so a range scan
      can always go on with the smallest key it has not yet returned. */
  lemma {:induction false} FirstKeyExists(keys: set<string>)
    requires keys != {}
    ensures exists k :: IsFirstKey(k, keys)
  {
    var x :| x in keys;
    if keys == {x} {
      NameLeReflexive(x);
      assert IsFirstKey(x, keys);
    } else {
      var rest := keys - {x};
      FirstKeyExists(rest);
      var m :| IsFirstKey(m, rest);
      NameLeTotal(x, m);
      if NameLe(x, m) {
        NameLeReflexive(x);
        forall j | j in keys ensures NameLe(x, j) {
          if j != x {
            NameLeTransitive(x, m, j);
          }
        }
        assert IsFirstKey(x, keys);
      } else {
        assert IsFirstKey(m, keys);
      }
    }
  }
}
