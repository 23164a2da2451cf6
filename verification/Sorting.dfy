/** The order in which sort.Strings puts distinct strings. */
module Sorting {

  predicate Before(a: string, b: string) {
    b != [] && (a == [] || a[0] < b[0] || (a[0] == b[0] && Before(a[1..], b[1..])))
  }

  /** A proper prefix comes first, and otherwise the first difference decides. */
  lemma {:induction false} BeforeIff(a: string, b: string)
    ensures Before(a, b) <==>
            || (a <= b && a != b)
            || (exists i | 0 <= i < |a| && i < |b| :: a[..i] == b[..i] && a[i] < b[i])
  {
    if a != [] && b != [] {
      BeforeIff(a[1..], b[1..]);
      assert a == [a[0]] + a[1..] && b == [b[0]] + b[1..];
      if a[0] == b[0] {
        FirstDifference(a, b);
      } else if a[0] < b[0] {
        assert a[..0] == b[..0];
      }
    }
  }

  lemma FirstDifference(a: string, b: string)
    requires a != [] && b != [] && a[0] == b[0]
    ensures (exists i | 0 <= i < |a| && i < |b| :: a[..i] == b[..i] && a[i] < b[i]) <==>
            (exists i | 0 <= i < |a[1..]| && i < |b[1..]| :: a[1..][..i] == b[1..][..i] && a[1..][i] < b[1..][i])
  {
    if i :| 0 <= i < |a| && i < |b| && a[..i] == b[..i] && a[i] < b[i] {
      assert a[1..][..i - 1] == a[..i][1..] && b[1..][..i - 1] == b[..i][1..];
      assert a[1..][i - 1] < b[1..][i - 1];
    }
    if i :| 0 <= i < |a[1..]| && i < |b[1..]| && a[1..][..i] == b[1..][..i] && a[1..][i] < b[1..][i] {
      assert a[..i + 1] == [a[0]] + a[1..][..i] && b[..i + 1] == [b[0]] + b[1..][..i];
      assert a[i + 1] < b[i + 1];
    }
  }

  lemma {:induction false} NotBoth(a: string, b: string)
    ensures !(Before(a, b) && Before(b, a))
  {
    if a != [] && b != [] {
      NotBoth(a[1..], b[1..]);
    }
  }

  lemma {:induction false} OneOf(a: string, b: string)
    ensures a == b || Before(a, b) || Before(b, a)
  {
    if a != [] && b != [] {
      assert a == [a[0]] + a[1..] && b == [b[0]] + b[1..];
      OneOf(a[1..], b[1..]);
    }
  }

  lemma {:induction false} Transitive(a: string, b: string, c: string)
    requires Before(a, b) && Before(b, c)
    ensures Before(a, c)
  {
    if a != [] && a[0] == b[0] == c[0] {
      Transitive(a[1..], b[1..], c[1..]);
    }
  }

  ghost predicate Ascending(s: seq<string>) {
    forall i, j | 0 <= i < j < |s| :: Before(s[i], s[j])
  }

  ghost predicate Sorts(s: seq<string>, keys: set<string>) {
    Ascending(s) && forall k :: k in s <==> k in keys
  }

  /** There is only one way to sort. */
  lemma {:induction false} SortedOnce(s: seq<string>, t: seq<string>, keys: set<string>)
    requires Sorts(s, keys) && Sorts(t, keys)
    ensures s == t
  {
    assert |s| > 0 ==> s[0] in t;
    assert |t| > 0 ==> t[0] in s;
    if s != [] {
      SameFirst(s, t, keys);
      TailSorts(s, keys);
      TailSorts(t, keys);
      SortedOnce(s[1..], t[1..], keys - {s[0]});
      assert s == [s[0]] + s[1..] && t == [t[0]] + t[1..];
    }
  }

  lemma SameFirst(s: seq<string>, t: seq<string>, keys: set<string>)
    requires Sorts(s, keys) && Sorts(t, keys) && s != [] && t != []
    ensures s[0] == t[0]
  {
    assert s[0] in t && t[0] in s;
    var i :| 0 <= i < |t| && t[i] == s[0];
    var j :| 0 <= j < |s| && s[j] == t[0];
    NotBoth(s[0], t[0]);
  }

  lemma TailSorts(s: seq<string>, keys: set<string>)
    requires Sorts(s, keys) && s != []
    ensures Sorts(s[1..], keys - {s[0]})
  {
    NotBoth(s[0], s[0]);
    forall k
      ensures k in s[1..] <==> k in keys - {s[0]}
    {
      assert s == [s[0]] + s[1..];
    }
  }

  /** The least string of a set. */
  method Least(keys: set<string>) returns (least: string)
    requires keys != {}
    ensures least in keys && forall k | k in keys :: k == least || Before(least, k)
  {
    least :| least in keys;
    var todo := keys - {least};
    while todo != {}
      invariant todo <= keys && least in keys
      invariant forall k | k in keys && k !in todo :: k == least || Before(least, k)
    {
      var k :| k in todo;
      OneOf(k, least);
      if Before(k, least) {
        forall x | x in keys && x !in todo && Before(least, x)
          ensures Before(k, x)
        {
          Transitive(k, least, x);
        }
        least := k;
      }
      todo := todo - {k};
    }
  }

  lemma AscendingSnoc(s: seq<string>, x: string)
    requires Ascending(s) && forall i | 0 <= i < |s| :: Before(s[i], x)
    ensures Ascending(s + [x])
  {
  }

  /** Sorting the keys of a map. */
  method SortStrings(keys: set<string>) returns (s: seq<string>)
    ensures Sorts(s, keys)
  {
    s := [];
    var todo := keys;
    while todo != {}
      invariant todo <= keys && Sorts(s, keys - todo)
      invariant forall i, k | 0 <= i < |s| && k in todo :: Before(s[i], k)
    {
      var k := Least(todo);
      AscendingSnoc(s, k);
      SnocSorts(s, keys - todo, k);
      assert keys - todo + {k} == keys - (todo - {k});
      NotBoth(k, k);
      s := s + [k];
      todo := todo - {k};
    }
    assert keys - todo == keys;
  }

  lemma SnocSorts(s: seq<string>, keys: set<string>, x: string)
    requires Sorts(s, keys) && Ascending(s + [x])
    ensures Sorts(s + [x], keys + {x})
  {
    forall k
      ensures k in s + [x] <==> k in keys + {x}
    {
      assert (s + [x])[|s|] == x;
    }
  }

  lemma SortExists(keys: set<string>) returns (s: seq<string>)
    ensures Sorts(s, keys)
  {
    s := [];
    if keys != {} {
      var k := Greatest(keys);
      s := SortExists(keys - {k});
      NotBoth(k, k);
      forall i | 0 <= i < |s|
        ensures Before(s[i], k)
      {
        assert s[i] in s;
      }
      AscendingSnoc(s, k);
      SnocSorts(s, keys - {k}, k);
      assert keys - {k} + {k} == keys;
      s := s + [k];
    }
  }

  lemma Greatest(keys: set<string>) returns (g: string)
    requires keys != {}
    ensures g in keys && forall k | k in keys :: k == g || Before(k, g)
  {
    g :| g in keys;
    if keys != {g} {
      var h := Greatest(keys - {g});
      OneOf(g, h);
      if Before(g, h) {
        g := h;
      } else {
        forall k | k in keys - {g} && k != h
          ensures Before(k, g)
        {
          Transitive(k, h, g);
        }
      }
    }
  }

  lemma CanSort(keys: set<string>)
    ensures exists s :: Sorts(s, keys)
  {
    var s := SortExists(keys);
  }

  /** The keys in order. */
  ghost function SortedOf(keys: set<string>): (s: seq<string>)
    ensures Sorts(s, keys) && forall i | 0 <= i < |s| :: s[i] in keys
  {
    CanSort(keys);
    var s :| Sorts(s, keys);
    assert forall i | 0 <= i < |s| :: s[i] in s;
    s
  }
}
