/** Pulling the subtree of a key out of a flat, dotted configuration as one nested map. */
module ConfigUnflatten {
  import opened Common
  import opened ConfigMerge
  import opened Strings

  type Path = seq<string>

  // ---------------------------------------------------------------------------
  // Dotted keys
  // ---------------------------------------------------------------------------

  lemma SplitInjective(prefix: string, k: string, k': string)
    requires prefix <= k && prefix <= k' && Split(k[|prefix|..], '.') == Split(k'[|prefix|..], '.')
    ensures k == k'
  {
    JoinSplit(k[|prefix|..], '.');
    JoinSplit(k'[|prefix|..], '.');
    assert k == prefix + k[|prefix|..] && k' == prefix + k'[|prefix|..];
  }

  /** The entries below the key, by their path relative to it. */
  ghost function Below(config: map<string, Value>, key: string): map<Path, Value> {
    var prefix := key + ".";
    forall k, k' | k in config && prefix <= k && k' in config && prefix <= k'
                   && Split(k[|prefix|..], '.') == Split(k'[|prefix|..], '.')
      ensures k == k'
    {
      SplitInjective(prefix, k, k');
    }
    map k | k in config && prefix <= k :: Split(k[|prefix|..], '.') := config[k]
  }

  /** What lies below the key, by path, is every flat key that starts with it and a dot... */
  lemma BelowHas(config: map<string, Value>, key: string, rest: string)
    requires key + "." + rest in config
    ensures Split(rest, '.') in Below(config, key) && Below(config, key)[Split(rest, '.')] == config[key + "." + rest]
  {
    var prefix := key + ".";
    assert (prefix + rest)[|prefix|..] == rest;
    forall k | k in config && prefix <= k && Split(k[|prefix|..], '.') == Split(rest, '.')
      ensures k == prefix + rest
    {
      SplitInjective(prefix, k, prefix + rest);
    }
  }

  /** ... and nothing else. */
  lemma BelowOnly(config: map<string, Value>, key: string, p: Path)
    requires p in Below(config, key)
    ensures key + "." + Join(p, '.') in config && Below(config, key)[p] == config[key + "." + Join(p, '.')]
  {
    var prefix := key + ".";
    var k :| k in config && prefix <= k && Split(k[|prefix|..], '.') == p;
    var rest := k[|prefix|..];
    assert k == prefix + rest;
    JoinSplit(rest, '.');
    BelowHas(config, key, rest);
  }

  // ---------------------------------------------------------------------------
  // Building the nested map
  // ---------------------------------------------------------------------------

  /** Walks down the map, replacing whatever is not a map on the way, and sets the last part. */
  function Insert(node: map<string, Value>, path: Path, v: Value): (r: map<string, Value>)
    requires path != []
    ensures path[0] in r
    decreases |path|
  {
    if |path| == 1 then node[path[0] := v]
    else node[path[0] := Map(Insert(Child(node, path[0]), path[1..], v))]
  }

  function Child(node: map<string, Value>, part: string): map<string, Value> {
    if part in node && node[part].Map? then node[part].entries else map[]
  }

  function Replay(order: seq<Path>, leaves: map<Path, Value>, base: map<string, Value>): map<string, Value>
    requires forall p | p in order :: p in leaves && p != []
  {
    if order == [] then base
    else
      var last := order[|order| - 1];
      assert forall p | p in order[..|order| - 1] :: p in order;
      Insert(Replay(order[..|order| - 1], leaves, base), last, leaves[last])
  }

  lemma ReplaySnoc(order: seq<Path>, p: Path, leaves: map<Path, Value>, base: map<string, Value>)
    requires forall p' | p' in order + [p] :: p' in leaves && p' != []
    ensures forall p' | p' in order :: p' in order + [p]
    ensures p in order + [p]
    ensures Replay(order + [p], leaves, base) == Insert(Replay(order, leaves, base), p, leaves[p])
  {
    assert (order + [p])[..|order|] == order;
  }

  ghost predicate Enumerates(order: seq<Path>, leaves: map<Path, Value>) {
    && (forall p | p in order :: p in leaves && p != [])
    && (forall p | p in leaves :: p in order)
    && (forall i, j | 0 <= i < j < |order| :: order[i] != order[j])
  }

  /** What the flat map still holds once the keys outside todo are handled: those below the parent
      key are deleted. A map under the parent key itself is the one that is filled, and stays. */
  ghost predicate Remains(config: map<string, Value>, key: string, todo: set<string>, nested: map<string, Value>,
                          rest: map<string, Value>) {
    && (forall k :: k in rest <==> k in config && (k in todo || !(key + "." <= k)))
    && (forall k | k in rest :: rest[k] == if k == key && config[k].Map? then Map(nested) else config[k])
  }

  /** The loop over the flat map, in an arbitrary order which the ghost result records. */
  method TakeNestedMapFromFlatConfig(config: map<string, Value>, key: string)
    returns (nested: map<string, Value>, rest: map<string, Value>, ghost order: seq<Path>)
    ensures Remains(config, key, {}, nested, rest)
    ensures Enumerates(order, Below(config, key))
    ensures nested == Replay(order, Below(config, key), Child(config, key))
  {
    var prefix := key + ".";
    var base := Child(config, key);
    nested := base;
    rest := config;
    order := [];
    var todo := config.Keys;
    while todo != {}
      invariant todo <= config.Keys
      invariant Remains(config, key, todo, nested, rest)
      invariant Progress(config, key, todo, order)
      invariant nested == Replay(order, Below(config, key), base)
    {
      var flatKey :| flatKey in todo;
      if prefix <= flatKey {
        var nested' := Insert(nested, Split(flatKey[|prefix|..], '.'), config[flatKey]);
        RemainsNext(config, key, todo, nested, rest, flatKey, nested');
        rest := rest - {flatKey};
        if key in rest && rest[key].Map? {
          rest := rest[key := Map(nested')];
        }
        nested := nested';
        order := Advance(config, key, todo, order, flatKey, base);
      } else {
        ProgressSkips(config, key, todo, order, flatKey);
      }
      todo := todo - {flatKey};
    }
    ProgressDone(config, key, order);
  }

  lemma RemainsNext(config: map<string, Value>, key: string, todo: set<string>, nested: map<string, Value>,
                    rest: map<string, Value>, k: string, nested': map<string, Value>)
    requires Remains(config, key, todo, nested, rest) && k in todo && key + "." <= k
    ensures var less := rest - {k};
            Remains(config, key, todo - {k}, nested',
                    if key in less && less[key].Map? then less[key := Map(nested')] else less)
  {
  }

  lemma ProgressSkips(config: map<string, Value>, key: string, todo: set<string>, order: seq<Path>, k: string)
    requires Progress(config, key, todo, order) && !(key + "." <= k)
    ensures Progress(config, key, todo - {k}, order)
  {
  }

  /** The paths handled so far are those of the flat keys that have been visited. */
  ghost predicate Progress(config: map<string, Value>, key: string, todo: set<string>, order: seq<Path>) {
    var prefix := key + ".";
    && (forall p | p in order :: p in Below(config, key) && p != [])
    && (forall k | k in config && prefix <= k :: k in todo <==> Split(k[|prefix|..], '.') !in order)
    && (forall i, j | 0 <= i < j < |order| :: order[i] != order[j])
  }

  lemma Advance(config: map<string, Value>, key: string, todo: set<string>, order: seq<Path>, flatKey: string,
                base: map<string, Value>)
    returns (order': seq<Path>)
    requires Progress(config, key, todo, order)
    requires flatKey in config && flatKey in todo && key + "." <= flatKey
    ensures Progress(config, key, todo - {flatKey}, order')
    ensures Replay(order', Below(config, key), base)
            == Insert(Replay(order, Below(config, key), base), Split(flatKey[|key| + 1..], '.'), config[flatKey])
  {
    var prefix := key + ".";
    var path := Split(flatKey[|prefix|..], '.');
    forall k | k in config && prefix <= k && Split(k[|prefix|..], '.') == path
      ensures k == flatKey
    {
      SplitInjective(prefix, k, flatKey);
    }
    order' := order + [path];
    assert path in Below(config, key) && Below(config, key)[path] == config[flatKey];
    ReplaySnoc(order, path, Below(config, key), base);
  }

  lemma ProgressDone(config: map<string, Value>, key: string, order: seq<Path>)
    requires Progress(config, key, {}, order)
    ensures Enumerates(order, Below(config, key))
  {
  }

  lemma {:induction false} ReplayKeys(order: seq<Path>, leaves: map<Path, Value>, base: map<string, Value>, n: string)
    requires forall p | p in order :: p in leaves && p != []
    ensures n in Replay(order, leaves, base) <==> n in base || exists p | p in order :: p[0] == n
  {
    if order != [] {
      var front, last := order[..|order| - 1], order[|order| - 1];
      assert order == front + [last];
      assert forall p | p in front :: p in order;
      ReplayKeys(front, leaves, base, n);
      assert last in order;
    }
  }

  // ---------------------------------------------------------------------------
  // Reading the nested map back
  // ---------------------------------------------------------------------------

  /** A value that flattening does not open: an empty map is kept as a leaf. */
  predicate Flat(v: Value) {
    v.Map? ==> v.entries == map[]
  }

  /** The leaf that flattening puts at a path. */
  ghost function LeafAt(v: Value, path: Path): Option<Value>
    decreases |path|
  {
    if path == [] then (if Flat(v) then Some(v) else None)
    else if v.Map? && path[0] in v.entries then LeafAt(v.entries[path[0]], path[1..])
    else None
  }

  lemma {:induction false} SomeLeaf(v: Value) returns (path: Path)
    ensures LeafAt(v, path).Some?
    decreases v
  {
    if Flat(v) {
      path := [];
    } else {
      var k :| k in v.entries;
      var rest := SomeLeaf(v.entries[k]);
      path := [k] + rest;
    }
  }

  /** Flattening loses nothing: values with the same leaves are equal. */
  lemma {:induction false} LeavesDetermine(v: Value, w: Value)
    requires forall p :: LeafAt(v, p) == LeafAt(w, p)
    ensures v == w
    decreases v
  {
    assert LeafAt(v, []) == LeafAt(w, []);
    if !Flat(v) {
      LeavesImplyKeys(v, w);
      LeavesImplyKeys(w, v);
      forall k | k in v.entries
        ensures v.entries[k] == w.entries[k]
      {
        forall p
          ensures LeafAt(v.entries[k], p) == LeafAt(w.entries[k], p)
        {
          assert ([k] + p)[1..] == p;
          assert LeafAt(v, [k] + p) == LeafAt(w, [k] + p);
        }
        LeavesDetermine(v.entries[k], w.entries[k]);
      }
      assert v.entries == w.entries;
    }
  }

  lemma LeavesImplyKeys(v: Value, w: Value)
    requires !Flat(v) && !Flat(w)
    requires forall p :: LeafAt(v, p) == LeafAt(w, p)
    ensures v.entries.Keys <= w.entries.Keys
  {
    forall k | k in v.entries
      ensures k in w.entries
    {
      var rest := SomeLeaf(v.entries[k]);
      assert ([k] + rest)[1..] == rest;
      assert LeafAt(w, [k] + rest) == LeafAt(v, [k] + rest);
    }
  }

  ghost predicate Apart(p: Path, q: Path) {
    !(p <= q) && !(q <= p)
  }

  /** The path starts no leaf of the map, ends none and crosses none. */
  ghost predicate Vacant(m: map<string, Value>, path: Path) {
    forall p | p != [] && LeafAt(Map(m), p).Some? :: Apart(p, path)
  }

  lemma VacantHead(m: map<string, Value>, path: Path)
    requires path != [] && Vacant(m, path)
    ensures path[0] in m ==> |path| > 1 && m[path[0]].Map? && m[path[0]].entries != map[]
    ensures |path| > 1 ==> Vacant(Child(m, path[0]), path[1..])
  {
    var k := path[0];
    if k in m {
      var rest := SomeLeaf(m[k]);
      var p := [k] + rest;
      assert p[1..] == rest;
      assert LeafAt(Map(m), p).Some?;
      assert Apart(p, path);
      assert |path| == 1 ==> path <= p;
      assert [k][1..] == [] && [k] <= path;
      assert Flat(m[k]) ==> LeafAt(Map(m), [k]).Some?;
    }
    if |path| > 1 {
      forall p | p != [] && LeafAt(Map(Child(m, k)), p).Some?
        ensures Apart(p, path[1..])
      {
        assert ([k] + p)[1..] == p;
        assert LeafAt(Map(m), [k] + p).Some?;
        assert path == [k] + path[1..];
        assert p <= path[1..] ==> [k] + p <= path;
        assert path[1..] <= p ==> path <= [k] + p;
      }
    }
  }

  lemma {:induction false} InsertAddsLeaf(m: map<string, Value>, path: Path, v: Value, q: Path)
    requires path != [] && q != []
    requires Flat(v) && Vacant(m, path)
    ensures LeafAt(Map(Insert(m, path, v)), q) == if q == path then Some(v) else LeafAt(Map(m), q)
    decreases |path|
  {
    VacantHead(m, path);
    if q[0] == path[0] {
      assert q == [q[0]] + q[1..] && path == [path[0]] + path[1..];
      if |path| > 1 && |q| > 1 {
        InsertAddsLeaf(Child(m, path[0]), path[1..], v, q[1..]);
      }
    }
  }

  ghost predicate PrefixFree(leaves: map<Path, Value>) {
    forall p, q | p in leaves && q in leaves && p != q :: Apart(p, q)
  }

  ghost predicate AllFlat(leaves: map<Path, Value>) {
    forall p | p in leaves :: Flat(leaves[p])
  }

  lemma {:induction false} ReplayLeaves(order: seq<Path>, leaves: map<Path, Value>, q: Path)
    requires forall p | p in order :: p in leaves && p != []
    requires forall i, j | 0 <= i < j < |order| :: order[i] != order[j]
    requires PrefixFree(leaves) && AllFlat(leaves)
    requires q != []
    ensures LeafAt(Map(Replay(order, leaves, map[])), q) == if q in order then Some(leaves[q]) else None
    decreases |order|
  {
    if order != [] {
      var front, last := order[..|order| - 1], order[|order| - 1];
      assert order == front + [last];
      var before := Replay(front, leaves, map[]);
      forall p | p != [] && LeafAt(Map(before), p).Some?
        ensures Apart(p, last)
      {
        ReplayLeaves(front, leaves, p);
      }
      InsertAddsLeaf(before, last, leaves[last], q);
      ReplayLeaves(front, leaves, q);
    }
  }

  /** Flattening the nested map gives back exactly the leaves it was built from. */
  lemma FlattenUndoesUnflatten(order: seq<Path>, leaves: map<Path, Value>, q: Path)
    requires Enumerates(order, leaves)
    requires PrefixFree(leaves) && AllFlat(leaves)
    requires q != []
    ensures LeafAt(Map(Replay(order, leaves, map[])), q) == if q in leaves then Some(leaves[q]) else None
  {
    ReplayLeaves(order, leaves, q);
  }

  lemma OrderIrrelevant(o1: seq<Path>, o2: seq<Path>, leaves: map<Path, Value>)
    requires Enumerates(o1, leaves) && Enumerates(o2, leaves)
    requires PrefixFree(leaves) && AllFlat(leaves)
    ensures Replay(o1, leaves, map[]) == Replay(o2, leaves, map[])
  {
    var v, w := Map(Replay(o1, leaves, map[])), Map(Replay(o2, leaves, map[]));
    assert o1 != [] ==> o1[0] in o2;
    assert o2 != [] ==> o2[0] in o1;
    if o1 != [] {
      forall p
        ensures LeafAt(v, p) == LeafAt(w, p)
      {
        if p != [] {
          ReplayLeaves(o1, leaves, p);
          ReplayLeaves(o2, leaves, p);
        }
      }
      LeavesDetermine(v, w);
    }
  }

  // ---------------------------------------------------------------------------
  // Exactly when the iteration order does not matter
  // ---------------------------------------------------------------------------

  ghost predicate OrderIndependent(leaves: map<Path, Value>) {
    forall o1, o2 | Enumerates(o1, leaves) && Enumerates(o2, leaves) ::
      Replay(o1, leaves, map[]) == Replay(o2, leaves, map[])
  }

  lemma {:induction false} InsertedAt(m: map<string, Value>, path: Path, v: Value, p: Path)
    requires path != [] && p <= path && p != []
    ensures At(Map(Insert(m, path, v)), p).Some?
    ensures p == path ==> At(Map(Insert(m, path, v)), p) == Some(v)
    ensures p != path ==> !Flat(At(Map(Insert(m, path, v)), p).value)
    decreases |path|
  {
    if |path| > 1 {
      if |p| > 1 {
        InsertedAt(Child(m, path[0]), path[1..], v, p[1..]);
        assert p == [p[0]] + p[1..] && path == [path[0]] + path[1..];
      } else {
        assert p[1..] == [];
      }
    } else {
      assert p == path && p[1..] == [];
    }
  }

  lemma {:induction false} SomeEnumeration(paths: set<Path>) returns (order: seq<Path>)
    ensures forall p :: p in order <==> p in paths
    ensures forall i, j | 0 <= i < j < |order| :: order[i] != order[j]
    decreases |paths|
  {
    if paths == {} {
      order := [];
    } else {
      var p :| p in paths;
      var rest := SomeEnumeration(paths - {p});
      order := [p] + rest;
    }
  }

  /** Flat leaves can be un-flattened in any order with one result if and only if no key is
      a dotted prefix of another. */
  lemma OrderIndependentIffPrefixFree(leaves: map<Path, Value>)
    requires AllFlat(leaves)
    requires [] !in leaves
    ensures OrderIndependent(leaves) <==> PrefixFree(leaves)
  {
    if PrefixFree(leaves) {
      forall o1, o2 | Enumerates(o1, leaves) && Enumerates(o2, leaves)
        ensures Replay(o1, leaves, map[]) == Replay(o2, leaves, map[])
      {
        OrderIrrelevant(o1, o2, leaves);
      }
    } else {
      var p, q :| p in leaves && q in leaves && p != q && !Apart(p, q);
      if p <= q {
        PrefixMakesOrderMatter(leaves, p, q);
      } else {
        PrefixMakesOrderMatter(leaves, q, p);
      }
    }
  }

  lemma EnumerationEndingIn(others: seq<Path>, leaves: map<Path, Value>, p: Path, q: Path)
    requires p in leaves && q in leaves && p != q && [] !in leaves
    requires forall x :: x in others <==> x in leaves.Keys - {p, q}
    requires forall i, j | 0 <= i < j < |others| :: others[i] != others[j]
    ensures Enumerates(others + [p] + [q], leaves)
  {
    var order := others + [p] + [q];
    forall x | x in leaves
      ensures x in order
    {
      assert x in others || x == p || x == q;
    }
  }

  lemma LastInserted(front: seq<Path>, last: Path, leaves: map<Path, Value>, p: Path)
    requires Enumerates(front + [last], leaves)
    requires p != [] && p <= last
    ensures last in leaves
    ensures At(Map(Replay(front + [last], leaves, map[])), p).Some?
    ensures var x := At(Map(Replay(front + [last], leaves, map[])), p).value;
            if p == last then x == leaves[last] else !Flat(x)
  {
    ReplaySnoc(front, last, leaves, map[]);
    InsertedAt(Replay(front, leaves, map[]), last, leaves[last], p);
  }

  lemma PrefixMakesOrderMatter(leaves: map<Path, Value>, p: Path, q: Path)
    requires AllFlat(leaves) && [] !in leaves
    requires p in leaves && q in leaves && p != q && p <= q
    ensures !OrderIndependent(leaves)
  {
    var others := SomeEnumeration(leaves.Keys - {p, q});
    EnumerationEndingIn(others, leaves, p, q);
    EnumerationEndingIn(others, leaves, q, p);
    LastInserted(others + [p], q, leaves, p);
    LastInserted(others + [q], p, leaves, p);
    OrdersDiffer(others + [p] + [q], others + [q] + [p], leaves, p);
  }

  lemma OrdersDiffer(o1: seq<Path>, o2: seq<Path>, leaves: map<Path, Value>, p: Path)
    requires Enumerates(o1, leaves) && Enumerates(o2, leaves)
    requires At(Map(Replay(o1, leaves, map[])), p) != At(Map(Replay(o2, leaves, map[])), p)
    ensures !OrderIndependent(leaves)
  {
  }
}
