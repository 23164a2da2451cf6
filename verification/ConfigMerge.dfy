/** How two values loaded for one configuration key are merged, and how the nulls that a
    typed round trip invents are pruned before merging. */
module ConfigMerge {
  import opened Common

  /** A decoded configuration value: what YAML and JSON produce. */
  datatype Value =
    | Null
    | Str(text: string)
    | Atom(n: int)                          // a number or a boolean
    | List(items: seq<Value>)
    | Map(entries: map<string, Value>)
  {
    predicate Scalar() {
      Str? || Atom?
    }
  }

  // ---------------------------------------------------------------------------
  // Merging
  // ---------------------------------------------------------------------------

  /** What becomes of an entry present on both sides of a map merge. It cannot fail: maps
      are merged, lists appended, anything else is replaced by the later source. */
  function Combine(dst: Value, src: Value): (r: Value)
    ensures src == Map(map[]) && dst.Map? ==> r == dst
    decreases src
  {
    match (dst, src)
    case (Map(d), Map(s)) =>
      var r := Map(map k | k in d.Keys + s.Keys ::
                     if k !in s then d[k]
                     else if k !in d then s[k]
                     else Combine(d[k], s[k]));
      assert s == map[] ==> r.entries == d;
      r
    case (List(d), List(s)) => List(d + s)
    case _ => src
  }

  predicate Mergeable(dst: Value, src: Value) {
    || (dst.Map? && src.Map?)
    || (dst.List? && src.List?)
  }

  /** The top-level merge, which rejects what it cannot append or merge. */
  function Merge(dst: Value, src: Value): (r: Result<Value>)
    ensures r.Success? <==> Mergeable(dst, src)
    ensures r.Success? ==> Mergeable(r.value, dst)
  {
    if Mergeable(dst, src) then Success(Combine(dst, src)) else Failure
  }

  /** The loop over the source map visits its keys in an order the language leaves open. The
      postcondition fixes the result, so every order gives the same one. */
  method MergeValues(dst: Value, src: Value) returns (r: Result<Value>)
    ensures r == Merge(dst, src)
    ensures r.Success? <==> (dst.Map? && src.Map?) || (dst.List? && src.List?)
    decreases src
  {
    match dst {
      case List(items) =>
        if !src.List? {
          return Failure;
        }
        r := Success(List(items + src.items));
      case Map(entries) =>
        if !src.Map? {
          return Failure;
        }
        var merged, todo := entries, src.entries.Keys;
        while todo != {}
          invariant todo <= src.entries.Keys
          invariant merged.Keys == entries.Keys + (src.entries.Keys - todo)
          invariant forall k | k in merged ::
                      merged[k] == if k in todo || k !in src.entries then entries[k] else Combine(dst, src).entries[k]
        {
          var key :| key in todo;
          var srcVal := src.entries[key];
          var entry := srcVal;
          if key in merged && Mergeable(merged[key], srcVal) {
            // Both maps or both lists, so the error of the nested call never occurs.
            var sub := MergeValues(merged[key], srcVal);
            entry := sub.value;
          }
          merged := merged[key := entry];
          todo := todo - {key};
        }
        assert Combine(dst, src).entries == merged;
        r := Success(Map(merged));
      case _ =>
        r := Failure;
    }
  }

  // ---------------------------------------------------------------------------
  // Grouping: when merging is associative
  // ---------------------------------------------------------------------------

  /** `late` already decides everything `early` could contribute. */
  ghost predicate Covered(early: Value, late: Value)
    decreases late
  {
    match (early, late)
    case (Map(e), Map(l)) => forall k | k in e :: k in l && Covered(e[k], l[k])
    case (List(e), List(_)) => e == []
    case _ => true
  }

  lemma {:induction false} CoveredIffAbsorbed(early: Value, late: Value)
    ensures Covered(early, late) <==> Combine(early, late) == late
    decreases late
  {
    if early.Map? && late.Map? {
      forall k | k in early.entries && k in late.entries
        ensures Covered(early.entries[k], late.entries[k])
                <==> Combine(early, late).entries[k] == late.entries[k]
      {
        CoveredIffAbsorbed(early.entries[k], late.entries[k]);
      }
      var r := Combine(early, late).entries;
      if Covered(early, late) {
        assert r == late.entries;
      } else {
        var k :| k in early.entries && !(k in late.entries && Covered(early.entries[k], late.entries[k]));
        assert k in r && (k !in late.entries || r[k] != late.entries[k]);
      }
    } else if early.List? && late.List? {
      if early.items + late.items == late.items {
        assert |early.items| == 0;
      }
    }
  }

  /** No path at which the middle value breaks a map (or list) that the outer two share,
      unless the last value covers the first one there. */
  ghost predicate Regroupable(a: Value, b: Value, c: Value)
    decreases c
  {
    match (a, c)
    case (Map(x), Map(z)) =>
      if b.Map? then
        forall k | k in x && k in b.entries && k in z :: Regroupable(x[k], b.entries[k], z[k])
      else
        Covered(a, c)
    case (List(x), List(_)) => b.List? || x == []
    case _ => true
  }

  /** The two groupings of three values agree exactly on the regroupable ones. */
  lemma {:induction false} AssociativeIff(a: Value, b: Value, c: Value)
    ensures Combine(Combine(a, b), c) == Combine(a, Combine(b, c)) <==> Regroupable(a, b, c)
    decreases c
  {
    if a.Map? && c.Map? && b.Map? {
      AssociativeMaps(a, b, c);
    } else if a.Map? && c.Map? {
      CoveredIffAbsorbed(a, c);
    } else if a.List? && b.List? && c.List? {
      assert (a.items + b.items) + c.items == a.items + (b.items + c.items);
    } else if a.List? && c.List? {
      CoveredIffAbsorbed(a, c);
    }
  }

  lemma {:induction false} AssociativeMaps(a: Value, b: Value, c: Value)
    requires a.Map? && b.Map? && c.Map?
    ensures Combine(Combine(a, b), c) == Combine(a, Combine(b, c)) <==> Regroupable(a, b, c)
    decreases c, 0
  {
    var left := Combine(Combine(a, b), c).entries;
    var right := Combine(a, Combine(b, c)).entries;
    assert left.Keys == right.Keys;
    forall k | k in left
      ensures k in a.entries && k in b.entries && k in c.entries ==>
                (left[k] == right[k] <==> Regroupable(a.entries[k], b.entries[k], c.entries[k]))
      ensures !(k in a.entries && k in b.entries && k in c.entries) ==> left[k] == right[k]
    {
      if k in a.entries && k in b.entries && k in c.entries {
        AssociativeIff(a.entries[k], b.entries[k], c.entries[k]);
      }
    }
    assert left == right <==> forall k | k in left :: left[k] == right[k];
  }

  /** Merging is not associative in general: a scalar between two maps hides the first one
      from a left-to-right merge, but not from a merge that groups the last two first. */
  lemma AssociativityFails() returns (a: Value, b: Value, c: Value)
    ensures a.Map? && b.Map? && c.Map?
    ensures Combine(Combine(a, b), c) != Combine(a, Combine(b, c))
  {
    a := Map(map["k" := Map(map["x" := Atom(1)])]);
    b := Map(map["k" := Atom(2)]);
    c := Map(map["k" := Map(map["y" := Atom(3)])]);
    assert "x" in a.entries["k"].entries && "x" !in c.entries["k"].entries;
    assert !Covered(a.entries["k"], c.entries["k"]);
    assert !Regroupable(a.entries["k"], b.entries["k"], c.entries["k"]);
    AssociativeIff(a, b, c);
  }

  /** The kinds (map, list, other) of the two values agree at every path they share. */
  ghost predicate Agree(a: Value, b: Value)
    decreases b
  {
    match (a, b)
    case (Map(x), Map(y)) => forall k | k in x && k in y :: Agree(x[k], y[k])
    case _ => a.Map? == b.Map? && a.List? == b.List?
  }

  lemma {:induction false} AgreeRegroups(a: Value, b: Value, c: Value)
    requires Agree(a, b)
    ensures Regroupable(a, b, c)
    decreases c
  {
    if a.Map? && c.Map? {
      forall k | k in a.entries && k in b.entries && k in c.entries
        ensures Regroupable(a.entries[k], b.entries[k], c.entries[k])
      {
        AgreeRegroups(a.entries[k], b.entries[k], c.entries[k]);
      }
    }
  }

  lemma {:induction false} AgreeSymmetric(a: Value, b: Value)
    requires Agree(a, b)
    ensures Agree(b, a)
    decreases b
  {
    if a.Map? {
      forall k | k in a.entries && k in b.entries
        ensures Agree(b.entries[k], a.entries[k])
      {
        AgreeSymmetric(a.entries[k], b.entries[k]);
      }
    }
  }

  lemma {:induction false} AgreeCombined(a: Value, b: Value, c: Value)
    requires Agree(a, b) && Agree(a, c)
    ensures Agree(a, Combine(b, c))
    decreases c
  {
    if a.Map? {
      var r := Combine(b, c);
      forall k | k in a.entries && k in r.entries
        ensures Agree(a.entries[k], r.entries[k])
      {
        if k in b.entries && k in c.entries {
          AgreeCombined(a.entries[k], b.entries[k], c.entries[k]);
        }
      }
    }
  }

  /** The left fold that loading one key's files in order performs. */
  ghost function Fold(vs: seq<Value>): Value
    requires vs != []
  {
    if |vs| == 1 then vs[0] else Combine(Fold(vs[..|vs| - 1]), vs[|vs| - 1])
  }

  ghost predicate AllAgree(vs: seq<Value>) {
    forall i, j | 0 <= i < |vs| && 0 <= j < |vs| && i != j :: Agree(vs[i], vs[j])
  }

  lemma {:induction false} FoldAgrees(v: Value, vs: seq<Value>)
    requires vs != []
    requires forall i | 0 <= i < |vs| :: Agree(v, vs[i])
    ensures Agree(v, Fold(vs))
    decreases |vs|
  {
    if |vs| > 1 {
      FoldAgrees(v, vs[..|vs| - 1]);
      AgreeCombined(v, Fold(vs[..|vs| - 1]), vs[|vs| - 1]);
    }
  }

  lemma {:induction false} FoldsAgree(xs: seq<Value>, ys: seq<Value>)
    requires xs != [] && ys != []
    requires forall i, j | 0 <= i < |xs| && 0 <= j < |ys| :: Agree(xs[i], ys[j])
    ensures Agree(Fold(xs), Fold(ys))
  {
    forall j | 0 <= j < |ys|
      ensures Agree(Fold(xs), ys[j])
    {
      forall i | 0 <= i < |xs| ensures Agree(ys[j], xs[i]) { AgreeSymmetric(xs[i], ys[j]); }
      FoldAgrees(ys[j], xs);
      AgreeSymmetric(ys[j], Fold(xs));
    }
    FoldAgrees(Fold(xs), ys);
  }

  lemma {:induction false} FoldAppend(xs: seq<Value>, ys: seq<Value>)
    requires xs != [] && ys != []
    requires forall i, j | 0 <= i < |xs| && 0 <= j < |ys| :: Agree(xs[i], ys[j])
    ensures Fold(xs + ys) == Combine(Fold(xs), Fold(ys))
    decreases |ys|
  {
    var front, z := ys[..|ys| - 1], ys[|ys| - 1];
    assert (xs + ys)[..|xs + ys| - 1] == xs + front;
    if front == [] {
      assert xs + front == xs;
    } else {
      FoldAppend(xs, front);
      FoldsAgree(xs, front);
      AgreeRegroups(Fold(xs), Fold(front), z);
      AssociativeIff(Fold(xs), Fold(front), z);
    }
  }

  /** A way of grouping the merges of an ordered, non-empty list of values. */
  datatype Grouping = One(v: Value) | Two(left: Grouping, right: Grouping) {

    function Leaves(): (vs: seq<Value>)
      ensures vs != []
    {
      match this
      case One(v) => [v]
      case Two(l, r) => l.Leaves() + r.Leaves()
    }

    /** Merges bottom-up; a failed merge fails the whole. */
    function Eval(): Result<Value> {
      match this
      case One(v) => Success(v)
      case Two(l, r) =>
        var x :- l.Eval();
        var y :- r.Eval();
        Merge(x, y)
    }
  }

  lemma {:induction false} FoldKind(vs: seq<Value>)
    requires vs != [] && AllAgree(vs)
    ensures Fold(vs).Map? == vs[0].Map? && Fold(vs).List? == vs[0].List?
    decreases |vs|
  {
    if |vs| > 1 {
      FoldKind(vs[..|vs| - 1]);
      assert Agree(vs[0], vs[|vs| - 1]);
    }
  }

  lemma LeavesAgree(xs: seq<Value>, ys: seq<Value>)
    requires xs != [] && ys != [] && AllAgree(xs + ys)
    ensures AllAgree(xs) && AllAgree(ys)
    ensures forall i, j | 0 <= i < |xs| && 0 <= j < |ys| :: Agree(xs[i], ys[j])
    ensures xs[0].Map? == ys[0].Map? && xs[0].List? == ys[0].List?
  {
    var all := xs + ys;
    assert forall i | 0 <= i < |xs| :: all[i] == xs[i];
    assert forall j | 0 <= j < |ys| :: all[|xs| + j] == ys[j];
    assert Agree(xs[0], ys[0]);
  }

  /** Splitting one entry over ordered files: whatever the grouping, the merges succeed and
      give the value that loading the files one after the other gives. */
  lemma {:induction false} EveryGroupingMergesAlike(g: Grouping)
    requires AllAgree(g.Leaves())
    requires g.Leaves()[0].Map? || g.Leaves()[0].List?
    ensures g.Eval() == Success(Fold(g.Leaves()))
    decreases g
  {
    if g.Two? {
      var xs, ys := g.left.Leaves(), g.right.Leaves();
      LeavesAgree(xs, ys);
      EveryGroupingMergesAlike(g.left);
      EveryGroupingMergesAlike(g.right);
      FoldKind(xs);
      FoldKind(ys);
      FoldAppend(xs, ys);
    }
  }

  // ---------------------------------------------------------------------------
  // Pruning, and what survives a merge
  // ---------------------------------------------------------------------------

  /** The value at a path, if there is one. */
  ghost function At(v: Value, path: seq<string>): Option<Value>
    decreases |path|
  {
    if path == [] then Some(v)
    else if v.Map? && path[0] in v.entries then At(v.entries[path[0]], path[1..])
    else None
  }

  function Prune(v: Value): Value
    decreases v
  {
    match v
    case Map(m) => Map(map k | k in m && m[k] != Null :: Prune(m[k]))
    case _ => v
  }

  /** The in-place recursive loop, which may visit the keys in any order. */
  method PruneNilMapValues(v: Value) returns (r: Value)
    ensures r == Prune(v)
    decreases v
  {
    if !v.Map? {
      return v;
    }
    var m, todo := v.entries, v.entries.Keys;
    while todo != {}
      invariant todo <= v.entries.Keys
      invariant m.Keys == set k | k in v.entries && (k in todo || v.entries[k] != Null)
      invariant forall k | k in m :: m[k] == if k in todo then v.entries[k] else Prune(v.entries[k])
    {
      var key :| key in todo;
      if m[key] == Null {
        m := m - {key};
      } else {
        var sub := PruneNilMapValues(v.entries[key]);
        m := m[key := sub];
      }
      todo := todo - {key};
    }
    assert m == Prune(v).entries;
    r := Map(m);
  }

  /** Pruning removes exactly the null entries of nested maps: a path of the result is a path
      of the input with no null on it, and it leads to the pruned value. */
  lemma {:induction false} PrunedAt(v: Value, path: seq<string>)
    ensures At(Prune(v), path) ==
            (match At(v, path)
             case Some(x) => if path != [] && x == Null then None else Some(Prune(x))
             case None => None)
    decreases |path|
  {
    if path != [] && v.Map? && path[0] in v.entries && v.entries[path[0]] != Null {
      PrunedAt(v.entries[path[0]], path[1..]);
    }
  }

  lemma NoNullAfterPruning(v: Value, path: seq<string>)
    requires path != []
    ensures At(Prune(v), path) != Some(Null)
  {
    PrunedAt(v, path);
  }

  lemma {:induction false} PruneIdempotent(v: Value)
    ensures Prune(Prune(v)) == Prune(v)
    decreases v
  {
    if v.Map? {
      forall k | k in v.entries && v.entries[k] != Null
        ensures Prune(Prune(v.entries[k])) == Prune(v.entries[k])
      {
        PruneIdempotent(v.entries[k]);
      }
      assert Prune(Prune(v)).entries == Prune(v).entries;
    }
  }

  /** The value has an entry at the path, or a non-map above it. */
  ghost predicate Decides(v: Value, path: seq<string>)
    decreases |path|
  {
    || path == []
    || !v.Map?
    || (path[0] in v.entries && Decides(v.entries[path[0]], path[1..]))
  }

  /** The same with the nulls read as absent. */
  ghost predicate DecidesNonNull(v: Value, path: seq<string>)
    decreases |path|
  {
    && v != Null
    && (|| path == []
        || !v.Map?
        || (path[0] in v.entries && DecidesNonNull(v.entries[path[0]], path[1..])))
  }

  /** What becomes of any entry of the earlier source, be it a map, a list or a scalar: it survives
      as it is where the later source does not decide, is combined with the entry there, and is gone
      where the later source has something else than a map above it. */
  lemma {:induction false} MergedAt(a: Value, b: Value, path: seq<string>, x: Value)
    requires At(a, path) == Some(x)
    ensures At(Combine(a, b), path) ==
            if !Decides(b, path) then Some(x)
            else
              match At(b, path)
              case None => None
              case Some(y) => Some(Combine(x, y))
    decreases |path|
  {
    if path != [] && b.Map? && path[0] in b.entries {
      MergedAt(a.entries[path[0]], b.entries[path[0]], path[1..], x);
    }
  }

  /** An entry that only the later source has is taken as it is. */
  lemma {:induction false} NewEntryAt(a: Value, b: Value, path: seq<string>)
    requires At(a, path).None?
    ensures At(Combine(a, b), path) == At(b, path)
    decreases |path|
  {
    if a.Map? && b.Map? && path[0] in a.entries && path[0] in b.entries {
      NewEntryAt(a.entries[path[0]], b.entries[path[0]], path[1..]);
    }
  }

  /** Where both have an entry, lists are appended, and the later entry replaces the earlier one unless
      both are maps or both lists. */
  lemma SharedEntryAt(a: Value, b: Value, path: seq<string>, x: Value, y: Value)
    requires At(a, path) == Some(x) && At(b, path) == Some(y)
    ensures x.List? && y.List? ==> At(Combine(a, b), path) == Some(List(x.items + y.items))
    ensures !(x.List? && y.List?) && !(x.Map? && y.Map?) ==> At(Combine(a, b), path) == Some(y)
  {
    AtDecides(b, path);
    MergedAt(a, b, path, x);
  }

  lemma {:induction false} DecidesAfterPruning(v: Value, path: seq<string>)
    requires v != Null
    ensures Decides(Prune(v), path) <==> DecidesNonNull(v, path)
    decreases |path|
  {
    if path != [] && v.Map? && path[0] in v.entries && v.entries[path[0]] != Null {
      DecidesAfterPruning(v.entries[path[0]], path[1..]);
    }
  }

  /** Splitting an entry's fields over two files: a field the earlier file set, whatever its kind,
      is changed only where the later file really says something, not where the round trip invented
      a null. There a list is appended to, and a scalar replaced. */
  lemma PrunedMergeAt(a: Value, b: Value, path: seq<string>, x: Value)
    requires a.Map? && b.Map? && At(a, path) == Some(x)
    ensures Merge(a, Prune(b)).Success?
    ensures At(Merge(a, Prune(b)).value, path) ==
            if !DecidesNonNull(b, path) then Some(x)
            else
              match At(b, path)
              case None => None
              case Some(y) => Some(Combine(x, Prune(y)))
  {
    DecidesAfterPruning(b, path);
    PrunedAt(b, path);
    if DecidesNonNull(b, path) {
      DecidedIsNotNull(b, path);
    }
    MergedAt(a, Prune(b), path, x);
  }

  lemma {:induction false} DecidedIsNotNull(v: Value, path: seq<string>)
    requires DecidesNonNull(v, path)
    ensures At(v, path) != Some(Null)
    decreases |path|
  {
    if path != [] && v.Map? {
      DecidedIsNotNull(v.entries[path[0]], path[1..]);
    }
  }

  /** A list of the earlier file is extended by one of the later file at the same path, and kept
      where the later file says nothing. */
  lemma ListsOfFilesAreAppended(a: Value, b: Value, path: seq<string>, xs: seq<Value>)
    requires a.Map? && b.Map? && At(a, path) == Some(List(xs))
    ensures !DecidesNonNull(b, path) ==> At(Merge(a, Prune(b)).value, path) == Some(List(xs))
    ensures At(b, path).Some? && At(b, path).value.List? ==>
              At(Merge(a, Prune(b)).value, path) == Some(List(xs + At(b, path).value.items))
  {
    PrunedMergeAt(a, b, path, List(xs));
    if At(b, path).Some? && At(b, path).value.List? {
      NonNullIsDecided(b, path);
    }
  }

  lemma {:induction false} NonNullIsDecided(v: Value, path: seq<string>)
    requires At(v, path).Some? && At(v, path).value != Null
    ensures DecidesNonNull(v, path)
    decreases |path|
  {
    if path != [] {
      NonNullIsDecided(v.entries[path[0]], path[1..]);
    }
  }

  /** Without pruning, a null of the later file does replace whatever the earlier file set. */
  lemma UnprunedNullClobbers(a: Value, b: Value, path: seq<string>)
    requires a.Map? && b.Map? && At(a, path).Some? && At(b, path) == Some(Null)
    ensures At(Combine(a, b), path) == Some(Null)
  {
    AtDecides(b, path);
    MergedAt(a, b, path, At(a, path).value);
  }

  lemma {:induction false} AtDecides(v: Value, path: seq<string>)
    requires At(v, path).Some?
    ensures Decides(v, path)
    decreases |path|
  {
    if path != [] {
      AtDecides(v.entries[path[0]], path[1..]);
    }
  }
}
