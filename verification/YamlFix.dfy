/** The in-place repair of a decoded YAML tree (config/config.go, fix and its use in
    unmarshalBuildTemplate). Go maps and slices are objects here; a ghost `Shape` says which objects
    make up a tree, so that overwriting one part can be shown to leave the others alone. */
module YamlFix {
  import opened YamlTree

  class StringMap {
    var entries: map<string, Value>

    constructor ()
      ensures entries == map[]
    {
      entries := map[];
    }
  }

  class AnyMap {
    var entries: map<Key, Value>

    constructor (entries: map<Key, Value>)
      ensures this.entries == entries
    {
      this.entries := entries;
    }
  }

  /** A Go `interface{}` as the YAML decoder fills it. */
  datatype Value =
    | Scalar(value: string)
    | StringMapRef(sm: StringMap)
    | AnyMapRef(am: AnyMap)
    | SliceRef(a: array<Value>)

  datatype Shape =
    | LeafShape(value: string)
    | StringShape(sm: StringMap, kids: map<string, Shape>)
    | AnyShape(am: AnyMap, anyKids: map<Key, Shape>)
    | SliceShape(a: array<Value>, items: map<nat, Shape>)

  ghost function Union(sets: set<set<object>>): (r: set<object>)
    ensures forall s :: s in sets ==> s <= r
    ensures forall o :: o in r ==> exists s :: s in sets && o in s
  {
    set s, o | s in sets && o in s :: o
  }

  /** The objects of a tree. */
  ghost function Footprint(g: Shape): (r: set<object>)
    ensures g.StringShape? ==> forall k :: k in g.kids ==> Footprint(g.kids[k]) <= r
    ensures g.AnyShape? ==> forall k :: k in g.anyKids ==> Footprint(g.anyKids[k]) <= r
    ensures g.SliceShape? ==> forall i :: i in g.items ==> Footprint(g.items[i]) <= r
  {
    match g
    case LeafShape(_) => {}
    case StringShape(m, kids) => {m} + Union(set k | k in kids :: Footprint(kids[k]))
    case AnyShape(m, kids) => {m} + Union(set k | k in kids :: Footprint(kids[k]))
    case SliceShape(a, items) => {a} + Union(set i | i in items :: Footprint(items[i]))
  }

  /** No object occurs twice in the tree. */
  ghost predicate IsTree(g: Shape) {
    match g
    case LeafShape(_) => true
    case StringShape(m, kids) =>
      && (forall k :: k in kids ==> IsTree(kids[k]) && m !in Footprint(kids[k]))
      && (forall j, k :: j in kids && k in kids && j != k ==> Footprint(kids[j]) !! Footprint(kids[k]))
    case AnyShape(m, kids) =>
      && (forall k :: k in kids ==> IsTree(kids[k]) && m !in Footprint(kids[k]))
      && (forall j, k :: j in kids && k in kids && j != k ==> Footprint(kids[j]) !! Footprint(kids[k]))
    case SliceShape(a, items) =>
      && (forall i :: i in items <==> 0 <= i < a.Length)
      && (forall i :: i in items ==> IsTree(items[i]) && a !in Footprint(items[i]))
      && (forall i, j :: i in items && j in items && i != j ==> Footprint(items[i]) !! Footprint(items[j]))
  }

  /** The heap holds the tree of shape `g` at `v`. */
  ghost predicate Holds(v: Value, g: Shape)
    reads Footprint(g)
    decreases g
  {
    match g
    case LeafShape(s) => v == Scalar(s)
    case StringShape(m, kids) =>
      && v == StringMapRef(m) && m.entries.Keys == kids.Keys
      && forall k :: k in kids ==> Holds(m.entries[k], kids[k])
    case AnyShape(m, kids) =>
      && v == AnyMapRef(m) && m.entries.Keys == kids.Keys
      && forall k :: k in kids ==> Holds(m.entries[k], kids[k])
    case SliceShape(a, items) =>
      && v == SliceRef(a)
      && (forall i :: i in items <==> 0 <= i < a.Length)
      && forall i :: i in items ==> Holds(a[i], items[i])
  }

  /** The tree without its objects. */
  function Erase(g: Shape): Tree {
    match g
    case LeafShape(s) => Leaf(s)
    case StringShape(_, kids) => StringNode(map k | k in kids :: Erase(kids[k]))
    case AnyShape(_, kids) => AnyNode(map k | k in kids :: Erase(kids[k]))
    case SliceShape(_, items) =>
      ListNode(seq(|items|, i requires 0 <= i < |items| => if i in items then Erase(items[i]) else Leaf("")))
  }

  // ----- sizes

  ghost function MaxOf(s: set<nat>): (m: nat)
    ensures forall x :: x in s ==> x <= m
    ensures s != {} ==> m in s
    ensures s == {} ==> m == 0
  {
    if s == {} then 0
    else
      var x :| x in s;
      var rest := MaxOf(s - {x});
      assert s == (s - {x}) + {x};
      if x < rest then rest else x
  }

  /** How deeply a tree is nested. */
  ghost function Height(g: Shape): (h: nat)
    ensures g.StringShape? ==> forall k :: k in g.kids ==> Height(g.kids[k]) < h
    ensures g.AnyShape? ==> forall k :: k in g.anyKids ==> Height(g.anyKids[k]) < h
    ensures g.SliceShape? ==> forall i :: i in g.items ==> Height(g.items[i]) < h
  {
    match g
    case LeafShape(_) => 0
    case StringShape(_, kids) =>
      var heights := set k | k in kids :: Height(kids[k]);
      assert forall k :: k in kids ==> Height(kids[k]) in heights;
      1 + MaxOf(heights)
    case AnyShape(_, kids) =>
      var heights := set k | k in kids :: Height(kids[k]);
      assert forall k :: k in kids ==> Height(kids[k]) in heights;
      1 + MaxOf(heights)
    case SliceShape(_, items) =>
      var heights := set i | i in items :: Height(items[i]);
      assert forall i :: i in items ==> Height(items[i]) in heights;
      1 + MaxOf(heights)
  }

  /** A map built from entries of another one is nested no deeper. */
  lemma RenamedIsNoHigher(cp: StringMap, kids: map<string, Shape>, am: AnyMap, anyKids: map<Key, Shape>)
    requires forall s :: s in kids ==> exists k :: k in anyKids && kids[s] == anyKids[k]
    ensures Height(StringShape(cp, kids)) <= Height(AnyShape(am, anyKids))
  {
  }

  // ----- the entries of one node

  /** The entries are trees that share nothing with each other or with the object that holds them. */
  ghost predicate IsForest<K(!new)>(kids: map<K, Shape>, owner: object) {
    && (forall k :: k in kids ==> IsTree(kids[k]) && owner !in Footprint(kids[k]))
    && (forall j, k :: j in kids && k in kids && j != k ==> Footprint(kids[j]) !! Footprint(kids[k]))
  }

  ghost function RowFootprint<K(!new)>(kids: map<K, Shape>): (r: set<object>)
    ensures forall k :: k in kids ==> Footprint(kids[k]) <= r
    ensures forall o :: o in r ==> exists k :: k in kids && o in Footprint(kids[k])
  {
    Union(set k | k in kids :: Footprint(kids[k]))
  }

  ghost predicate HoldsRow<K(!new)>(entries: map<K, Value>, kids: map<K, Shape>)
    reads RowFootprint(kids)
  {
    && entries.Keys == kids.Keys
    && forall k :: k in kids ==> Holds(entries[k], kids[k])
  }

  /** Of the objects in `used`, the tree `h` has only those of `g`. */
  ghost predicate Avoids(h: Shape, g: Shape, used: set<object>) {
    forall o :: o in Footprint(h) && o in used ==> o in Footprint(g)
  }

  /** Replacing one tree of a forest by one that avoids the others leaves a forest. */
  lemma ForestAfter<K(!new)>(kids: map<K, Shape>, owner: object, k: K, h: Shape, used: set<object>)
    requires k in kids && IsForest(kids, owner) && IsTree(h) && Avoids(h, kids[k], used)
    requires owner in used && forall j :: j in kids ==> Footprint(kids[j]) <= used
    ensures IsForest(kids[k := h], owner)
  {
  }

  /** Every repaired entry is a repair of the original one that avoids `used`. */
  ghost predicate RowFixed<K(!new)>(format: Key -> string, before: map<K, Shape>, after: map<K, Shape>,
                                    used: set<object>)
  {
    && after.Keys == before.Keys
    && forall k :: k in before ==>
         Fixed(format, Erase(before[k]), Erase(after[k])) && Avoids(after[k], before[k], used)
  }

  // ----- a node and its entries

  lemma OpenStringMap(m: StringMap, g: Shape)
    requires Holds(StringMapRef(m), g) && IsTree(g)
    ensures g.StringShape? && g.sm == m && HoldsRow(m.entries, g.kids) && IsForest(g.kids, m)
    ensures Footprint(g) == {m} + RowFootprint(g.kids)
  {
  }

  lemma CloseStringMap(m: StringMap, kids: map<string, Shape>)
    requires HoldsRow(m.entries, kids) && IsForest(kids, m)
    ensures Holds(StringMapRef(m), StringShape(m, kids)) && IsTree(StringShape(m, kids))
    ensures Footprint(StringShape(m, kids)) == {m} + RowFootprint(kids)
  {
  }

  lemma FixedStringMap(format: Key -> string, m: StringMap, before: map<string, Shape>, after: map<string, Shape>,
                       used: set<object>)
    requires RowFixed(format, before, after, used)
    ensures Fixed(format, Erase(StringShape(m, before)), Erase(StringShape(m, after)))
    ensures Avoids(StringShape(m, after), StringShape(m, before), used)
  {
  }

  /** The elements of a slice, by index. */
  ghost function Elements(a: array<Value>): (r: map<nat, Value>)
    reads a
    ensures forall i :: i in r <==> 0 <= i < a.Length
  {
    map i: nat | i < a.Length :: a[i]
  }

  lemma OpenSlice(a: array<Value>, g: Shape)
    requires Holds(SliceRef(a), g) && IsTree(g)
    ensures g.SliceShape? && g.a == a && HoldsRow(Elements(a), g.items) && IsForest(g.items, a)
    ensures Footprint(g) == {a} + RowFootprint(g.items)
  {
  }

  lemma CloseSlice(a: array<Value>, items: map<nat, Shape>)
    requires HoldsRow(Elements(a), items) && IsForest(items, a)
    ensures Holds(SliceRef(a), SliceShape(a, items)) && IsTree(SliceShape(a, items))
    ensures Footprint(SliceShape(a, items)) == {a} + RowFootprint(items)
  {
  }

  lemma FixedSlice(format: Key -> string, a: array<Value>, before: map<nat, Shape>, after: map<nat, Shape>,
                   used: set<object>)
    requires RowFixed(format, before, after, used)
    ensures Fixed(format, Erase(SliceShape(a, before)), Erase(SliceShape(a, after)))
    ensures Avoids(SliceShape(a, after), SliceShape(a, before), used)
  {
  }

  /** A map with arbitrary keys, copied under their printed names: `from` says which entry was kept. */
  ghost predicate IsCopy(format: Key -> string, anyKids: map<Key, Shape>, kids: map<string, Shape>,
                         from: map<string, Key>)
  {
    && from.Keys == kids.Keys
    && (forall s :: s in from ==> from[s] in anyKids && format(from[s]) == s && kids[s] == anyKids[from[s]])
  }

  lemma CopyIsForest(format: Key -> string, anyKids: map<Key, Shape>, kids: map<string, Shape>,
                     from: map<string, Key>, owner: object, cp: object)
    requires IsCopy(format, anyKids, kids, from) && IsForest(anyKids, owner) && cp !in RowFootprint(anyKids)
    ensures IsForest(kids, cp) && RowFootprint(kids) <= RowFootprint(anyKids)
  {
  }

  lemma OpenAnyMap(m: AnyMap, g: Shape)
    requires Holds(AnyMapRef(m), g) && IsTree(g)
    ensures g.AnyShape? && g.am == m && HoldsRow(m.entries, g.anyKids) && IsForest(g.anyKids, m)
    ensures Footprint(g) == {m} + RowFootprint(g.anyKids)
  {
  }

  lemma FixedAnyMap(format: Key -> string, am: AnyMap, anyKids: map<Key, Shape>, cp: StringMap,
                    kids: map<string, Shape>, from: map<string, Key>, r: Tree)
    requires IsCopy(format, anyKids, kids, from) && forall k :: k in anyKids ==> format(k) in kids
    requires Fixed(format, Erase(StringShape(cp, kids)), r)
    ensures Fixed(format, Erase(AnyShape(am, anyKids)), r)
  {
    hide Fixed;
    var t, c := Erase(AnyShape(am, anyKids)), Erase(StringShape(cp, kids));
    FixedThroughCopy(format, t.anyKids, c.kids, from, r);
  }

  // ----- the repair

  method CopyUnderNames(format: Key -> string, am: AnyMap, ghost anyKids: map<Key, Shape>)
    returns (cp: StringMap, ghost kids: map<string, Shape>, ghost from: map<string, Key>)
    requires HoldsRow(am.entries, anyKids)
    ensures fresh(cp) && HoldsRow(cp.entries, kids)
    ensures IsCopy(format, anyKids, kids, from) && forall k :: k in anyKids ==> format(k) in kids
  {
    hide Holds, Footprint, RowFootprint;
    cp := new StringMap();
    kids, from := map[], map[];
    var todo := am.entries.Keys;
    while todo != {}
      invariant todo <= anyKids.Keys && am.entries == old(am.entries)
      invariant cp.entries.Keys == kids.Keys && IsCopy(format, anyKids, kids, from)
      invariant forall s :: s in kids ==> cp.entries[s] == am.entries[from[s]]
      invariant forall k :: k in anyKids && k !in todo ==> format(k) in kids
      invariant fresh(cp)
      decreases todo
    {
      var k :| k in todo;
      cp.entries := cp.entries[format(k) := am.entries[k]];
      kids := kids[format(k) := anyKids[k]];
      from := from[format(k) := k];
      todo := todo - {k};
    }
    forall s | s in kids ensures Holds(cp.entries[s], kids[s]) {
      assert old(Holds(am.entries[from[s]], anyKids[from[s]]));
      assert old(allocated(Footprint(anyKids[from[s]])));
    }
  }

  /** A new map is filled under the printed keys and repaired in turn; the old one is left as it is. */
  method FixAnyMap(format: Key -> string, am: AnyMap, ghost g: Shape, ghost used: set<object>)
    returns (r: Value, ghost h: Shape)
    requires Holds(AnyMapRef(am), g) && IsTree(g)
    modifies Footprint(g)
    ensures Holds(r, h) && IsTree(h) && Fixed(format, Erase(g), Erase(h)) && Avoids(h, g, used)
    decreases Height(g), if g.AnyShape? then 3 else 1
  {
    hide Footprint, IsTree, Fixed, Erase, HoldsRow, IsForest, RowFootprint, Height;
    OpenAnyMap(am, g);
    hide Holds;
    assert allocated(RowFootprint(g.anyKids));
    var cp, kids, from := CopyUnderNames(format, am, g.anyKids);
    assert cp !in RowFootprint(g.anyKids);
    CopyIsForest(format, g.anyKids, kids, from, am, cp);
    CloseStringMap(cp, kids);
    RenamedIsNoHigher(cp, kids, am, g.anyKids);
    r, h := Fix(format, StringMapRef(cp), StringShape(cp, kids), used);
    FixedAnyMap(format, am, g.anyKids, cp, kids, from, Erase(h));
  }

  lemma FixedLeaf(format: Key -> string, g: Shape, used: set<object>)
    requires g.LeafShape?
    ensures Fixed(format, Erase(g), Erase(g)) && Avoids(g, g, used)
  {
  }

  /** One turn of the loop over a map: entry `k` is repaired, the others stay. */
  method FixEntry(format: Key -> string, m: StringMap, k: string, ghost kids: map<string, Shape>,
                  ghost used: set<object>)
    returns (ghost h: Shape)
    requires k in kids && HoldsRow(m.entries, kids) && IsForest(kids, m)
    modifies m, Footprint(kids[k])
    ensures HoldsRow(m.entries, kids[k := h]) && IsForest(kids[k := h], m)
    ensures Fixed(format, Erase(kids[k]), Erase(h)) && Avoids(h, kids[k], used)
    decreases Height(kids[k]), 5
  {
    hide Footprint, IsTree, Holds, Fixed, Erase, RowFootprint;
    ghost var entries, all := m.entries, used + RowFootprint(kids) + {m};
    var r;
    r, h := Fix(format, m.entries[k], kids[k], all);
    ForestAfter(kids, m, k, h, all);
    forall j | j in kids && j != k ensures Holds(entries[j], kids[j]) {
      assert old(Holds(entries[j], kids[j]));
      assert Footprint(kids[j]) !! Footprint(kids[k]);
      assert old(allocated(Footprint(kids[j])));
    }
    ghost var after := kids[k := h];
    assert HoldsRow(entries[k := r], after);
    m.entries := m.entries[k := r];
  }

  method FixEntries(format: Key -> string, m: StringMap, ghost kids: map<string, Shape>, ghost used: set<object>)
    returns (ghost fixed: map<string, Shape>)
    requires HoldsRow(m.entries, kids) && IsForest(kids, m)
    modifies m, RowFootprint(kids)
    ensures HoldsRow(m.entries, fixed) && IsForest(fixed, m) && RowFixed(format, kids, fixed, used)
    decreases Height(StringShape(m, kids)), 1
  {
    hide Footprint, IsTree, Holds, Fixed, Erase, RowFootprint, IsForest, Avoids;
    var todo := m.entries.Keys;
    fixed := kids;
    while todo != {}
      invariant todo <= kids.Keys == fixed.Keys && HoldsRow(m.entries, fixed) && IsForest(fixed, m)
      invariant forall k :: k in todo ==> fixed[k] == kids[k]
      invariant forall k :: k in kids && k !in todo ==>
                  Fixed(format, Erase(kids[k]), Erase(fixed[k])) && Avoids(fixed[k], kids[k], used)
      decreases todo
    {
      var k :| k in todo;
      ghost var h := FixEntry(format, m, k, fixed, used);
      fixed := fixed[k := h];
      todo := todo - {k};
    }
  }

  /** One turn of the loop over a slice. */
  method FixItem(format: Key -> string, a: array<Value>, i: nat, ghost items: map<nat, Shape>,
                 ghost used: set<object>)
    returns (ghost h: Shape)
    requires i < a.Length && HoldsRow(Elements(a), items) && IsForest(items, a)
    modifies a, Footprint(items[i])
    ensures HoldsRow(Elements(a), items[i := h]) && IsForest(items[i := h], a)
    ensures Fixed(format, Erase(items[i]), Erase(h)) && Avoids(h, items[i], used)
    decreases Height(items[i]), 5
  {
    hide Footprint, IsTree, Holds, Fixed, Erase, RowFootprint;
    ghost var entries, all := Elements(a), used + RowFootprint(items) + {a};
    var r;
    r, h := Fix(format, a[i], items[i], all);
    ForestAfter(items, a, i, h, all);
    forall j | j in items && j != i ensures Holds(entries[j], items[j]) {
      assert old(Holds(entries[j], items[j]));
      assert Footprint(items[j]) !! Footprint(items[i]);
      assert old(allocated(Footprint(items[j])));
    }
    ghost var after := items[i := h];
    assert HoldsRow(entries[i := r], after);
    a[i] := r;
    assert Elements(a) == entries[i := r];
  }

  lemma RowIsFixed<K(!new)>(format: Key -> string, before: map<K, Shape>, after: map<K, Shape>, used: set<object>)
    requires after.Keys == before.Keys
    requires forall k :: k in before ==>
               Fixed(format, Erase(before[k]), Erase(after[k])) && Avoids(after[k], before[k], used)
    ensures RowFixed(format, before, after, used)
  {
  }

  method FixItems(format: Key -> string, a: array<Value>, ghost items: map<nat, Shape>, ghost used: set<object>)
    returns (ghost fixed: map<nat, Shape>)
    requires HoldsRow(Elements(a), items) && IsForest(items, a)
    modifies a, RowFootprint(items)
    ensures HoldsRow(Elements(a), fixed) && IsForest(fixed, a) && RowFixed(format, items, fixed, used)
    decreases Height(SliceShape(a, items)), 1
  {
    hide Footprint, IsTree, Holds, Fixed, Erase, RowFootprint, IsForest, Avoids, Height, RowFixed;
    assert forall i :: i in items <==> 0 <= i < a.Length;
    hide HoldsRow, Elements;
    fixed := items;
    for i := 0 to a.Length
      invariant items.Keys == fixed.Keys && HoldsRow(Elements(a), fixed) && IsForest(fixed, a)
      invariant forall k :: k in items && i <= k ==> fixed[k] == items[k]
      invariant forall k :: k in items && k < i ==>
                  Fixed(format, Erase(items[k]), Erase(fixed[k])) && Avoids(fixed[k], items[k], used)
    {
      ghost var h := FixItem(format, a, i, fixed, used);
      fixed := fixed[i := h];
    }
    assert RowFixed(format, items, fixed, used) by { RowIsFixed(format, items, fixed, used); }
  }

  /** The repaired tree reuses the objects of the original one and none of the others in `used`. */
  method Fix(format: Key -> string, v: Value, ghost g: Shape, ghost used: set<object>)
    returns (r: Value, ghost h: Shape)
    requires Holds(v, g) && IsTree(g)
    modifies Footprint(g)
    ensures Holds(r, h) && IsTree(h) && Fixed(format, Erase(g), Erase(h)) && Avoids(h, g, used)
    ensures !v.AnyMapRef? ==> r == v
    decreases Height(g), if g.AnyShape? then 4 else 2
  {
    hide Footprint, IsTree, Fixed, Erase, HoldsRow, IsForest, RowFootprint, Avoids, RowFixed;
    match v
    case Scalar(_) =>
      r, h := v, g;
      assert Fixed(format, Erase(g), Erase(h)) && Avoids(h, g, used) by { FixedLeaf(format, g, used); }
    case StringMapRef(m) =>
      OpenStringMap(m, g);
      hide Holds;
      ghost var kids := FixEntries(format, m, g.kids, used);
      r, h := v, StringShape(m, kids);
      CloseStringMap(m, kids);
      FixedStringMap(format, m, g.kids, kids, used);
    case SliceRef(a) =>
      OpenSlice(a, g);
      hide Holds, Elements;
      ghost var items := FixItems(format, a, g.items, used);
      r, h := v, SliceShape(a, items);
      CloseSlice(a, items);
      FixedSlice(format, a, g.items, items, used);
    case AnyMapRef(am) =>
      r, h := FixAnyMap(format, am, g, used);
  }

  /** There are such heaps: a map with one arbitrary key, and what it is repaired to. */
  lemma OneEntryIsATree(format: Key -> string, m: AnyMap, k: Key, s: string)
    requires m.entries == map[k := Scalar(s)]
    ensures var g := AnyShape(m, map[k := LeafShape(s)]);
            && IsTree(g) && Holds(AnyMapRef(m), g) && Erase(g) == AnyNode(map[k := Leaf(s)])
            && Fixed(format, Erase(g), StringNode(map[format(k) := Leaf(s)]))
  {
    var kids := map[k := LeafShape(s)];
    var g := AnyShape(m, kids);
    assert kids[k] == LeafShape(s) && Erase(LeafShape(s)) == Leaf(s);
    assert Footprint(LeafShape(s)) == {};
    assert Erase(g) == AnyNode(map[k := Leaf(s)]);
    assert map[format(k) := Leaf(s)][format(k)] == Leaf(s);
  }

  /** What unmarshalBuildTemplate does with a decoded document: its result is dropped, and the map
      passed in is itself the repaired tree. */
  method RepairTemplate(format: Key -> string, m: StringMap, ghost g: Shape) returns (ghost h: Shape)
    requires Holds(StringMapRef(m), g) && IsTree(g)
    modifies Footprint(g)
    ensures Holds(StringMapRef(m), h) && Fixed(format, Erase(g), Erase(h)) && HasOnlyStringMaps(Erase(h))
  {
    hide *;
    var r;
    r, h := Fix(format, StringMapRef(m), g, {});
    FixedHasOnlyStringMaps(format, Erase(g), Erase(h));
  }
}
