/** What the repair of a decoded YAML tree means (config/config.go, fix). A tree decoded from YAML has
    two kinds of map nodes, with string keys and with arbitrary keys; the repair turns the latter into
    the former. `format` is how a key is printed. */
module YamlTree {

  datatype Key = StringKey(s: string) | OtherKey(n: int)

  datatype Tree =
    | Leaf(value: string)
    | StringNode(kids: map<string, Tree>)
    | AnyNode(anyKids: map<Key, Tree>)
    | ListNode(items: seq<Tree>)

  /** No map with arbitrary keys is left, at any depth. */
  predicate HasOnlyStringMaps(t: Tree) {
    match t
    case Leaf(_) => true
    case StringNode(kids) => forall s :: s in kids ==> HasOnlyStringMaps(kids[s])
    case AnyNode(_) => false
    case ListNode(items) => forall i :: 0 <= i < |items| ==> HasOnlyStringMaps(items[i])
  }

  /** `r` is a repair of `t`. Where keys of one node print alike, any one of their entries is kept:
      the order in which Go visits a map is not determined. */
  ghost predicate Fixed(format: Key -> string, t: Tree, r: Tree)
    decreases t
  {
    match t
    case Leaf(_) => r == t
    case StringNode(kids) =>
      && r.StringNode? && r.kids.Keys == kids.Keys
      && forall s :: s in kids ==> Fixed(format, kids[s], r.kids[s])
    case AnyNode(kids) =>
      && r.StringNode?
      && (forall k :: k in kids ==> format(k) in r.kids)
      && forall s :: s in r.kids ==> exists k :: k in kids && format(k) == s && Fixed(format, kids[k], r.kids[s])
    case ListNode(items) =>
      && r.ListNode? && |r.items| == |items|
      && forall i :: 0 <= i < |items| ==> Fixed(format, items[i], r.items[i])
  }

  lemma {:induction false} FixedHasOnlyStringMaps(format: Key -> string, t: Tree, r: Tree)
    requires Fixed(format, t, r)
    ensures HasOnlyStringMaps(r)
    decreases t
  {
    match t
    case Leaf(_) =>
    case StringNode(kids) =>
      forall s | s in r.kids ensures HasOnlyStringMaps(r.kids[s]) {
        FixedHasOnlyStringMaps(format, kids[s], r.kids[s]);
      }
    case AnyNode(kids) =>
      forall s | s in r.kids ensures HasOnlyStringMaps(r.kids[s]) {
        var k :| k in kids && format(k) == s && Fixed(format, kids[k], r.kids[s]);
        FixedHasOnlyStringMaps(format, kids[k], r.kids[s]);
      }
    case ListNode(items) =>
      forall i | 0 <= i < |r.items| ensures HasOnlyStringMaps(r.items[i]) {
        FixedHasOnlyStringMaps(format, items[i], r.items[i]);
      }
  }

  /** Nothing to repair: nothing changes. */
  lemma {:induction false} FixedOfStringMaps(format: Key -> string, t: Tree, r: Tree)
    requires HasOnlyStringMaps(t)
    ensures Fixed(format, t, r) <==> r == t
    decreases t
  {
    match t
    case Leaf(_) =>
    case StringNode(kids) =>
      if r.StringNode? && r.kids.Keys == kids.Keys {
        forall s | s in kids ensures Fixed(format, kids[s], r.kids[s]) <==> r.kids[s] == kids[s] {
          FixedOfStringMaps(format, kids[s], r.kids[s]);
        }
      }
      assert Fixed(format, t, r) ==> r.kids == kids;
    case ListNode(items) =>
      if r.ListNode? && |r.items| == |items| {
        forall i | 0 <= i < |items| ensures Fixed(format, items[i], r.items[i]) <==> r.items[i] == items[i] {
          FixedOfStringMaps(format, items[i], r.items[i]);
        }
      }
      assert Fixed(format, t, r) ==> r.items == items;
  }

  /** Repairing twice is repairing once. */
  lemma FixedIsIdempotent(format: Key -> string, t: Tree, r: Tree, again: Tree)
    requires Fixed(format, t, r)
    ensures Fixed(format, r, again) <==> again == r
  {
    FixedHasOnlyStringMaps(format, t, r);
    FixedOfStringMaps(format, r, again);
  }

  /** To repair a map with arbitrary keys, copy its entries under their printed keys and repair that. */
  lemma FixedThroughCopy(format: Key -> string, anyKids: map<Key, Tree>, kids: map<string, Tree>,
                         from: map<string, Key>, r: Tree)
    requires from.Keys == kids.Keys && forall k :: k in anyKids ==> format(k) in kids
    requires forall s :: s in from ==> from[s] in anyKids && format(from[s]) == s && kids[s] == anyKids[from[s]]
    requires Fixed(format, StringNode(kids), r)
    ensures Fixed(format, AnyNode(anyKids), r)
  {
  }

  // ----- string-keyed trees

  /** Every key of every map is a string. */
  predicate HasOnlyStringKeys(t: Tree) {
    match t
    case Leaf(_) => true
    case StringNode(kids) => forall s :: s in kids ==> HasOnlyStringKeys(kids[s])
    case AnyNode(kids) => forall k :: k in kids ==> k.StringKey? && HasOnlyStringKeys(kids[k])
    case ListNode(items) => forall i :: 0 <= i < |items| ==> HasOnlyStringKeys(items[i])
  }

  /** Trees of string maps are string-keyed, and it makes no difference whether the decoder gave a map its
      string keys as strings or as arbitrary keys. */
  lemma {:induction false} StringMapsAreStringKeyed(t: Tree)
    requires HasOnlyStringMaps(t)
    ensures HasOnlyStringKeys(t)
  {
    match t
    case Leaf(_) =>
    case StringNode(kids) =>
      forall s | s in kids ensures HasOnlyStringKeys(kids[s]) {
        StringMapsAreStringKeyed(kids[s]);
      }
    case ListNode(items) =>
      forall i | 0 <= i < |items| ensures HasOnlyStringKeys(items[i]) {
        StringMapsAreStringKeyed(items[i]);
      }
  }

  lemma KindOfKeysDoesNotMatter(kids: map<string, Tree>, anyKids: map<Key, Tree>)
    requires forall k :: k in anyKids <==> k.StringKey? && k.s in kids
    requires forall s :: s in kids ==> anyKids[StringKey(s)] == kids[s]
    ensures HasOnlyStringKeys(AnyNode(anyKids)) <==> HasOnlyStringKeys(StringNode(kids))
  {
    assert forall s :: s in kids ==> StringKey(s) in anyKids;
  }

  datatype Step = Into(s: string) | At(i: nat)

  /** What is found at the end of a path: a leaf, a map with its keys, a list with its length. */
  datatype Found = LeafFound(value: string) | MapFound(keys: set<string>) | ListFound(length: nat) | NothingFound

  function Describe(t: Tree): Found {
    match t
    case Leaf(value) => LeafFound(value)
    case StringNode(kids) => MapFound(kids.Keys)
    case AnyNode(kids) => MapFound(set k | k in kids && k.StringKey? :: k.s)
    case ListNode(items) => ListFound(|items|)
  }

  function Find(t: Tree, path: seq<Step>): Found
    decreases |path|
  {
    if path == [] then Describe(t)
    else
      match (t, path[0])
      case (StringNode(kids), Into(s)) => if s in kids then Find(kids[s], path[1..]) else NothingFound
      case (AnyNode(kids), Into(s)) =>
        if StringKey(s) in kids then Find(kids[StringKey(s)], path[1..]) else NothingFound
      case (ListNode(items), At(i)) => if i < |items| then Find(items[i], path[1..]) else NothingFound
      case _ => NothingFound
  }

  /** Strings are printed as they are. */
  ghost predicate PrintsStrings(format: Key -> string) {
    forall s :: format(StringKey(s)) == s
  }

  lemma DescribeFixed(format: Key -> string, t: Tree, r: Tree)
    requires PrintsStrings(format) && HasOnlyStringKeys(t) && Fixed(format, t, r)
    ensures Describe(r) == Describe(t)
  {
  }

  /** The repair of a string-keyed tree keeps what every path leads to: each leaf, each key set, each
      list with its length and order. */
  lemma {:induction false} FixedKeepsEverything(format: Key -> string, t: Tree, r: Tree, path: seq<Step>)
    requires PrintsStrings(format) && HasOnlyStringKeys(t) && Fixed(format, t, r)
    ensures Find(r, path) == Find(t, path)
    decreases |path|
  {
    if path == [] {
      DescribeFixed(format, t, r);
    } else {
      match (t, path[0])
      case (StringNode(kids), Into(s)) =>
        if s in kids {
          FixedKeepsEverything(format, kids[s], r.kids[s], path[1..]);
        }
      case (AnyNode(kids), Into(s)) =>
        assert format(StringKey(s)) == s;
        if s in r.kids {
          var k :| k in kids && format(k) == s && Fixed(format, kids[k], r.kids[s]);
          assert k == StringKey(s);
          FixedKeepsEverything(format, kids[k], r.kids[s], path[1..]);
        }
      case (ListNode(items), At(i)) =>
        if i < |items| {
          FixedKeepsEverything(format, items[i], r.items[i], path[1..]);
        }
      case _ =>
    }
  }

  // ----- keys that print alike

  lemma {:induction false} ImageSize(format: Key -> string, keys: set<Key>, image: set<string>)
    requires forall k :: k in keys ==> format(k) in image
    requires forall s :: s in image ==> exists k :: k in keys && format(k) == s
    ensures |image| <= |keys|
    ensures |image| == |keys| <==> forall j, k :: j in keys && k in keys && format(j) == format(k) ==> j == k
    decreases keys
  {
    if keys != {} {
      var k :| k in keys;
      var rest := keys - {k};
      if exists j :: j in rest && format(j) == format(k) {
        ImageSize(format, rest, image);
      } else {
        ImageSize(format, rest, image - {format(k)});
      }
    }
  }

  /** A node loses entries exactly when two of its keys print alike. */
  lemma EntriesKeptIffKeysPrintApart(format: Key -> string, t: Tree, r: Tree)
    requires t.AnyNode? && Fixed(format, t, r)
    ensures |r.kids| <= |t.anyKids|
    ensures |r.kids| == |t.anyKids|
            <==> forall j, k :: j in t.anyKids && k in t.anyKids && format(j) == format(k) ==> j == k
  {
    ImageSize(format, t.anyKids.Keys, r.kids.Keys);
  }

  /** The verb `%s` prints the integer 1 as `%!s(int=1)`, which is also a string key: which of the two
      entries is left is not determined. */
  lemma KeysCanPrintAlike(format: Key -> string)
    requires PrintsStrings(format) && format(OtherKey(1)) == "%!s(int=1)"
    ensures var t := AnyNode(map[StringKey("%!s(int=1)") := Leaf("a"), OtherKey(1) := Leaf("b")]);
            && |t.anyKids| == 2
            && Fixed(format, t, StringNode(map["%!s(int=1)" := Leaf("a")]))
            && Fixed(format, t, StringNode(map["%!s(int=1)" := Leaf("b")]))
            && forall r :: Fixed(format, t, r) ==> |r.kids| == 1
  {
    var alike := "%!s(int=1)";
    assert format(StringKey(alike)) == alike;
    var t := AnyNode(map[StringKey(alike) := Leaf("a"), OtherKey(1) := Leaf("b")]);
    forall r | Fixed(format, t, r) ensures |r.kids| == 1 {
      assert r.kids.Keys == {alike};
    }
  }
}
