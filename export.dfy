/**
 * Translation flattening for `translations:export`: a nested translation
 * array becomes an ordered array keyed by dot-joined paths.
 *
 * Keys are strings; an integer key stands for its decimal text, which is how
 * PHP identifies the two.
 */
module Export {
  import opened Wrappers
  import opened PhpArray
  import opened Seqs

  /** A translation value: a leaf (anything that is not an array) or a nested array. */
  datatype Value = Leaf(text: string) | Group(entries: seq<Entry>)

  /** One key of a translation array and what it holds. */
  datatype Entry = Entry(key: string, value: Value)

  /** The key under which an entry is stored: its own key at the top, `prefix.key` below. */
  function FullKey(prefix: string, key: string): (k: string)
    ensures prefix == "" ==> k == key
    ensures prefix != "" ==> k == prefix + "." + key
  {
    if prefix == "" then key else prefix + "." + key
  }

  /**
   * The loop of `flattenTranslations` from an intermediate `$result`: a leaf
   * is assigned under its full key, a nested array is flattened under its
   * full key and merged in with `+=`.
   */
  function FlattenFrom(result: Dict<string, string>, entries: seq<Entry>, prefix: string): Dict<string, string>
    decreases entries
  {
    if entries == [] then result
    else
      var key := FullKey(prefix, entries[0].key);
      var next := match entries[0].value
        case Leaf(text) => Assign(result, key, text)
        case Group(children) => Union(result, FlattenFrom([], children, key));
      FlattenFrom(next, entries[1..], prefix)
  }

  /** `flattenTranslations($translations, $prefix)`. */
  function Flatten(entries: seq<Entry>, prefix: string): Dict<string, string> {
    FlattenFrom([], entries, prefix)
  }

  /**
   * Every leaf of the input under its dot-joined key, in document order: the
   * reference the flattened array is compared with.
   */
  function Leaves(entries: seq<Entry>, prefix: string): Dict<string, string>
    decreases entries
  {
    if entries == [] then []
    else
      var key := FullKey(prefix, entries[0].key);
      (match entries[0].value
       case Leaf(text) => [(key, text)]
       case Group(children) => Leaves(children, key))
      + Leaves(entries[1..], prefix)
  }

  /**
   * The method: a loop over the entries that recurses into nested arrays,
   * computing `Flatten`.
   */
  method FlattenTranslations(translations: seq<Entry>, prefix: string) returns (result: Dict<string, string>)
    ensures result == Flatten(translations, prefix)
    decreases translations
  {
    result := [];
    for i := 0 to |translations|
      invariant FlattenFrom(result, translations[i..], prefix) == Flatten(translations, prefix)
    {
      assert translations[i..][0] == translations[i] && translations[i..][1..] == translations[i + 1..];
      var fullKey := FullKey(prefix, translations[i].key);
      match translations[i].value
      case Group(children) =>
        var nested := FlattenTranslations(children, fullKey);
        result := Union(result, nested);
      case Leaf(text) =>
        result := Assign(result, fullKey, text);
    }
    assert translations[|translations|..] == [];
  }

  /** The flattened keys are exactly the keys of the leaves (plus those already present). */
  lemma {:induction false} FlattenKeys(result: Dict<string, string>, entries: seq<Entry>, prefix: string, k: string)
    ensures k in Keys(FlattenFrom(result, entries, prefix))
        <==> k in Keys(result) || k in Keys(Leaves(entries, prefix))
    decreases entries
  {
    if entries != [] {
      var key := FullKey(prefix, entries[0].key);
      match entries[0].value
      case Leaf(text) =>
        AssignKeys(result, key, text);
        FlattenKeys(Assign(result, key, text), entries[1..], prefix, k);
        KeysAppend([(key, text)], Leaves(entries[1..], prefix));
      case Group(children) =>
        var nested := FlattenFrom([], children, key);
        FlattenKeys([], children, key, k);
        UnionLookup(result, nested, k);
        FlattenKeys(Union(result, nested), entries[1..], prefix, k);
        KeysAppend(Leaves(children, key), Leaves(entries[1..], prefix));
    }
  }

  /** No key of the flattened array occurs twice. */
  lemma {:induction false} FlattenDistinct(result: Dict<string, string>, entries: seq<Entry>, prefix: string)
    requires Distinct(Keys(result))
    ensures Distinct(Keys(FlattenFrom(result, entries, prefix)))
    decreases entries
  {
    if entries != [] {
      var key := FullKey(prefix, entries[0].key);
      match entries[0].value
      case Leaf(text) =>
        AssignDistinct(result, key, text);
        FlattenDistinct(Assign(result, key, text), entries[1..], prefix);
      case Group(children) =>
        FlattenDistinct([], children, key);
        UnionDistinct(result, FlattenFrom([], children, key));
        FlattenDistinct(Union(result, FlattenFrom([], children, key)), entries[1..], prefix);
    }
  }

  /** Every pair of the flattened array is a leaf of the input under its own key. */
  lemma {:induction false} FlattenValuesAreLeaves(result: Dict<string, string>, entries: seq<Entry>, prefix: string)
    ensures forall i :: 0 <= i < |FlattenFrom(result, entries, prefix)| ==>
      FlattenFrom(result, entries, prefix)[i] in result || FlattenFrom(result, entries, prefix)[i] in Leaves(entries, prefix)
    decreases entries
  {
    if entries != [] {
      var key := FullKey(prefix, entries[0].key);
      var rest := Leaves(entries[1..], prefix);
      match entries[0].value
      case Leaf(text) =>
        AssignPairs(result, key, text);
        FlattenValuesAreLeaves(Assign(result, key, text), entries[1..], prefix);
        assert Leaves(entries, prefix) == [(key, text)] + rest;
      case Group(children) =>
        FlattenValuesAreLeaves([], children, key);
        UnionPairs(result, FlattenFrom([], children, key));
        FlattenValuesAreLeaves(Union(result, FlattenFrom([], children, key)), entries[1..], prefix);
        assert Leaves(entries, prefix) == Leaves(children, key) + rest;
    }
  }

  /**
   * When no two leaves share a dotted key (and none is already present), the
   * flattened array is exactly the leaves, one entry each, in document order.
   */
  lemma {:induction false} FlattenWithoutCollisions(result: Dict<string, string>, entries: seq<Entry>, prefix: string)
    requires Distinct(Keys(result + Leaves(entries, prefix)))
    ensures FlattenFrom(result, entries, prefix) == result + Leaves(entries, prefix)
    decreases entries
  {
    if entries == [] {
      assert result + [] == result;
    } else {
      var key := FullKey(prefix, entries[0].key);
      var rest := Leaves(entries[1..], prefix);
      match entries[0].value
      case Leaf(text) =>
        assert Leaves(entries, prefix) == [(key, text)] + rest;
        AppendAssoc(result, [(key, text)], rest);
        DistinctSplit(result + [(key, text)], rest);
        DistinctSplit(result, [(key, text)]);
        assert [(key, text)][0].0 !in Keys(result);
        AssignNew(result, key, text);
        assert Assign(result, key, text) == result + [(key, text)];
        FlattenWithoutCollisions(result + [(key, text)], entries[1..], prefix);
      case Group(children) =>
        var nested := Leaves(children, key);
        assert Leaves(entries, prefix) == nested + rest;
        AppendAssoc(result, nested, rest);
        DistinctSplit(result + nested, rest);
        DistinctSplit(result, nested);
        assert [] + nested == nested;
        FlattenWithoutCollisions([], children, key);
        assert Union(result, FlattenFrom([], children, key)) == result + nested;
        FlattenWithoutCollisions(result + nested, entries[1..], prefix);
    }
  }

  /** An empty input flattens to an empty array, and an empty nested array adds nothing. */
  lemma EmptyArraysAddNothing(result: Dict<string, string>, key: string, rest: seq<Entry>, prefix: string)
    ensures Flatten([], prefix) == []
    ensures FlattenFrom(result, [Entry(key, Group([]))] + rest, prefix) == FlattenFrom(result, rest, prefix)
  {
    assert ([Entry(key, Group([]))] + rest)[1..] == rest;
    assert FlattenFrom([], [], FullKey(prefix, key)) == [];
    assert Union(result, []) == result + [] == result;
  }

  /** A single entry flattens to its leaf under its full key, or to its nested array flattened under it. */
  lemma FlattenOne(e: Entry, prefix: string)
    ensures e.value.Leaf? ==> Flatten([e], prefix) == [(FullKey(prefix, e.key), e.value.text)]
    ensures e.value.Group? ==> Flatten([e], prefix) == Flatten(e.value.entries, FullKey(prefix, e.key))
  {
    var key := FullKey(prefix, e.key);
    assert [e][0] == e && [e][1..] == [];
    match e.value
    case Leaf(text) =>
      assert Flatten([e], prefix) == FlattenFrom(Assign([], key, text), [], prefix);
    case Group(children) =>
      var flat := Flatten(children, key);
      assert Keys<string, string>([]) == [];
      assert Union([], flat) == [] + flat == flat;
      assert Flatten([e], prefix) == FlattenFrom(Union([], flat), [], prefix);
  }

  /** A nested array under `key`: `path[0]` holds `path[1]` holds ... holds the leaf `text`. */
  function Nest(path: seq<string>, text: string): (e: Entry)
    requires path != []
    ensures e.key == path[0]
  {
    if |path| == 1 then Entry(path[0], Leaf(text))
    else Entry(path[0], Group([Nest(path[1..], text)]))
  }

  /** The key `flattenTranslations` builds along `path`, prefixing step by step. */
  function JoinPath(prefix: string, path: seq<string>): string
    decreases path
  {
    if path == [] then prefix else JoinPath(FullKey(prefix, path[0]), path[1..])
  }

  /** `"." + path[0] + "." + path[1] + ...` */
  function DotEach(path: seq<string>): (s: string)
    ensures path == [] ==> s == ""
  {
    if path == [] then "" else "." + path[0] + DotEach(path[1..])
  }

  /** Below the top, the path is appended with a dot before each key. */
  lemma {:induction false} JoinPathBelowTop(prefix: string, path: seq<string>)
    requires prefix != ""
    ensures JoinPath(prefix, path) == prefix + DotEach(path)
    decreases path
  {
    if path != [] {
      JoinPathBelowTop(prefix + "." + path[0], path[1..]);
      assert prefix + "." + path[0] + DotEach(path[1..]) == prefix + ("." + path[0] + DotEach(path[1..]));
    }
  }

  /**
   * A leaf reached through keys k1, ..., kn (k1 non-empty) is stored under
   * "k1.k2. ... .kn", and nowhere else.
   */
  lemma {:induction false} NestedLeafKey(path: seq<string>, text: string)
    requires path != [] && path[0] != ""
    ensures Flatten([Nest(path, text)], "") == [(path[0] + DotEach(path[1..]), text)]
  {
    NestedLeafFlattens(path, text, "");
    JoinPathBelowTop(path[0], path[1..]);
  }

  lemma {:induction false} NestedLeafFlattens(path: seq<string>, text: string, prefix: string)
    requires path != []
    ensures Flatten([Nest(path, text)], prefix) == [(JoinPath(prefix, path), text)]
    decreases |path|
  {
    var key := FullKey(prefix, path[0]);
    FlattenOne(Nest(path, text), prefix);
    if |path| == 1 {
      assert JoinPath(prefix, path) == JoinPath(key, []) == key;
    } else {
      NestedLeafFlattens(path[1..], text, key);
    }
  }

  /**
   * An empty top-level key is invisible: its children are stored under their
   * own keys, as if they stood at the top.
   */
  lemma EmptyTopKeyIsInvisible(children: seq<Entry>)
    ensures Flatten([Entry("", Group(children))], "") == Flatten(children, "")
  {
    FlattenOne(Entry("", Group(children)), "");
  }

  /** A nested array merged in with `+=` never changes a key that is already present. */
  lemma MergeNeverOverwrites(result: Dict<string, string>, key: string, children: seq<Entry>, prefix: string, k: string)
    requires k in Keys(result)
    ensures Lookup(FlattenFrom(result, [Entry(key, Group(children))], prefix), k) == Lookup(result, k)
  {
    assert [Entry(key, Group(children))][1..] == [];
    UnionLookup(result, Flatten(children, FullKey(prefix, key)), k);
  }

  /** A leaf assigned directly always replaces what its key held. */
  lemma LeafOverwrites(result: Dict<string, string>, key: string, text: string, prefix: string, k: string)
    ensures Lookup(FlattenFrom(result, [Entry(key, Leaf(text))], prefix), k)
         == if k == FullKey(prefix, key) then Some(text) else Lookup(result, k)
  {
    assert [Entry(key, Leaf(text))][1..] == [];
    AssignLookup(result, FullKey(prefix, key), text, k);
  }

  /** `['a.b' => '1', 'a' => ['b' => '2']]` flattens to `['a.b' => '1']`: the merge loses. */
  lemma EarlierLeafSurvivesMerge()
    ensures Flatten([Entry("a.b", Leaf("1")), Entry("a", Group([Entry("b", Leaf("2"))]))], "") == [("a.b", "1")]
  {
    var inner := [Entry("b", Leaf("2"))];
    var entries := [Entry("a.b", Leaf("1")), Entry("a", Group(inner))];
    assert entries[1..] == [Entry("a", Group(inner))] && entries[1..][1..] == [] && inner[1..] == [];
    assert "a" + "." + "b" == "a.b";
    assert Flatten(inner, "a") == [("a.b", "2")];
    assert Keys([("a.b", "1")]) == ["a.b"];
    assert Union([("a.b", "1")], [("a.b", "2")]) == [("a.b", "1")] + [];
  }

  /** `['a' => ['b' => '2'], 'a.b' => '1']` flattens to `['a.b' => '1']`: the assignment wins. */
  lemma LaterLeafOverwritesMerge()
    ensures Flatten([Entry("a", Group([Entry("b", Leaf("2"))])), Entry("a.b", Leaf("1"))], "") == [("a.b", "1")]
  {
    var inner := [Entry("b", Leaf("2"))];
    var entries := [Entry("a", Group(inner)), Entry("a.b", Leaf("1"))];
    assert entries[1..] == [Entry("a.b", Leaf("1"))] && entries[1..][1..] == [] && inner[1..] == [];
    assert "a" + "." + "b" == "a.b";
    assert Flatten(inner, "a") == [("a.b", "2")];
    assert Union([], [("a.b", "2")]) == [] + [("a.b", "2")];
    assert Keys([("a.b", "2")]) == ["a.b"];
  }
}