/**
 * The ordered key/value block parser. A block is an ordered list of
 * (key, list of values) entries; every value gets the number of values
 * declared before it in the same block as its `order`, across all keys.
 */
module KeyValuesYaml {
  import opened Wrappers
  import opened MappingTypes

  /** A decoded YAML node as the block parser sees it: a string, a list, or anything else. */
  datatype Node = Str(s: string) | List(items: seq<Node>) | Other

  /** One entry of the block, in document order. */
  datatype MapItem = MapItem(key: Node, value: Node)

  predicate AllStrings(vs: seq<Node>) {
    forall i :: 0 <= i < |vs| ==> vs[i].Str?
  }

  /** The entry has a string key and a list of strings as its value. */
  predicate ItemOk(item: MapItem) {
    item.key.Str? && item.value.List? && AllStrings(item.value.items)
  }

  predicate WellFormed(slice: seq<MapItem>) {
    forall i :: 0 <= i < |slice| ==> ItemOk(slice[i])
  }

  /** The string a node holds ("" for any other node). */
  function StrOf(n: Node): string {
    if n.Str? then n.s else ""
  }

  /** The elements of a list node (none for any other node). */
  function ItemsOf(n: Node): seq<Node> {
    if n.List? then n.items else []
  }

  /** The (key, value) pairs of one entry's value list. */
  function Pairs(k: Key, vs: seq<Node>): (ps: seq<(Key, Value)>)
    ensures |ps| == |vs|
  {
    seq(|vs|, i requires 0 <= i < |vs| => (k, StrOf(vs[i])))
  }

  /** Every (key, value) pair of the block in traversal order: entries in order, values in order. */
  function Flat(slice: seq<MapItem>): seq<(Key, Value)> {
    if slice == [] then []
    else
      var last := slice[|slice| - 1];
      Flat(slice[..|slice| - 1]) + Pairs(StrOf(last.key), ItemsOf(last.value))
  }

  /** The number of values of a block, counted entry by entry. */
  function CountValues(slice: seq<MapItem>): nat {
    if slice == [] then 0 else CountValues(slice[..|slice| - 1]) + |ItemsOf(slice[|slice| - 1].value)|
  }

  /**
   * The values a pair list gives to key `k`, each tagged with its position
   * in the whole list.
   */
  function Tagged(k: Key, es: seq<(Key, Value)>): seq<OrderedValue> {
    if es == [] then []
    else
      Tagged(k, es[..|es| - 1])
      + (if es[|es| - 1].0 == k then [OrderedValue(es[|es| - 1].1, |es| - 1)] else [])
  }

  /** The error message of the first entry that is not well formed, as the source formats it. */
  function ItemError(item: MapItem): string
    requires !ItemOk(item)
  {
    if !item.key.Str? then "mapping key '' not a string"
    else if !item.value.List? then "mapping key '" + item.key.s + "' not a string"
    else "mapping value '' not a string"
  }

  lemma WellFormedStep(slice: seq<MapItem>, i: nat)
    requires i < |slice| && WellFormed(slice[..i]) && ItemOk(slice[i])
    ensures WellFormed(slice[..i + 1])
  {
    assert forall n :: 0 <= n < i ==> slice[..i + 1][n] == slice[..i][n];
  }

  lemma PairsAppend(k: Key, vs: seq<Node>, j: nat)
    requires j < |vs|
    ensures Pairs(k, vs[..j + 1]) == Pairs(k, vs[..j]) + [(k, StrOf(vs[j]))]
  {
  }

  lemma FlatAppend(slice: seq<MapItem>, i: nat)
    requires i < |slice|
    ensures Flat(slice[..i + 1]) == Flat(slice[..i]) + Pairs(StrOf(slice[i].key), ItemsOf(slice[i].value))
  {
    assert slice[..i + 1][..i] == slice[..i];
  }

  lemma TaggedAppend(k: Key, es: seq<(Key, Value)>, p: (Key, Value))
    ensures Tagged(k, es + [p]) == Tagged(k, es) + (if p.0 == k then [OrderedValue(p.1, |es|)] else [])
  {
    assert (es + [p])[..|es|] == es;
  }

  /** `kv0` after appending the pairs of `es` one at a time, each with its position as order. */
  function Apply(kv0: KeyValues, es: seq<(Key, Value)>): KeyValues {
    if es == [] then kv0
    else
      var kv := Apply(kv0, es[..|es| - 1]);
      var p := es[|es| - 1];
      kv[p.0 := Values(kv, p.0) + [OrderedValue(p.1, |es| - 1)]]
  }

  lemma ApplyAppend(kv0: KeyValues, es: seq<(Key, Value)>, p: (Key, Value))
    ensures Apply(kv0, es + [p])
      == Apply(kv0, es)[p.0 := Values(Apply(kv0, es), p.0) + [OrderedValue(p.1, |es|)]]
  {
    assert (es + [p])[..|es|] == es;
  }

  /** `kv` is `kv0` with the values of the pair list `es` appended, key by key. */
  ghost predicate Extends(kv: KeyValues, kv0: KeyValues, es: seq<(Key, Value)>) {
    && (forall k :: Values(kv, k) == Values(kv0, k) + Tagged(k, es))
    && (forall k :: k in kv <==> k in kv0 || Tagged(k, es) != [])
  }

  /** Appending one value under `key` keeps the relation for every single key `k`. */
  lemma ExtendsAt(kv: KeyValues, kv0: KeyValues, es: seq<(Key, Value)>, key: Key, v: Value, k: Key)
    requires Values(kv, k) == Values(kv0, k) + Tagged(k, es)
    requires k in kv <==> k in kv0 || Tagged(k, es) != []
    ensures Values(kv[key := Values(kv, key) + [OrderedValue(v, |es|)]], k) == Values(kv0, k) + Tagged(k, es + [(key, v)])
    ensures k in kv[key := Values(kv, key) + [OrderedValue(v, |es|)]] <==> k in kv0 || Tagged(k, es + [(key, v)]) != []
  {
    TaggedAppend(k, es, (key, v));
  }

  /**
   * Appending the pairs one at a time gives every key exactly the values
   * the pair list has for it, in order, each numbered by its position.
   */
  lemma {:induction false} ApplyExtends(kv0: KeyValues, es: seq<(Key, Value)>)
    ensures Extends(Apply(kv0, es), kv0, es)
  {
    if es != [] {
      var init := es[..|es| - 1];
      var p := es[|es| - 1];
      ApplyExtends(kv0, init);
      assert init + [p] == es;
      ApplyAppend(kv0, init, p);
      forall k
        ensures Values(Apply(kv0, es), k) == Values(kv0, k) + Tagged(k, es)
        ensures k in Apply(kv0, es) <==> k in kv0 || Tagged(k, es) != []
      {
        ExtendsAt(Apply(kv0, init), kv0, init, p.0, p.1, k);
      }
    }
  }

  /** One turn of the inner loop of the parser appends one pair and numbers it by its position. */
  lemma AppendValuesStep(kv0: KeyValues, es: seq<(Key, Value)>, key: Key, values: seq<Node>, j: nat)
    requires j < |values| && values[j].Str?
    ensures var done := es + Pairs(key, values[..j]);
      && es + Pairs(key, values[..j + 1]) == done + [(key, values[j].s)]
      && Apply(kv0, done + [(key, values[j].s)])
         == Apply(kv0, done)[key := Values(Apply(kv0, done), key) + [OrderedValue(values[j].s, |done|)]]
  {
    var done := es + Pairs(key, values[..j]);
    PairsAppend(key, values, j);
    ApplyAppend(kv0, done, (key, values[j].s));
  }

  /**
   * The inner loop of the parser: appends the values of one entry under `key`,
   * numbering them on from `order`. `es` are the pairs already appended.
   */
  method AppendValues(kv0: KeyValues, kv: KeyValues, ghost es: seq<(Key, Value)>, key: Key, values: seq<Node>, order: int)
    returns (kv': KeyValues, order': int, ok: bool)
    requires order == |es| && kv == Apply(kv0, es)
    ensures ok <==> AllStrings(values)
    ensures ok ==> order' == |es| + |values| && kv' == Apply(kv0, es + Pairs(key, values))
  {
    kv', order' := kv, order;
    ghost var done := es;
    var j := 0;
    assert es + Pairs(key, values[..j]) == es;
    while j < |values|
      invariant 0 <= j <= |values|
      invariant forall n :: 0 <= n < j ==> values[n].Str?
      invariant done == es + Pairs(key, values[..j])
      invariant order' == |done|
      invariant kv' == Apply(kv0, done)
    {
      if !values[j].Str? {
        ok := false;
        return;
      }
      AppendValuesStep(kv0, es, key, values, j);
      kv' := kv'[key := Values(kv', key) + [OrderedValue(values[j].s, order')]];
      done := done + [(key, values[j].s)];
      order' := order' + 1;
      j := j + 1;
    }
    assert values[..j] == values;
    ok := true;
  }

  /**
   * `KeyValues.UnmarshalYAML`: appends every value of the block to `kv0`
   * under its key, with one order counter that starts at 0 for this block and
   * is shared by all of its keys. On a malformed entry the result is only the
   * error of the first such entry.
   */
  method UnmarshalYAML(kv0: KeyValues, slice: seq<MapItem>) returns (kv: KeyValues, err: Option<string>)
    ensures err.None? <==> WellFormed(slice)
    ensures err.None? ==> kv == Apply(kv0, Flat(slice))
    ensures err.None? ==> forall k :: Values(kv, k) == Values(kv0, k) + Tagged(k, Flat(slice))
    ensures err.None? ==> forall k :: k in kv <==> k in kv0 || Tagged(k, Flat(slice)) != []
    ensures err.Some? ==>
      exists i :: 0 <= i < |slice| && WellFormed(slice[..i]) && !ItemOk(slice[i])
                  && err.value == ItemError(slice[i])
  {
    kv := kv0;
    var order := 0;
    var i := 0;
    while i < |slice|
      invariant 0 <= i <= |slice|
      invariant WellFormed(slice[..i])
      invariant order == |Flat(slice[..i])|
      invariant kv == Apply(kv0, Flat(slice[..i]))
    {
      var item := slice[i];
      if !item.key.Str? {
        err := Some("mapping key '' not a string");
        assert !ItemOk(slice[i]) && err.value == ItemError(slice[i]);
        return;
      }
      var key := item.key.s;
      if !item.value.List? {
        err := Some("mapping key '" + key + "' not a string");
        assert !ItemOk(slice[i]) && err.value == ItemError(slice[i]);
        return;
      }
      var ok;
      kv, order, ok := AppendValues(kv0, kv, Flat(slice[..i]), key, item.value.items, order);
      FlatAppend(slice, i);
      if !ok {
        err := Some("mapping value '' not a string");
        assert !ItemOk(slice[i]) && err.value == ItemError(slice[i]);
        return;
      }
      WellFormedStep(slice, i);
      i := i + 1;
    }
    assert slice[..i] == slice;
    ApplyExtends(kv0, Flat(slice));
    err := None;
  }

  /** Every value `Tagged` gives to `k` comes from the pair of `es` at the position its order names. */
  lemma {:induction false} TaggedSound(k: Key, es: seq<(Key, Value)>)
    ensures forall n :: 0 <= n < |Tagged(k, es)| ==>
      0 <= Tagged(k, es)[n].order < |es| && es[Tagged(k, es)[n].order] == (k, Tagged(k, es)[n].value)
  {
    if es != [] {
      var init := es[..|es| - 1];
      var p := es[|es| - 1];
      assert es == init + [p];
      TaggedSound(k, init);
      TaggedAppend(k, init, p);
      var t := Tagged(k, init);
      forall n | 0 <= n < |Tagged(k, es)|
        ensures 0 <= Tagged(k, es)[n].order < |es| && es[Tagged(k, es)[n].order] == (k, Tagged(k, es)[n].value)
      {
        if n < |t| {
          assert Tagged(k, es)[n] == t[n];
          assert es[t[n].order] == init[t[n].order];
        }
      }
    }
  }

  /** The values `Tagged` gives to `k` keep the order of `es`: their orders strictly increase. */
  lemma {:induction false} TaggedIncreasing(k: Key, es: seq<(Key, Value)>)
    ensures forall a, b :: 0 <= a < b < |Tagged(k, es)| ==> Tagged(k, es)[a].order < Tagged(k, es)[b].order
  {
    if es != [] {
      var init := es[..|es| - 1];
      var p := es[|es| - 1];
      assert es == init + [p];
      TaggedIncreasing(k, init);
      TaggedSound(k, init);
      TaggedAppend(k, init, p);
      var t := Tagged(k, init);
      forall a, b | 0 <= a < b < |Tagged(k, es)|
        ensures Tagged(k, es)[a].order < Tagged(k, es)[b].order
      {
        assert Tagged(k, es)[a] == t[a];
        if b < |t| {
          assert Tagged(k, es)[b] == t[b];
        }
      }
    }
  }

  /** Every pair of `es` with key `k` shows up among the values `Tagged` gives to `k`. */
  lemma {:induction false} TaggedComplete(k: Key, es: seq<(Key, Value)>)
    ensures forall q :: 0 <= q < |es| && es[q].0 == k ==>
      exists n :: 0 <= n < |Tagged(k, es)| && Tagged(k, es)[n].order == q
  {
    if es != [] {
      var init := es[..|es| - 1];
      var p := es[|es| - 1];
      assert es == init + [p];
      TaggedComplete(k, init);
      TaggedAppend(k, init, p);
      var t := Tagged(k, init);
      forall q | 0 <= q < |es| && es[q].0 == k
        ensures exists n :: 0 <= n < |Tagged(k, es)| && Tagged(k, es)[n].order == q
      {
        if q < |init| {
          assert es[q] == init[q];
          var n :| 0 <= n < |t| && t[n].order == q;
          assert Tagged(k, es)[n] == t[n];
        } else {
          assert Tagged(k, es)[|t|].order == q;
        }
      }
    }
  }

  lemma {:induction false} FlatLength(slice: seq<MapItem>)
    ensures |Flat(slice)| == CountValues(slice)
  {
    if slice != [] {
      FlatLength(slice[..|slice| - 1]);
    }
  }

  /**
   * Value `j` of entry `i` sits in the traversal right after all the values
   * of the entries before it.
   */
  lemma {:induction false} FlatAt(slice: seq<MapItem>, i: nat, j: nat)
    requires i < |slice| && j < |ItemsOf(slice[i].value)|
    ensures CountValues(slice[..i]) + j < |Flat(slice)|
    ensures Flat(slice)[CountValues(slice[..i]) + j] == (StrOf(slice[i].key), StrOf(ItemsOf(slice[i].value)[j]))
  {
    var n := |slice| - 1;
    var init := slice[..n];
    FlatLength(init);
    if i < n {
      assert init[..i] == slice[..i];
      assert init[i] == slice[i];
      FlatAt(init, i, j);
    } else {
      assert slice[..i] == init;
    }
  }

  /**
   * On a well-formed block, value `j` of entry `i` is given to that entry's
   * key with order "number of values declared before it in the block".
   */
  lemma OrderIsValuesBefore(slice: seq<MapItem>, i: nat, j: nat)
    requires WellFormed(slice)
    requires i < |slice| && j < |slice[i].value.items|
    ensures OrderedValue(slice[i].value.items[j].s, CountValues(slice[..i]) + j)
      in Tagged(slice[i].key.s, Flat(slice))
  {
    var item := slice[i];
    assert ItemOk(item);
    var k := item.key.s;
    var q := CountValues(slice[..i]) + j;
    var es := Flat(slice);
    FlatAt(slice, i, j);
    assert es[q] == (k, item.value.items[j].s);
    var n := TaggedCompleteAt(k, es, q);
    TaggedSoundAt(k, es, n);
  }

  /** The value `Tagged` gives to `k` at position n comes from the pair at its order. */
  lemma TaggedSoundAt(k: Key, es: seq<(Key, Value)>, n: nat)
    requires n < |Tagged(k, es)|
    ensures 0 <= Tagged(k, es)[n].order < |es| && es[Tagged(k, es)[n].order] == (k, Tagged(k, es)[n].value)
  {
    TaggedSound(k, es);
  }

  /** The pair at position q, when it has key `k`, is the value `Tagged` gives to `k` at some position n. */
  lemma TaggedCompleteAt(k: Key, es: seq<(Key, Value)>, q: nat) returns (n: nat)
    requires q < |es| && es[q].0 == k
    ensures n < |Tagged(k, es)| && Tagged(k, es)[n].order == q
  {
    TaggedComplete(k, es);
    n :| 0 <= n < |Tagged(k, es)| && Tagged(k, es)[n].order == q;
  }

  /** The block `A: [a1, a2]` followed by `B: [b1]`. */
  const ExampleBlock: seq<MapItem> := [MapItem(Str("A"), List([Str("a1"), Str("a2")])), MapItem(Str("B"), List([Str("b1")]))]

  lemma ExampleFlat()
    ensures Flat(ExampleBlock) == [("A", "a1"), ("A", "a2"), ("B", "b1")]
  {
    var a := ExampleBlock[0];
    var b := ExampleBlock[1];
    assert Pairs("A", ItemsOf(a.value)) == [("A", "a1"), ("A", "a2")];
    assert Pairs("B", ItemsOf(b.value)) == [("B", "b1")];
    assert ExampleBlock[..1] == [a];
    assert [a][..0] == [];
    assert Flat([a]) == [("A", "a1"), ("A", "a2")];
  }

  /** Key A with values a1, a2 followed by key B with b1 gives A: a1 = 0, a2 = 1 and B: b1 = 2. */
  lemma DeclarationOrderExample()
    ensures WellFormed(ExampleBlock)
    ensures Tagged("A", Flat(ExampleBlock)) == [OrderedValue("a1", 0), OrderedValue("a2", 1)]
    ensures Tagged("B", Flat(ExampleBlock)) == [OrderedValue("b1", 2)]
  {
    ExampleFlat();
    var es1: seq<(Key, Value)> := [("A", "a1")];
    var es2 := es1 + [("A", "a2")];
    var es3 := es2 + [("B", "b1")];
    assert Flat(ExampleBlock) == es3;
    assert es1 == [] + [("A", "a1")];
    TaggedAppend("A", [], ("A", "a1"));
    TaggedAppend("B", [], ("A", "a1"));
    TaggedAppend("A", es1, ("A", "a2"));
    TaggedAppend("B", es1, ("A", "a2"));
    TaggedAppend("A", es2, ("B", "b1"));
    TaggedAppend("B", es2, ("B", "b1"));
  }
}
