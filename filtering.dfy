/**
 * The element filter compiler: the predicates `(tags, key, closed) -> keep`
 * the compiler builds for a table, as a datatype of filter variants with an
 * evaluation function, and the per-table list the compiler emits.
 */
module Filtering {
  import opened Wrappers
  import opened MappingTypes

  /** Go's `tags[k]` on an element's tags: the empty string for a missing key. */
  function TagValue(tags: ElementTags, k: Key): (v: string)
    ensures k in tags ==> v == tags[k]
    ensures k !in tags ==> v == ""
  {
    if k in tags then tags[k] else ""
  }

  /**
   * The regular-expression engine the compiler relies on: which patterns
   * compile, and which strings a compiled pattern matches.
   */
  datatype RegexpEngine = RegexpEngine(compiles: string -> bool, matches: (string, string) -> bool)

  /** How a tag filter tests the value of its key. */
  datatype ValueTest =
    | AnyValue                            // `__any__`: any value
    | OneValue(value: Value)              // exactly one configured value
    | AnyOf(values: seq<OrderedValue>)    // membership in the configured values
    | Matches(pattern: string)            // a compiled regular expression

  datatype ElementFilter =
    | AreaHeuristic(areaTags: set<Key>)     // linestring tables: closed ways that are areas go
    | LinearHeuristic(linearTags: set<Key>) // polygon tables: ways that are lines go
    | TagFilter(onMatch: bool, otherwise: bool, keyname: Key, test: ValueTest)

  /** `findValueInOrderedValue`: whether some entry of `list` has value `v`. */
  function FindValueInOrderedValue(v: Value, list: seq<OrderedValue>): (found: bool)
    ensures found <==> exists i :: 0 <= i < |list| && list[i].value == v
  {
    if list == [] then false
    else if list[0].value == v then true
    else
      var found := FindValueInOrderedValue(v, list[1..]);
      assert forall i :: 0 <= i < |list[1..]| ==> list[1..][i] == list[i + 1];
      found
  }

  function PassesTest(test: ValueTest, re: RegexpEngine, v: string): bool {
    match test
    case AnyValue => true
    case OneValue(w) => v == w
    case AnyOf(values) => FindValueInOrderedValue(v, values)
    case Matches(pattern) => re.matches(pattern, v)
  }

  /** Whether filter `f` keeps an element with `tags`, routed by `key`, whose geometry is `closed` or not. */
  function Eval(f: ElementFilter, re: RegexpEngine, tags: ElementTags, key: Key, closed: bool): (keep: bool)
    // a tag filter whose key is missing yields its no-match result, whatever its test
    ensures f.TagFilter? && f.keyname !in tags ==> keep == f.otherwise
    // `__any__`: only the presence of the key decides
    ensures f.TagFilter? && f.test.AnyValue? ==> keep == (if f.keyname in tags then f.onMatch else f.otherwise)
    // the area heuristic never drops an open way, nor a way tagged area=no
    ensures f.AreaHeuristic? && (!closed || TagValue(tags, "area") == "no") ==> keep
    // the linear heuristic never drops a way tagged area=yes; it drops an open way exactly when the
    // way is not tagged area=yes and its routing key is linear
    ensures f.LinearHeuristic? && TagValue(tags, "area") == "yes" ==> keep
    ensures f.LinearHeuristic? && !closed ==> (keep <==> TagValue(tags, "area") == "yes" || key !in f.linearTags)
    // without an area tag, the area heuristic drops exactly the closed ways routed by an area key
    ensures f.AreaHeuristic? && "area" !in tags ==> (keep <==> !(closed && key in f.areaTags))
  {
    match f
    case AreaHeuristic(areaTags) =>
      if closed && TagValue(tags, "area") == "yes" then false
      else if closed && TagValue(tags, "area") != "no" && key in areaTags then false
      else true
    case LinearHeuristic(linearTags) =>
      if closed && TagValue(tags, "area") == "no" then false
      else if TagValue(tags, "area") != "yes" && key in linearTags then false
      else true
    case TagFilter(onMatch, otherwise, keyname, test) =>
      if keyname in tags && PassesTest(test, re, tags[keyname]) then onMatch else otherwise
  }

  /** Whether every filter of a table's list keeps the element. */
  predicate AllKeep(fs: seq<ElementFilter>, re: RegexpEngine, tags: ElementTags, key: Key, closed: bool) {
    forall i :: 0 <= i < |fs| ==> Eval(fs[i], re, tags, key, closed)
  }

  const AnyKeyword: Value := "__any__"
  const NilKeyword: Value := "__nil__"

  /**
   * `makeFiltersFunction`: the filter for key `keyname` and the configured
   * values, yielding `virtualTrue` when the element's value is accepted and
   * `virtualFalse` otherwise. The table name only appears in the warnings.
   */
  function MakeFiltersFunction(tablename: string, virtualTrue: bool, virtualFalse: bool, keyname: Key,
                               vararr: seq<OrderedValue>): (f: ElementFilter)
    ensures f.TagFilter? && f.onMatch == virtualTrue && f.otherwise == virtualFalse && f.keyname == keyname
    ensures !f.test.Matches?
  {
    if FindValueInOrderedValue(AnyKeyword, vararr) then TagFilter(virtualTrue, virtualFalse, keyname, AnyValue)
    else if |vararr| == 1 then TagFilter(virtualTrue, virtualFalse, keyname, OneValue(vararr[0].value))
    else TagFilter(virtualTrue, virtualFalse, keyname, AnyOf(vararr))
  }

  /** The diagnostics `makeFiltersFunction` logs for the configured values. */
  function FilterWarnings(tablename: string, vararr: seq<OrderedValue>): (w: seq<string>)
    ensures w == [] <==> !(exists i :: 0 <= i < |vararr| && vararr[i].value == NilKeyword)
                         && (|vararr| <= 1 || !(exists i :: 0 <= i < |vararr| && vararr[i].value == AnyKeyword))
    ensures |w| <= 2
  {
    (if FindValueInOrderedValue(NilKeyword, vararr) then [NilWarning(tablename)] else [])
    + (if FindValueInOrderedValue(AnyKeyword, vararr) && |vararr| > 1 then [AnyWarning(tablename)] else [])
  }

  const NilWarningText: string := "warn: Filter value '__nil__' is not supported ! (tablename:"
  const AnyWarningText: string := "warn: Multiple filter value with '__any__' keywords is not valid! (tablename:"

  function NilWarning(tablename: string): string {
    NilWarningText + tablename + ")"
  }

  function AnyWarning(tablename: string): string {
    AnyWarningText + tablename + ")"
  }

  /**
   * `makeRegexpFiltersFunction`: the filter testing the value of `keyname`
   * against `regexp`; a pattern that does not compile is an error (where
   * the source panics), carrying the pattern.
   */
  function MakeRegexpFiltersFunction(tablename: string, virtualTrue: bool, virtualFalse: bool, keyname: Key,
                                     regexp: string, re: RegexpEngine): (r: Result<ElementFilter, string>)
    ensures r.Err? <==> !re.compiles(regexp)
    ensures r.Err? ==> r.error == regexp
    ensures r.Ok? ==> r.value == TagFilter(virtualTrue, virtualFalse, keyname, Matches(regexp))
  {
    if !re.compiles(regexp) then Err(regexp)
    else Ok(TagFilter(virtualTrue, virtualFalse, keyname, Matches(regexp)))
  }

  // ---------------------------------------------------------------------
  // Meaning of a single compiled filter

  /** Whether the element's value of `k` is accepted by the configured values (`__any__` accepts any value). */
  predicate ValueAccepted(vals: seq<OrderedValue>, tags: ElementTags, k: Key) {
    k in tags && ((exists i :: 0 <= i < |vals| && vals[i].value == AnyKeyword)
                  || (exists i :: 0 <= i < |vals| && vals[i].value == tags[k]))
  }

  /** A compiled value filter yields `virtualTrue` exactly when the key is present with an accepted value. */
  lemma MakeFiltersFunctionEval(tablename: string, virtualTrue: bool, virtualFalse: bool, keyname: Key,
                                vararr: seq<OrderedValue>, re: RegexpEngine, tags: ElementTags, key: Key, closed: bool)
    ensures Eval(MakeFiltersFunction(tablename, virtualTrue, virtualFalse, keyname, vararr), re, tags, key, closed)
         == if ValueAccepted(vararr, tags, keyname) then virtualTrue else virtualFalse
  {
    if |vararr| == 1 && keyname in tags {
      assert (exists i :: 0 <= i < |vararr| && vararr[i].value == tags[keyname]) <==> vararr[0].value == tags[keyname];
    }
  }

  /** With `__any__` among the values, only the presence of the key matters. */
  lemma AnySemantics(tablename: string, virtualTrue: bool, virtualFalse: bool, keyname: Key,
                     vararr: seq<OrderedValue>, re: RegexpEngine, tags: ElementTags, key: Key, closed: bool)
    requires exists i :: 0 <= i < |vararr| && vararr[i].value == AnyKeyword
    ensures Eval(MakeFiltersFunction(tablename, virtualTrue, virtualFalse, keyname, vararr), re, tags, key, closed)
         == if keyname in tags then virtualTrue else virtualFalse
  {
    MakeFiltersFunctionEval(tablename, virtualTrue, virtualFalse, keyname, vararr, re, tags, key, closed);
  }

  /** Without `__any__`, the element's value must be one of the configured values. */
  lemma MembershipSemantics(tablename: string, virtualTrue: bool, virtualFalse: bool, keyname: Key,
                            vararr: seq<OrderedValue>, re: RegexpEngine, tags: ElementTags, key: Key, closed: bool)
    requires forall i :: 0 <= i < |vararr| ==> vararr[i].value != AnyKeyword
    ensures Eval(MakeFiltersFunction(tablename, virtualTrue, virtualFalse, keyname, vararr), re, tags, key, closed)
         == if keyname in tags && exists i :: 0 <= i < |vararr| && vararr[i].value == tags[keyname]
            then virtualTrue else virtualFalse
  {
    MakeFiltersFunctionEval(tablename, virtualTrue, virtualFalse, keyname, vararr, re, tags, key, closed);
  }

  /** The direct equality test for one value behaves as the membership test over the one-element list. */
  lemma SingleValueIsMembership(v: Value, order: int, virtualTrue: bool, virtualFalse: bool, keyname: Key,
                                re: RegexpEngine, tags: ElementTags, key: Key, closed: bool)
    ensures Eval(TagFilter(virtualTrue, virtualFalse, keyname, OneValue(v)), re, tags, key, closed)
         == Eval(TagFilter(virtualTrue, virtualFalse, keyname, AnyOf([OrderedValue(v, order)])), re, tags, key, closed)
  {
    if keyname in tags {
      assert FindValueInOrderedValue(tags[keyname], [OrderedValue(v, order)]) <==> tags[keyname] == v;
    }
  }

  /** A filter configured with no values yields `virtualFalse` for every element. */
  lemma EmptyListYieldsOtherwise(tablename: string, virtualTrue: bool, virtualFalse: bool, keyname: Key,
                                 re: RegexpEngine, tags: ElementTags, key: Key, closed: bool)
    ensures Eval(MakeFiltersFunction(tablename, virtualTrue, virtualFalse, keyname, []), re, tags, key, closed) == virtualFalse
  {
    MakeFiltersFunctionEval(tablename, virtualTrue, virtualFalse, keyname, [], re, tags, key, closed);
  }

  /** A reject filter keeps exactly the elements the require filter for the same key and values drops. */
  lemma RejectNegatesRequire(tablename: string, keyname: Key, vararr: seq<OrderedValue>,
                             re: RegexpEngine, tags: ElementTags, key: Key, closed: bool)
    ensures Eval(MakeFiltersFunction(tablename, false, true, keyname, vararr), re, tags, key, closed)
         == !Eval(MakeFiltersFunction(tablename, true, false, keyname, vararr), re, tags, key, closed)
  {
    MakeFiltersFunctionEval(tablename, false, true, keyname, vararr, re, tags, key, closed);
    MakeFiltersFunctionEval(tablename, true, false, keyname, vararr, re, tags, key, closed);
  }

  /** The same holds for the regular-expression filters. */
  lemma RegexpRejectNegatesRequire(tablename: string, keyname: Key, regexp: string,
                                   re: RegexpEngine, tags: ElementTags, key: Key, closed: bool)
    requires re.compiles(regexp)
    ensures Eval(MakeRegexpFiltersFunction(tablename, false, true, keyname, regexp, re).value, re, tags, key, closed)
         == !Eval(MakeRegexpFiltersFunction(tablename, true, false, keyname, regexp, re).value, re, tags, key, closed)
  {
  }

  /** A regular-expression filter yields `virtualTrue` exactly when the key is present and its value matches. */
  lemma RegexpSemantics(tablename: string, virtualTrue: bool, virtualFalse: bool, keyname: Key, regexp: string,
                        re: RegexpEngine, tags: ElementTags, key: Key, closed: bool)
    requires re.compiles(regexp)
    ensures Eval(MakeRegexpFiltersFunction(tablename, virtualTrue, virtualFalse, keyname, regexp, re).value, re, tags, key, closed)
         == if keyname in tags && re.matches(regexp, tags[keyname]) then virtualTrue else virtualFalse
  {
  }

  /**
   * The linestring heuristic drops a way exactly when it is closed and is
   * tagged `area=yes`, or is not tagged `area=no` and was routed by an area key.
   */
  lemma AreaHeuristicDrops(areaTags: set<Key>, re: RegexpEngine, tags: ElementTags, key: Key, closed: bool)
    ensures !Eval(AreaHeuristic(areaTags), re, tags, key, closed)
        <==> closed && (TagValue(tags, "area") == "yes" || (TagValue(tags, "area") != "no" && key in areaTags))
    ensures !closed ==> Eval(AreaHeuristic(areaTags), re, tags, key, closed)
  {
  }

  /**
   * The polygon heuristic drops a way when it is closed and tagged
   * `area=no`, and also whenever it is not tagged `area=yes` and was routed
   * by a linear key, closed or not.
   */
  lemma LinearHeuristicDrops(linearTags: set<Key>, re: RegexpEngine, tags: ElementTags, key: Key, closed: bool)
    ensures !Eval(LinearHeuristic(linearTags), re, tags, key, closed)
        <==> (closed && TagValue(tags, "area") == "no") || (TagValue(tags, "area") != "yes" && key in linearTags)
  {
  }

  /** The second test of the polygon heuristic drops open ways as well. */
  lemma LinearHeuristicDropsOpenWay(linearTags: set<Key>, re: RegexpEngine, tags: ElementTags, key: Key)
    requires key in linearTags && TagValue(tags, "area") != "yes"
    ensures !Eval(LinearHeuristic(linearTags), re, tags, key, false)
  {
  }

  // ---------------------------------------------------------------------
  // The filter families of one table

  /** The filters of one value family, its keys visited in order `order`. */
  function Family(tablename: string, virtualTrue: bool, virtualFalse: bool, kv: KeyValues, order: seq<Key>)
    : (fs: seq<ElementFilter>)
    ensures |fs| == |order|
  {
    if order == [] then []
    else
      Family(tablename, virtualTrue, virtualFalse, kv, order[..|order| - 1])
      + [MakeFiltersFunction(tablename, virtualTrue, virtualFalse, order[|order| - 1], Values(kv, order[|order| - 1]))]
  }

  /** The filters of one regular-expression family, or the first pattern (in order `order`) that does not compile. */
  function RegexpFamily(tablename: string, virtualTrue: bool, virtualFalse: bool, kr: KeyRegexpValue,
                        order: seq<Key>, re: RegexpEngine): (r: Result<seq<ElementFilter>, string>)
    ensures r.Ok? ==> |r.value| == |order|
  {
    if order == [] then Ok([])
    else
      var k := order[|order| - 1];
      match RegexpFamily(tablename, virtualTrue, virtualFalse, kr, order[..|order| - 1], re)
      case Err(e) => Err(e)
      case Ok(fs) =>
        match MakeRegexpFiltersFunction(tablename, virtualTrue, virtualFalse, k, if k in kr then kr[k] else "", re)
        case Err(e) => Err(e)
        case Ok(f) => Ok(fs + [f])
  }

  /** `exclude_tags` pairs turned into reject filters for one value with order 1. */
  function Legacy(tablename: string, excludeTags: seq<seq<string>>): (fs: seq<ElementFilter>)
    requires forall i :: 0 <= i < |excludeTags| ==> |excludeTags[i]| >= 2
    ensures |fs| == |excludeTags|
  {
    if excludeTags == [] then []
    else
      var e := excludeTags[|excludeTags| - 1];
      Legacy(tablename, excludeTags[..|excludeTags| - 1])
      + [MakeFiltersFunction(tablename, false, true, e[0], [OrderedValue(e[1], 1)])]
  }

  /** The heuristic filter of a table: for linestring tables when area tags are set, for polygon tables when linear tags are. */
  function Heuristics(t: Table, areaTags: Option<set<Key>>, linearTags: Option<set<Key>>): seq<ElementFilter> {
    (if t.tableType == LineStringTable && areaTags.Some? then [AreaHeuristic(areaTags.value)] else [])
    + (if t.tableType == PolygonTable && linearTags.Some? then [LinearHeuristic(linearTags.value)] else [])
  }

  /** The map iteration orders of a table's four keyed filter families. */
  datatype FilterOrder = FilterOrder(require: seq<Key>, reject: seq<Key>, requireRegexp: seq<Key>, rejectRegexp: seq<Key>)

  ghost predicate ValidFilterOrder(o: FilterOrder, f: Filters) {
    && IsEnumeration(o.require, f.require.Keys)
    && IsEnumeration(o.reject, f.reject.Keys)
    && IsEnumeration(o.requireRegexp, f.requireRegexp.Keys)
    && IsEnumeration(o.rejectRegexp, f.rejectRegexp.Keys)
  }

  /** Every `exclude_tags` entry has a key and a value. */
  predicate LegacyWellFormed(f: Filters) {
    f.excludeTags.Some? ==> forall i :: 0 <= i < |f.excludeTags.value| ==> |f.excludeTags.value[i]| >= 2
  }

  predicate ExcludeTagsWellFormed(t: Table) {
    t.filters.Some? ==> LegacyWellFormed(t.filters.value)
  }

  /**
   * The filters derived from a table's `filters` block: `exclude_tags`,
   * require, reject, require_regexp and reject_regexp, in this order, or
   * the first pattern that does not compile.
   */
  function FilterFamilies(name: string, f: Filters, o: FilterOrder, re: RegexpEngine): Result<seq<ElementFilter>, string>
    requires LegacyWellFormed(f)
  {
    var legacy := if f.excludeTags.Some? then Legacy(name, f.excludeTags.value) else [];
    var fixed := legacy + Family(name, true, false, f.require, o.require) + Family(name, false, true, f.reject, o.reject);
    match RegexpFamily(name, true, false, f.requireRegexp, o.requireRegexp, re)
    case Err(e) => Err(e)
    case Ok(rq) =>
      match RegexpFamily(name, false, true, f.rejectRegexp, o.rejectRegexp, re)
      case Err(e) => Err(e)
      case Ok(rj) => Ok(fixed + rq + rj)
  }

  /** The list the compiler emits for table `name`: its heuristic filter, then those of its `filters` block. */
  function CompiledFilters(name: string, t: Table, areaTags: Option<set<Key>>, linearTags: Option<set<Key>>,
                           o: FilterOrder, re: RegexpEngine): Result<seq<ElementFilter>, string>
    requires ExcludeTagsWellFormed(t)
  {
    var h := Heuristics(t, areaTags, linearTags);
    if t.filters.None? then Ok(h)
    else
      match FilterFamilies(name, t.filters.value, o, re)
      case Err(e) => Err(e)
      case Ok(rest) => Ok(h + rest)
  }

  // ---------------------------------------------------------------------
  // Meaning of a table's whole list

  lemma AllKeepAppend(a: seq<ElementFilter>, b: seq<ElementFilter>, re: RegexpEngine, tags: ElementTags, key: Key, closed: bool)
    ensures AllKeep(a + b, re, tags, key, closed) <==> AllKeep(a, re, tags, key, closed) && AllKeep(b, re, tags, key, closed)
  {
    assert forall i :: 0 <= i < |a| ==> (a + b)[i] == a[i];
    assert forall i :: 0 <= i < |b| ==> (a + b)[|a| + i] == b[i];
  }

  lemma {:induction false} FamilyAt(tablename: string, virtualTrue: bool, virtualFalse: bool, kv: KeyValues,
                                    order: seq<Key>, i: nat)
    requires i < |order|
    ensures Family(tablename, virtualTrue, virtualFalse, kv, order)[i]
         == MakeFiltersFunction(tablename, virtualTrue, virtualFalse, order[i], Values(kv, order[i]))
  {
    if i < |order| - 1 {
      FamilyAt(tablename, virtualTrue, virtualFalse, kv, order[..|order| - 1], i);
    }
  }

  /** Every key of a value family gives `virtualTrue`, or `virtualFalse` when its value is not accepted. */
  ghost predicate FamilyKeeps(virtualTrue: bool, virtualFalse: bool, kv: KeyValues, tags: ElementTags) {
    forall k :: k in kv ==> if ValueAccepted(kv[k], tags, k) then virtualTrue else virtualFalse
  }

  /**
   * A value family keeps an element exactly when every configured key's
   * filter does, whatever the order the keys were visited in.
   */
  lemma FamilySemantics(tablename: string, virtualTrue: bool, virtualFalse: bool, kv: KeyValues, order: seq<Key>,
                        re: RegexpEngine, tags: ElementTags, key: Key, closed: bool)
    requires IsEnumeration(order, kv.Keys)
    ensures AllKeep(Family(tablename, virtualTrue, virtualFalse, kv, order), re, tags, key, closed)
        <==> FamilyKeeps(virtualTrue, virtualFalse, kv, tags)
  {
    var fs := Family(tablename, virtualTrue, virtualFalse, kv, order);
    forall i | 0 <= i < |order|
      ensures Eval(fs[i], re, tags, key, closed) == if ValueAccepted(kv[order[i]], tags, order[i]) then virtualTrue else virtualFalse
    {
      FamilyAt(tablename, virtualTrue, virtualFalse, kv, order, i);
      MakeFiltersFunctionEval(tablename, virtualTrue, virtualFalse, order[i], kv[order[i]], re, tags, key, closed);
    }
    forall k | k in kv ensures exists i :: 0 <= i < |order| && order[i] == k {
      assert k in order;
    }
  }

  lemma {:induction false} RegexpFamilyAt(tablename: string, virtualTrue: bool, virtualFalse: bool, kr: KeyRegexpValue,
                                          order: seq<Key>, re: RegexpEngine, i: nat)
    requires i < |order| && order[i] in kr
    requires RegexpFamily(tablename, virtualTrue, virtualFalse, kr, order, re).Ok?
    ensures RegexpFamily(tablename, virtualTrue, virtualFalse, kr, order, re).value[i]
         == TagFilter(virtualTrue, virtualFalse, order[i], Matches(kr[order[i]]))
    ensures re.compiles(kr[order[i]])
  {
    if i < |order| - 1 {
      RegexpFamilyAt(tablename, virtualTrue, virtualFalse, kr, order[..|order| - 1], re, i);
    }
  }

  /** A regular-expression family compiles exactly when every pattern in order `order` compiles. */
  lemma {:induction false} RegexpFamilyOk(tablename: string, virtualTrue: bool, virtualFalse: bool, kr: KeyRegexpValue,
                                          order: seq<Key>, re: RegexpEngine)
    requires forall i :: 0 <= i < |order| ==> order[i] in kr
    ensures RegexpFamily(tablename, virtualTrue, virtualFalse, kr, order, re).Ok?
        <==> forall i :: 0 <= i < |order| ==> re.compiles(kr[order[i]])
  {
    if order != [] {
      RegexpFamilyOk(tablename, virtualTrue, virtualFalse, kr, order[..|order| - 1], re);
    }
  }

  /** A family that fails reports one of its own patterns, and that pattern does not compile. */
  lemma {:induction false} RegexpFamilyErr(tablename: string, virtualTrue: bool, virtualFalse: bool, kr: KeyRegexpValue,
                                           order: seq<Key>, re: RegexpEngine)
    requires forall i :: 0 <= i < |order| ==> order[i] in kr
    ensures RegexpFamily(tablename, virtualTrue, virtualFalse, kr, order, re).Err? ==>
      && !re.compiles(RegexpFamily(tablename, virtualTrue, virtualFalse, kr, order, re).error)
      && exists i :: 0 <= i < |order| && kr[order[i]] == RegexpFamily(tablename, virtualTrue, virtualFalse, kr, order, re).error
  {
    if order != [] {
      var init := order[..|order| - 1];
      RegexpFamilyErr(tablename, virtualTrue, virtualFalse, kr, init, re);
      var r0 := RegexpFamily(tablename, virtualTrue, virtualFalse, kr, init, re);
      if r0.Err? {
        var i :| 0 <= i < |init| && kr[init[i]] == r0.error;
        assert order[i] == init[i];
      }
    }
  }

  /** Every key of a regular-expression family gives `virtualTrue` exactly when its value matches. */
  ghost predicate RegexpFamilyKeeps(virtualTrue: bool, virtualFalse: bool, kr: KeyRegexpValue, re: RegexpEngine, tags: ElementTags) {
    forall k :: k in kr ==> if k in tags && re.matches(kr[k], tags[k]) then virtualTrue else virtualFalse
  }

  /**
   * A regular-expression family compiles exactly when all its patterns do,
   * and then keeps an element exactly when every key's filter does.
   */
  lemma RegexpFamilySemantics(tablename: string, virtualTrue: bool, virtualFalse: bool, kr: KeyRegexpValue,
                              order: seq<Key>, re: RegexpEngine, tags: ElementTags, key: Key, closed: bool)
    requires IsEnumeration(order, kr.Keys)
    ensures RegexpFamily(tablename, virtualTrue, virtualFalse, kr, order, re).Ok? <==> forall k :: k in kr ==> re.compiles(kr[k])
    ensures RegexpFamily(tablename, virtualTrue, virtualFalse, kr, order, re).Ok? ==>
      (AllKeep(RegexpFamily(tablename, virtualTrue, virtualFalse, kr, order, re).value, re, tags, key, closed)
       <==> RegexpFamilyKeeps(virtualTrue, virtualFalse, kr, re, tags))
  {
    RegexpFamilyOk(tablename, virtualTrue, virtualFalse, kr, order, re);
    var r := RegexpFamily(tablename, virtualTrue, virtualFalse, kr, order, re);
    if r.Ok? {
      forall i | 0 <= i < |order| ensures Eval(r.value[i], re, tags, key, closed)
                                       == if order[i] in tags && re.matches(kr[order[i]], tags[order[i]]) then virtualTrue else virtualFalse {
        assert order[i] in order;
        RegexpFamilyAt(tablename, virtualTrue, virtualFalse, kr, order, re, i);
      }
      forall k | k in kr ensures exists i :: 0 <= i < |order| && order[i] == k {
        assert k in order;
      }
    }
  }

  /** An `exclude_tags` pair (k, v) drops the elements with k = v, or with any value of k when v is `__any__`. */
  ghost predicate LegacyKeeps(excludeTags: seq<seq<string>>, tags: ElementTags)
    requires forall i :: 0 <= i < |excludeTags| ==> |excludeTags[i]| >= 2
  {
    forall i :: 0 <= i < |excludeTags| ==>
      !(excludeTags[i][0] in tags && (excludeTags[i][1] == AnyKeyword || tags[excludeTags[i][0]] == excludeTags[i][1]))
  }

  lemma {:induction false} LegacySemantics(tablename: string, excludeTags: seq<seq<string>>,
                                           re: RegexpEngine, tags: ElementTags, key: Key, closed: bool)
    requires forall i :: 0 <= i < |excludeTags| ==> |excludeTags[i]| >= 2
    ensures AllKeep(Legacy(tablename, excludeTags), re, tags, key, closed) <==> LegacyKeeps(excludeTags, tags)
  {
    if excludeTags != [] {
      var init := excludeTags[..|excludeTags| - 1];
      var e := excludeTags[|excludeTags| - 1];
      assert forall i :: 0 <= i < |init| ==> init[i] == excludeTags[i];
      var last := MakeFiltersFunction(tablename, false, true, e[0], [OrderedValue(e[1], 1)]);
      assert Legacy(tablename, excludeTags) == Legacy(tablename, init) + [last];
      LegacySemantics(tablename, init, re, tags, key, closed);
      AllKeepAppend(Legacy(tablename, init), [last], re, tags, key, closed);
      MakeFiltersFunctionEval(tablename, false, true, e[0], [OrderedValue(e[1], 1)], re, tags, key, closed);
      if e[0] in tags {
        assert ValueAccepted([OrderedValue(e[1], 1)], tags, e[0]) <==> e[1] == AnyKeyword || tags[e[0]] == e[1];
      }
      var dropsLast := e[0] in tags && (e[1] == AnyKeyword || tags[e[0]] == e[1]);
      assert [last][0] == last;
      assert AllKeep([last], re, tags, key, closed) <==> Eval(last, re, tags, key, closed);
      assert AllKeep([last], re, tags, key, closed) <==> !dropsLast;
      assert LegacyKeeps(excludeTags, tags) <==> LegacyKeeps(init, tags) && !dropsLast;
    }
  }

  /** Whether the heuristic filter of a table, if any, keeps the element. */
  predicate HeuristicsKeep(t: Table, areaTags: Option<set<Key>>, linearTags: Option<set<Key>>,
                           re: RegexpEngine, tags: ElementTags, key: Key, closed: bool) {
    AllKeep(Heuristics(t, areaTags, linearTags), re, tags, key, closed)
  }

  /** Whether every filter derived from a `filters` block would keep the element. */
  ghost predicate FiltersKeep(f: Filters, re: RegexpEngine, tags: ElementTags)
    requires LegacyWellFormed(f)
  {
    && (f.excludeTags.Some? ==> LegacyKeeps(f.excludeTags.value, tags))
    && FamilyKeeps(true, false, f.require, tags)
    && FamilyKeeps(false, true, f.reject, tags)
    && RegexpFamilyKeeps(true, false, f.requireRegexp, re, tags)
    && RegexpFamilyKeeps(false, true, f.rejectRegexp, re, tags)
  }

  /** Whether every regular expression of a `filters` block compiles. */
  ghost predicate PatternsCompile(f: Filters, re: RegexpEngine) {
    && (forall k :: k in f.requireRegexp ==> re.compiles(f.requireRegexp[k]))
    && (forall k :: k in f.rejectRegexp ==> re.compiles(f.rejectRegexp[k]))
  }

  /** Whether `p` is one of the regular expressions of a `filters` block. */
  ghost predicate ConfiguredPattern(f: Filters, p: string) {
    || (exists k :: k in f.requireRegexp && f.requireRegexp[k] == p)
    || (exists k :: k in f.rejectRegexp && f.rejectRegexp[k] == p)
  }

  /** When the filters of a `filters` block fail, the error is one of its patterns, and it does not compile. */
  lemma FilterFamiliesErr(name: string, f: Filters, o: FilterOrder, re: RegexpEngine)
    requires LegacyWellFormed(f) && ValidFilterOrder(o, f)
    ensures FilterFamilies(name, f, o, re).Err? ==>
      !re.compiles(FilterFamilies(name, f, o, re).error) && ConfiguredPattern(f, FilterFamilies(name, f, o, re).error)
  {
    forall i | 0 <= i < |o.requireRegexp| ensures o.requireRegexp[i] in f.requireRegexp {
      assert o.requireRegexp[i] in o.requireRegexp;
    }
    forall i | 0 <= i < |o.rejectRegexp| ensures o.rejectRegexp[i] in f.rejectRegexp {
      assert o.rejectRegexp[i] in o.rejectRegexp;
    }
    RegexpFamilyErr(name, true, false, f.requireRegexp, o.requireRegexp, re);
    RegexpFamilyErr(name, false, true, f.rejectRegexp, o.rejectRegexp, re);
    var rq := RegexpFamily(name, true, false, f.requireRegexp, o.requireRegexp, re);
    var rj := RegexpFamily(name, false, true, f.rejectRegexp, o.rejectRegexp, re);
    if rq.Err? {
      var i :| 0 <= i < |o.requireRegexp| && f.requireRegexp[o.requireRegexp[i]] == rq.error;
      assert o.requireRegexp[i] in f.requireRegexp;
    } else if rj.Err? {
      var i :| 0 <= i < |o.rejectRegexp| && f.rejectRegexp[o.rejectRegexp[i]] == rj.error;
      assert o.rejectRegexp[i] in f.rejectRegexp;
    }
  }

  /** The filters of a `filters` block compile exactly when its patterns do; they are all tag filters. */
  lemma FilterFamiliesShape(name: string, f: Filters, o: FilterOrder, re: RegexpEngine)
    requires LegacyWellFormed(f) && ValidFilterOrder(o, f)
    ensures FilterFamilies(name, f, o, re).Ok? <==> PatternsCompile(f, re)
    ensures FilterFamilies(name, f, o, re).Ok? ==>
      forall i :: 0 <= i < |FilterFamilies(name, f, o, re).value| ==> FilterFamilies(name, f, o, re).value[i].TagFilter?
  {
    var tags: ElementTags := map[];
    RegexpFamilySemantics(name, true, false, f.requireRegexp, o.requireRegexp, re, tags, "", false);
    RegexpFamilySemantics(name, false, true, f.rejectRegexp, o.rejectRegexp, re, tags, "", false);
    var r := FilterFamilies(name, f, o, re);
    if r.Ok? {
      var legacy := if f.excludeTags.Some? then Legacy(name, f.excludeTags.value) else [];
      var rq := Family(name, true, false, f.require, o.require);
      var rj := Family(name, false, true, f.reject, o.reject);
      var xq := RegexpFamily(name, true, false, f.requireRegexp, o.requireRegexp, re).value;
      var xj := RegexpFamily(name, false, true, f.rejectRegexp, o.rejectRegexp, re).value;
      assert r.value == legacy + rq + rj + xq + xj;
      forall i | 0 <= i < |legacy| ensures legacy[i].TagFilter? {
        LegacyAt(name, f.excludeTags.value, i);
      }
      forall i | 0 <= i < |rq| ensures rq[i].TagFilter? {
        FamilyAt(name, true, false, f.require, o.require, i);
      }
      forall i | 0 <= i < |rj| ensures rj[i].TagFilter? {
        FamilyAt(name, false, true, f.reject, o.reject, i);
      }
      forall i | 0 <= i < |xq| ensures xq[i].TagFilter? {
        RegexpFamilyAt(name, true, false, f.requireRegexp, o.requireRegexp, re, i);
      }
      forall i | 0 <= i < |xj| ensures xj[i].TagFilter? {
        RegexpFamilyAt(name, false, true, f.rejectRegexp, o.rejectRegexp, re, i);
      }
      AllTagFilters5(legacy, rq, rj, xq, xj);
    }
  }

  /**
   * The filters of a `filters` block keep an element exactly when every
   * `exclude_tags` pair, every required and rejected key and every pattern
   * keeps it, whatever order the keys were visited in.
   */
  lemma FilterFamiliesKeep(name: string, f: Filters, o: FilterOrder, re: RegexpEngine,
                           tags: ElementTags, key: Key, closed: bool)
    requires LegacyWellFormed(f) && ValidFilterOrder(o, f)
    requires FilterFamilies(name, f, o, re).Ok?
    ensures AllKeep(FilterFamilies(name, f, o, re).value, re, tags, key, closed) <==> FiltersKeep(f, re, tags)
  {
    var legacy := if f.excludeTags.Some? then Legacy(name, f.excludeTags.value) else [];
    var rq := Family(name, true, false, f.require, o.require);
    var rj := Family(name, false, true, f.reject, o.reject);
    var xq := RegexpFamily(name, true, false, f.requireRegexp, o.requireRegexp, re).value;
    var xj := RegexpFamily(name, false, true, f.rejectRegexp, o.rejectRegexp, re).value;
    assert FilterFamilies(name, f, o, re).value == legacy + rq + rj + xq + xj;
    AllKeepAppend(legacy + rq + rj + xq, xj, re, tags, key, closed);
    AllKeepAppend(legacy + rq + rj, xq, re, tags, key, closed);
    AllKeepAppend(legacy + rq, rj, re, tags, key, closed);
    AllKeepAppend(legacy, rq, re, tags, key, closed);
    if f.excludeTags.Some? {
      LegacySemantics(name, f.excludeTags.value, re, tags, key, closed);
    }
    FamilySemantics(name, true, false, f.require, o.require, re, tags, key, closed);
    FamilySemantics(name, false, true, f.reject, o.reject, re, tags, key, closed);
    RegexpFamilySemantics(name, true, false, f.requireRegexp, o.requireRegexp, re, tags, key, closed);
    RegexpFamilySemantics(name, false, true, f.rejectRegexp, o.rejectRegexp, re, tags, key, closed);
  }

  /**
   * What the host pipeline gets for a table: the list compiles exactly when
   * every pattern of its filters compiles, the heuristic filters come first
   * and only there, and the list keeps an element exactly when the
   * heuristic and the `filters` block keep it.
   */
  lemma CompiledFiltersSemantics(name: string, t: Table, areaTags: Option<set<Key>>, linearTags: Option<set<Key>>,
                                 o: FilterOrder, re: RegexpEngine, tags: ElementTags, key: Key, closed: bool)
    requires ExcludeTagsWellFormed(t)
    requires t.filters.Some? ==> ValidFilterOrder(o, t.filters.value)
    ensures CompiledFilters(name, t, areaTags, linearTags, o, re).Ok? <==>
      (t.filters.Some? ==> PatternsCompile(t.filters.value, re))
    ensures CompiledFilters(name, t, areaTags, linearTags, o, re).Ok? ==>
      var fs := CompiledFilters(name, t, areaTags, linearTags, o, re).value;
      var h := Heuristics(t, areaTags, linearTags);
      && fs[..|h|] == h
      && (forall i :: |h| <= i < |fs| ==> fs[i].TagFilter?)
      && (AllKeep(fs, re, tags, key, closed) <==>
          HeuristicsKeep(t, areaTags, linearTags, re, tags, key, closed)
          && (t.filters.Some? ==> FiltersKeep(t.filters.value, re, tags)))
  {
    var h := Heuristics(t, areaTags, linearTags);
    var c := CompiledFilters(name, t, areaTags, linearTags, o, re);
    if t.filters.Some? {
      var f := t.filters.value;
      FilterFamiliesShape(name, f, o, re);
      var r := FilterFamilies(name, f, o, re);
      if r.Ok? {
        assert c == Ok(h + r.value);
        FilterFamiliesKeep(name, f, o, re, tags, key, closed);
        HeuristicsThenTagFilters(h, r.value, re, tags, key, closed);
      } else {
        assert c.Err?;
      }
    } else {
      assert h + [] == h;
      HeuristicsThenTagFilters(h, [], re, tags, key, closed);
    }
  }

  /** A list made of h followed by tag filters starts with h, and keeps an element when both parts do. */
  lemma HeuristicsThenTagFilters(h: seq<ElementFilter>, rest: seq<ElementFilter>, re: RegexpEngine, tags: ElementTags, key: Key, closed: bool)
    requires forall i :: 0 <= i < |rest| ==> rest[i].TagFilter?
    ensures (h + rest)[..|h|] == h
    ensures forall i :: |h| <= i < |h + rest| ==> (h + rest)[i].TagFilter?
    ensures AllKeep(h + rest, re, tags, key, closed) <==> AllKeep(h, re, tags, key, closed) && AllKeep(rest, re, tags, key, closed)
  {
    assert (h + rest)[..|h|] == h;
    assert forall i :: |h| <= i < |h + rest| ==> (h + rest)[i] == rest[i - |h|];
    AllKeepAppend(h, rest, re, tags, key, closed);
  }

  lemma {:induction false} LegacyAt(tablename: string, excludeTags: seq<seq<string>>, i: nat)
    requires forall j :: 0 <= j < |excludeTags| ==> |excludeTags[j]| >= 2
    requires i < |excludeTags|
    ensures Legacy(tablename, excludeTags)[i]
         == MakeFiltersFunction(tablename, false, true, excludeTags[i][0], [OrderedValue(excludeTags[i][1], 1)])
  {
    if i < |excludeTags| - 1 {
      LegacyAt(tablename, excludeTags[..|excludeTags| - 1], i);
    }
  }

  lemma AllTagFilters5(a: seq<ElementFilter>, b: seq<ElementFilter>, c: seq<ElementFilter>, d: seq<ElementFilter>, e: seq<ElementFilter>)
    requires forall i :: 0 <= i < |a| ==> a[i].TagFilter?
    requires forall i :: 0 <= i < |b| ==> b[i].TagFilter?
    requires forall i :: 0 <= i < |c| ==> c[i].TagFilter?
    requires forall i :: 0 <= i < |d| ==> d[i].TagFilter?
    requires forall i :: 0 <= i < |e| ==> e[i].TagFilter?
    ensures forall i :: 0 <= i < |a + b + c + d + e| ==> (a + b + c + d + e)[i].TagFilter?
  {
  }

  // ---------------------------------------------------------------------
  // Examples

  /** A linestring table with area tags [building]: a closed building way is dropped, unless tagged area=no. */
  lemma AreaHeuristicExample(re: RegexpEngine)
    ensures !Eval(AreaHeuristic({"building"}), re, map["building" := "yes"], "building", true)
    ensures Eval(AreaHeuristic({"building"}), re, map["building" := "yes", "area" := "no"], "building", true)
  {
  }

  /** A require filter on `name` with `__any__` keeps any named element and drops unnamed ones. */
  lemma WildcardRequireExample(re: RegexpEngine, key: Key, closed: bool)
    ensures Eval(MakeFiltersFunction("t", true, false, "name", [OrderedValue(AnyKeyword, 0)]), re, map["name" := "anything"], key, closed)
    ensures !Eval(MakeFiltersFunction("t", true, false, "name", [OrderedValue(AnyKeyword, 0)]), re, map[], key, closed)
  {
  }

  /** `__any__` combined with another value behaves as `__any__` alone, with a warning. */
  lemma WildcardConflictExample(re: RegexpEngine, tags: ElementTags, key: Key, closed: bool)
    ensures Eval(MakeFiltersFunction("t", true, false, "landuse", [OrderedValue(AnyKeyword, 0), OrderedValue("residential", 1)]), re, tags, key, closed)
         == Eval(MakeFiltersFunction("t", true, false, "landuse", [OrderedValue(AnyKeyword, 0)]), re, tags, key, closed)
    ensures FilterWarnings("t", [OrderedValue(AnyKeyword, 0), OrderedValue("residential", 1)]) != []
    ensures FilterWarnings("t", [OrderedValue(AnyKeyword, 0)]) == []
  {
    var both := [OrderedValue(AnyKeyword, 0), OrderedValue("residential", 1)];
    var one := [OrderedValue(AnyKeyword, 0)];
    WildcardFilter(both);
    WildcardFilter(one);
    assert one[0].value != NilKeyword;
  }

  /** Values containing `__any__` compile to the wildcard test. */
  lemma WildcardFilter(vararr: seq<OrderedValue>)
    requires |vararr| > 0 && vararr[0].value == AnyKeyword
    ensures MakeFiltersFunction("t", true, false, "landuse", vararr) == TagFilter(true, false, "landuse", AnyValue)
    ensures FindValueInOrderedValue(AnyKeyword, vararr)
  {
  }

  /** A reject filter with pattern `^foo` on `ref`, for an engine where the pattern matches "foobar" but not "barfoo". */
  lemma RegexpRejectExample(re: RegexpEngine, key: Key, closed: bool)
    requires re.compiles("^foo") && re.matches("^foo", "foobar") && !re.matches("^foo", "barfoo")
    ensures MakeRegexpFiltersFunction("t", false, true, "ref", "^foo", re).Ok?
    ensures !Eval(MakeRegexpFiltersFunction("t", false, true, "ref", "^foo", re).value, re, map["ref" := "foobar"], key, closed)
    ensures Eval(MakeRegexpFiltersFunction("t", false, true, "ref", "^foo", re).value, re, map["ref" := "barfoo"], key, closed)
  {
  }
}
