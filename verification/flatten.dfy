/**
 * Attribute flattening: `addAttrToMap` and `addAttrsToMap` turn an ordered,
 * possibly nested stream of slog attributes into one nested field map.
 *
 * The functions state the behaviour on values; the methods at the end follow
 * the Go code's loops and are proved equal to them.
 */
module Flatten {
  import opened Slog
  import opened FieldMaps

  /**
   * What one non-zero attribute does to the map it lands in, once the group
   * path has been walked: a scalar overwrites its key, an empty group does
   * nothing, an anonymous group is inlined and a named group becomes a
   * fresh nested map under its key.
   */
  function Put(c: Fields, a: Attr): (r: Fields)
    ensures c.Keys <= r.Keys
    ensures a.key != "" ==> forall k | k in c && k != a.key :: r[k] == c[k]
    decreases a, 0
  {
    match a.value
    case Scalar(x) => c[a.key := Leaf(x)]
    case Group(children) =>
      if children == [] then c
      else if a.key == "" then ApplyAll(c, children)
      else c[a.key := Node(ApplyAll(map[], children))]
  }

  /** One attribute with no group path: the zero attribute is dropped. */
  function Apply(c: Fields, a: Attr): (r: Fields)
    ensures IsZero(a) ==> r == c
    ensures c.Keys <= r.Keys
    decreases a, 1
  {
    if IsZero(a) then c else Put(c, a)
  }

  /** `addAttrsToMap(attrs, c, nil)`: the attributes applied in order. */
  function ApplyAll(c: Fields, attrs: seq<Attr>): (r: Fields)
    ensures c.Keys <= r.Keys
    decreases attrs
  {
    if attrs == [] then c else ApplyAll(Apply(c, attrs[0]), attrs[1..])
  }

  /** `addAttrToMap(a, m, path)`: drop the zero attribute, walk the path, then `Put`. */
  function AddAttr(m: Fields, path: seq<string>, a: Attr): (r: Result<Fields>)
    ensures IsZero(a) ==> r == Ok(m)
    ensures !IsZero(a) ==> (r == Panic <==> Scope(m, path) == Panic)
    ensures r.Ok? ==> m.Keys <= r.value.Keys
  {
    if IsZero(a) then Ok(m)
    else
      match Scope(m, path)
      case Panic => Panic
      case Ok(c) => Ok(Graft(m, path, Put(c, a)))
  }

  /** `addAttrsToMap(attrs, m, path)`: the attributes applied in order; a panic stops it. */
  function AddAttrs(m: Fields, path: seq<string>, attrs: seq<Attr>): (r: Result<Fields>)
    ensures r.Ok? ==> m.Keys <= r.value.Keys
    decreases attrs
  {
    if attrs == [] then Ok(m)
    else
      match AddAttr(m, path, attrs[0])
      case Panic => Panic
      case Ok(m') => AddAttrs(m', path, attrs[1..])
  }

  /** The top-level keys an attribute writes when applied with no group path. */
  function KeysOf(a: Attr): set<string>
    decreases a, 0
  {
    if IsZero(a) then {}
    else
      match a.value
      case Scalar(_) => {a.key}
      case Group(children) =>
        if children == [] then {}
        else if a.key == "" then KeysOfAll(children)
        else {a.key}
  }

  function KeysOfAll(attrs: seq<Attr>): set<string>
    decreases attrs
  {
    if attrs == [] then {} else KeysOf(attrs[0]) + KeysOfAll(attrs[1..])
  }

  predicate AllZero(attrs: seq<Attr>)
  {
    forall i | 0 <= i < |attrs| :: IsZero(attrs[i])
  }

  // ---------------------------------------------------------------------
  // Ordering: attributes are applied one after another.
  // ---------------------------------------------------------------------

  /** Flattening a concatenation flattens the first part, then the second. */
  lemma {:induction false} ApplyAllAppend(c: Fields, xs: seq<Attr>, ys: seq<Attr>)
    ensures ApplyAll(c, xs + ys) == ApplyAll(ApplyAll(c, xs), ys)
    decreases xs
  {
    if xs != [] {
      assert (xs + ys)[1..] == xs[1..] + ys;
      ApplyAllAppend(Apply(c, xs[0]), xs[1..], ys);
    } else {
      assert xs + ys == ys;
    }
  }

  /** The same under a group path, where a panic in the first part stops everything. */
  lemma {:induction false} AddAttrsAppend(m: Fields, path: seq<string>, xs: seq<Attr>, ys: seq<Attr>)
    ensures AddAttrs(m, path, xs + ys) ==
              match AddAttrs(m, path, xs)
              case Panic => Panic
              case Ok(m') => AddAttrs(m', path, ys)
    decreases xs
  {
    if xs != [] {
      assert (xs + ys)[1..] == xs[1..] + ys;
      match AddAttr(m, path, xs[0])
      case Panic =>
      case Ok(m') => AddAttrsAppend(m', path, xs[1..], ys);
    } else {
      assert xs + ys == ys;
    }
  }

  /** Zero attributes alone change nothing. */
  lemma {:induction false} ApplyAllZero(c: Fields, attrs: seq<Attr>)
    requires AllZero(attrs)
    ensures ApplyAll(c, attrs) == c
    decreases attrs
  {
    if attrs != [] {
      ApplyAllZero(c, attrs[1..]);
    }
  }

  // ---------------------------------------------------------------------
  // The group path: every write lands in the map at fields[g1]...[gn].
  // ---------------------------------------------------------------------

  /**
   * Flattening under a group path is flattening with no path into the map
   * found at the end of the path, grafted back; the path is walked only
   * when some attribute is not the zero attribute, and it panics exactly
   * when the walk does.
   */
  lemma {:induction false} AddAttrsLands(m: Fields, path: seq<string>, attrs: seq<Attr>)
    ensures AllZero(attrs) ==> AddAttrs(m, path, attrs) == Ok(m)
    ensures !AllZero(attrs) ==>
              AddAttrs(m, path, attrs) ==
                match Scope(m, path)
                case Panic => Panic
                case Ok(c) => Ok(Graft(m, path, ApplyAll(c, attrs)))
    decreases attrs
  {
    if attrs != [] {
      var a, rest := attrs[0], attrs[1..];
      AddAttrsLands(m, path, rest);
      if !IsZero(a) {
        match Scope(m, path)
        case Panic =>
        case Ok(c) =>
          var m1 := Graft(m, path, Put(c, a));
          ScopeGraft(m, path, Put(c, a));
          AddAttrsLands(m1, path, rest);
          if AllZero(rest) {
            ApplyAllZero(Put(c, a), rest);
          } else {
            GraftGraft(m, path, Put(c, a), ApplyAll(Put(c, a), rest));
          }
      }
    }
  }

  /** With no group path nothing is walked, so flattening never panics. */
  lemma AddAttrsNoPath(m: Fields, attrs: seq<Attr>)
    ensures AddAttrs(m, [], attrs) == Ok(ApplyAll(m, attrs))
  {
    AddAttrsLands(m, [], attrs);
    if AllZero(attrs) {
      ApplyAllZero(m, attrs);
    }
  }

  /**
   * A scalar attribute under a group path lands at `m[g1]...[gn][key]`;
   * the rest of the map at the end of the path is kept.
   */
  lemma ScalarLands(m: Fields, path: seq<string>, key: string, x: Any)
    requires !IsZero(Attr(key, Scalar(x)))
    requires Scope(m, path).Ok?
    ensures AddAttr(m, path, Attr(key, Scalar(x))).Ok?
    ensures Scope(AddAttr(m, path, Attr(key, Scalar(x))).value, path)
            == Ok(Scope(m, path).value[key := Leaf(x)])
  {
    ScopeGraft(m, path, Scope(m, path).value[key := Leaf(x)]);
  }

  /**
   * A group with no children sets no key, but the walk still runs: the
   * maps along the path exist afterwards and hold what they held before.
   */
  lemma EmptyGroupMakesPath(m: Fields, path: seq<string>, key: string)
    requires Scope(m, path).Ok?
    ensures AddAttr(m, path, Attr(key, Group([]))) == Ok(Graft(m, path, Scope(m, path).value))
    ensures PathExists(AddAttr(m, path, Attr(key, Group([]))).value, path)
    ensures Scope(AddAttr(m, path, Attr(key, Group([]))).value, path) == Scope(m, path)
  {
    GraftMakesPath(m, path, Scope(m, path).value);
    ScopeGraft(m, path, Scope(m, path).value);
  }

  /**
   * Under a group path, the last attribute decides its key: a scalar
   * attribute at the end wins over every earlier write of that key, among
   * them the bound fields that a record's attributes are flattened onto.
   */
  lemma LastAttrWins(m: Fields, path: seq<string>, attrs: seq<Attr>, key: string, x: Any)
    requires !IsZero(Attr(key, Scalar(x)))
    requires AddAttrs(m, path, attrs + [Attr(key, Scalar(x))]).Ok?
    ensures Scope(AddAttrs(m, path, attrs + [Attr(key, Scalar(x))]).value, path).Ok?
    ensures var inner := Scope(AddAttrs(m, path, attrs + [Attr(key, Scalar(x))]).value, path).value;
            key in inner && inner[key] == Leaf(x)
  {
    var a := Attr(key, Scalar(x));
    var all := attrs + [a];
    assert !AllZero(all) by {
      assert all[|attrs|] == a;
    }
    AddAttrsLands(m, path, all);
    assert Scope(m, path).Ok?;
    var c := Scope(m, path).value;
    var before := ApplyAll(c, attrs);
    ApplyAllAppend(c, attrs, [a]);
    assert ApplyAll(before, [a]) == Apply(before, a) == before[key := Leaf(x)];
    var inner := ApplyAll(c, all);
    assert inner == before[key := Leaf(x)];
    assert AddAttrs(m, path, all) == Ok(Graft(m, path, inner));
    ScopeGraft(m, path, inner);
  }

  /**
   * Under a non-empty group path the top level of the map changes only at
   * the first group name: every other top-level key keeps its entry.
   */
  lemma AddAttrsTopLevelFrame(m: Fields, path: seq<string>, attrs: seq<Attr>)
    requires path != [] && AddAttrs(m, path, attrs).Ok?
    ensures AddAttrs(m, path, attrs).value.Keys <= m.Keys + {path[0]}
    ensures forall k | k in m && k != path[0] ::
              k in AddAttrs(m, path, attrs).value && AddAttrs(m, path, attrs).value[k] == m[k]
  {
    AddAttrsLands(m, path, attrs);
  }

  // ---------------------------------------------------------------------
  // Groups and keys at one level.
  // ---------------------------------------------------------------------

  /**
   * Flattening adds exactly the keys the attributes write, and every other
   * key keeps its value.
   */
  lemma {:induction false} ApplyFrame(c: Fields, a: Attr)
    ensures Apply(c, a).Keys == c.Keys + KeysOf(a)
    ensures forall k | k in c && k !in KeysOf(a) :: Apply(c, a)[k] == c[k]
    decreases a
  {
    if !IsZero(a) && a.value.Group? && a.value.attrs != [] && a.key == "" {
      ApplyAllFrame(c, a.value.attrs);
    }
  }

  lemma {:induction false} ApplyAllFrame(c: Fields, attrs: seq<Attr>)
    ensures ApplyAll(c, attrs).Keys == c.Keys + KeysOfAll(attrs)
    ensures forall k | k in c && k !in KeysOfAll(attrs) :: ApplyAll(c, attrs)[k] == c[k]
    decreases attrs
  {
    if attrs != [] {
      ApplyFrame(c, attrs[0]);
      ApplyAllFrame(Apply(c, attrs[0]), attrs[1..]);
    }
  }

  /** An anonymous group, empty or not, is the same as its children written inline. */
  lemma SpliceInline(c: Fields, before: seq<Attr>, children: seq<Attr>, after: seq<Attr>)
    ensures ApplyAll(c, before + [Attr("", Group(children))] + after)
            == ApplyAll(c, before + children + after)
  {
    var g := Attr("", Group(children));
    ApplyAllAppend(c, before + [g], after);
    ApplyAllAppend(c, before, [g]);
    ApplyAllAppend(c, before + children, after);
    ApplyAllAppend(c, before, children);
    var d := ApplyAll(c, before);
    assert ApplyAll(d, [g]) == Apply(d, g);
    assert !IsZero(g);
    assert Apply(d, g) == Put(d, g);
    if children == [] {
      assert ApplyAll(d, children) == d;
    } else {
      assert Put(d, g) == ApplyAll(d, children);
    }
    assert ApplyAll(d, [g]) == ApplyAll(d, children);
  }

  /**
   * A named non-empty group installs a fresh map built from its children
   * alone: whatever was under its key before, map or scalar, is replaced,
   * never merged.
   */
  lemma NamedGroupReplaces(c1: Fields, c2: Fields, key: string, children: seq<Attr>)
    requires key != "" && children != []
    ensures key in Apply(c1, Attr(key, Group(children))) && key in Apply(c2, Attr(key, Group(children)))
    ensures Apply(c1, Attr(key, Group(children)))[key]
            == Apply(c2, Attr(key, Group(children)))[key]
            == Node(ApplyAll(map[], children))
  {
    assert !IsZero(Attr(key, Group(children)));
  }

  predicate FlatScalars(attrs: seq<Attr>)
  {
    forall i | 0 <= i < |attrs| :: attrs[i].value.Scalar? && !IsZero(attrs[i])
  }

  /** No attribute after position `i` has the key of `attrs[i]`. */
  predicate LastWithKey(attrs: seq<Attr>, i: int)
    requires 0 <= i < |attrs|
  {
    forall j | i < j < |attrs| :: attrs[j].key != attrs[i].key
  }

  /**
   * Last write wins: in a list of scalar attributes, each key ends up with
   * the value of its last occurrence.
   */
  lemma {:induction false} LastOccurrenceWins(c: Fields, attrs: seq<Attr>)
    requires FlatScalars(attrs)
    ensures forall i | 0 <= i < |attrs| && LastWithKey(attrs, i) ::
              attrs[i].key in ApplyAll(c, attrs) && ApplyAll(c, attrs)[attrs[i].key] == Leaf(attrs[i].value.x)
    decreases |attrs|
  {
    if attrs != [] {
      var n := |attrs| - 1;
      var init, a := attrs[..n], attrs[n];
      assert attrs == init + [a];
      ApplyAllAppend(c, init, [a]);
      var r0 := ApplyAll(c, init);
      assert ApplyAll(r0, [a]) == Apply(r0, a);
      assert a.value.Scalar? && !IsZero(a) by {
        assert a == attrs[n];
      }
      assert Apply(r0, a) == Put(r0, a) == r0[a.key := Leaf(a.value.x)];
      assert ApplyAll(c, attrs) == r0[a.key := Leaf(a.value.x)];
      LastOccurrenceWins(c, init);
      forall i | 0 <= i < |attrs| && LastWithKey(attrs, i)
        ensures attrs[i].key in ApplyAll(c, attrs) && ApplyAll(c, attrs)[attrs[i].key] == Leaf(attrs[i].value.x)
      {
        if i < n {
          assert attrs[n].key != attrs[i].key;
          assert LastWithKey(init, i);
        }
      }
    }
  }

  /**
   * Small cases: an anonymous group is inlined, an empty named group adds
   * nothing, a named group nests, and the zero attribute is dropped.
   */
  lemma FlattenExamples()
    ensures ApplyAll(map[], [Attr("", Group([Attr("a", Scalar(Int(1))), Attr("b", Scalar(Int(2)))]))])
            == map["a" := Leaf(Int(1)), "b" := Leaf(Int(2))]
    ensures ApplyAll(map[], [Attr("g", Group([]))]) == map[]
    ensures ApplyAll(map[], [Attr("g", Group([Attr("a", Scalar(Int(1)))]))])
            == map["g" := Node(map["a" := Leaf(Int(1))])]
    ensures ApplyAll(map[], [ZeroAttr, Attr("k", Scalar(Str("v")))]) == map["k" := Leaf(Str("v"))]
  {
    var a1, b2 := Attr("a", Scalar(Int(1))), Attr("b", Scalar(Int(2)));
    SpliceInline(map[], [], [a1, b2], []);
    assert [] + [a1, b2] + [] == [a1, b2];
    assert [] + [Attr("", Group([a1, b2]))] + [] == [Attr("", Group([a1, b2]))];
    assert ApplyAll(map[], [a1]) == map["a" := Leaf(Int(1))];
    assert ApplyAll(map[], [Attr("g", Group([a1]))]) == Apply(map[], Attr("g", Group([a1])));
    var kv := Attr("k", Scalar(Str("v")));
    assert [ZeroAttr, kv][1..] == [kv];
    assert ApplyAll(map[], [ZeroAttr, kv]) == ApplyAll(map[], [kv]);
    assert !IsZero(kv) && ApplyAll(map[], [kv]) == Apply(map[], kv);
  }

  // ---------------------------------------------------------------------
  // The Go procedures, step by step.
  // ---------------------------------------------------------------------

  /** The copy loop `for k, v := range src { dst[k] = v }` into a fresh map. */
  method CopyFields(src: Fields) returns (dst: Fields)
    ensures dst == src
  {
    dst := map[];
    var pending := src.Keys;
    while pending != {}
      invariant pending <= src.Keys
      invariant dst.Keys == src.Keys - pending
      invariant forall k | k in dst :: dst[k] == src[k]
      decreases pending
    {
      var k :| k in pending;
      dst := dst[k := src[k]];
      pending := pending - {k};
    }
  }

  /** `addAttrToMap`: the walk down the group path, then the write. */
  method AddAttrToMap(attr: Attr, fields: Fields, groups: seq<string>) returns (r: Result<Fields>)
    ensures r == AddAttr(fields, groups, attr)
    decreases attr
  {
    if IsZero(attr) {
      return Ok(fields);
    }
    var val, key := attr.value, attr.key;

    var current := fields;
    for i := 0 to |groups|
      invariant Scope(fields, groups[..i]) == Ok(current)
    {
      ScopeSnoc(fields, groups[..i], groups[i]);
      assert groups[..i + 1] == groups[..i] + [groups[i]];
      var group := groups[i];
      if group !in current {
        current := map[];
      } else if current[group].Leaf? {
        assert Scope(fields, groups[..i + 1]) == Panic;
        AddAttrPanicsOnPrefix(fields, groups, i + 1);
        return Panic;
      } else {
        current := current[group].entries;
      }
    }
    assert groups[..|groups|] == groups;

    match val
    case Group(attrs) =>
      if |attrs| == 0 {
        return Ok(Graft(fields, groups, current));
      }
      if key == "" {
        var inlined := AddAttrsToMap(attrs, current, []);
        AddAttrsNoPath(current, attrs);
        return Ok(Graft(fields, groups, inlined.value));
      }
      var group := AddAttrsToMap(attrs, map[], []);
      AddAttrsNoPath(map[], attrs);
      current := current[key := Node(group.value)];
      return Ok(Graft(fields, groups, current));
    case Scalar(x) =>
      current := current[key := Leaf(x)];
      return Ok(Graft(fields, groups, current));
  }

  /** A walk that panics on a prefix of the path panics on the whole path. */
  lemma {:induction false} AddAttrPanicsOnPrefix(m: Fields, path: seq<string>, n: nat)
    requires n <= |path| && Scope(m, path[..n]) == Panic
    ensures Scope(m, path) == Panic
    decreases |path| - n
  {
    if n < |path| {
      ScopeSnoc(m, path[..n], path[n]);
      assert path[..n + 1] == path[..n] + [path[n]];
      AddAttrPanicsOnPrefix(m, path, n + 1);
    } else {
      assert path[..n] == path;
    }
  }

  /** `addAttrsToMap`: each attribute in order. */
  method AddAttrsToMap(attrs: seq<Attr>, fields: Fields, groups: seq<string>) returns (r: Result<Fields>)
    ensures r == AddAttrs(fields, groups, attrs)
    decreases attrs
  {
    r := Ok(fields);
    for i := 0 to |attrs|
      invariant r.Ok?
      invariant r == AddAttrs(fields, groups, attrs[..i])
    {
      AddAttrsAppend(fields, groups, attrs[..i], [attrs[i]]);
      assert attrs[..i + 1] == attrs[..i] + [attrs[i]];
      var next := AddAttrToMap(attrs[i], r.value, groups);
      if next.Panic? {
        AddAttrsAppend(fields, groups, attrs[..i + 1], attrs[i + 1..]);
        assert attrs[..i + 1] + attrs[i + 1..] == attrs;
        return Panic;
      }
      r := next;
    }
    assert attrs[..|attrs|] == attrs;
  }
}
