/**
 * The nested `map[string]any` that tflog accepts, as a value, and the walk
 * down a path of group names that `addAttrToMap` performs before it writes.
 */
module FieldMaps {
  import opened Slog

  /** An entry of the map: a scalar, or a nested map (one per group). */
  datatype Field = Leaf(scalar: Any) | Node(entries: map<string, Field>)

  type Fields = map<string, Field>

  /** `Panic` is the run-time panic of a failed type assertion. */
  datatype Result<T> = Ok(value: T) | Panic

  /**
   * One step of the descent: the nested map under `g`, a fresh empty one
   * when `g` is absent, and a panic when the entry under `g` is not a map.
   */
  function Step(m: Fields, g: string): (r: Result<Fields>)
    ensures r == Panic <==> g in m && m[g].Leaf?
    ensures g !in m ==> r == Ok(map[])
    ensures g in m && m[g].Node? ==> r == Ok(m[g].entries)
  {
    if g !in m then Ok(map[])
    else if m[g].Node? then Ok(m[g].entries)
    else Panic
  }

  /** The map reached from `m` by descending through every name of `path`. */
  function Scope(m: Fields, path: seq<string>): (r: Result<Fields>)
    ensures path == [] ==> r == Ok(m)
    decreases path
  {
    if path == [] then Ok(m)
    else
      match Step(m, path[0])
      case Panic => Panic
      case Ok(c) => Scope(c, path[1..])
  }

  /** The nested map under `g`, or an empty one when there is none. */
  function Child(m: Fields, g: string): Fields
  {
    if g in m && m[g].Node? then m[g].entries else map[]
  }

  /**
   * `m` with `inner` installed as the map at `path`, every map on the way
   * kept or created: the effect that writing through the descended
   * `current` has on the outer map.
   */
  function Graft(m: Fields, path: seq<string>, inner: Fields): (r: Fields)
    ensures path == [] ==> r == inner
    ensures path != [] ==> r.Keys == m.Keys + {path[0]} && r[path[0]].Node?
    ensures path != [] ==> forall k :: k in m && k != path[0] ==> r[k] == m[k]
    decreases path
  {
    if path == [] then inner
    else m[path[0] := Node(Graft(Child(m, path[0]), path[1..], inner))]
  }

  /** Descending after a graft reaches exactly the grafted map. */
  lemma {:induction false} ScopeGraft(m: Fields, path: seq<string>, inner: Fields)
    ensures Scope(Graft(m, path, inner), path) == Ok(inner)
    decreases path
  {
    if path != [] {
      ScopeGraft(Child(m, path[0]), path[1..], inner);
    }
  }

  /** A second graft at the same path replaces the first. */
  lemma {:induction false} GraftGraft(m: Fields, path: seq<string>, a: Fields, b: Fields)
    ensures Graft(Graft(m, path, a), path, b) == Graft(m, path, b)
    decreases path
  {
    if path != [] {
      GraftGraft(Child(m, path[0]), path[1..], a, b);
    }
  }

  /** Descending one more name extends the descent by one `Step`. */
  lemma {:induction false} ScopeSnoc(m: Fields, path: seq<string>, g: string)
    ensures Scope(m, path + [g]) ==
              match Scope(m, path)
              case Panic => Panic
              case Ok(c) => Step(c, g)
    decreases path
  {
    if path == [] {
      assert [] + [g] == [g];
    } else {
      assert (path + [g])[1..] == path[1..] + [g];
      match Step(m, path[0])
      case Panic =>
      case Ok(c) => ScopeSnoc(c, path[1..], g);
    }
  }

  /** Where every map on the path already exists, grafting what was found back is the identity. */
  lemma {:induction false} GraftScopeExisting(m: Fields, path: seq<string>)
    requires PathExists(m, path)
    ensures Scope(m, path).Ok? && Graft(m, path, Scope(m, path).value) == m
    decreases path
  {
    if path != [] {
      GraftScopeExisting(m[path[0]].entries, path[1..]);
    }
  }

  /** Every name of `path` names a nested map, level by level. */
  predicate PathExists(m: Fields, path: seq<string>)
    decreases path
  {
    path == [] || (path[0] in m && m[path[0]].Node? && PathExists(m[path[0]].entries, path[1..]))
  }

  /** After a graft the whole path exists. */
  lemma {:induction false} GraftMakesPath(m: Fields, path: seq<string>, inner: Fields)
    ensures PathExists(Graft(m, path, inner), path)
    decreases path
  {
    if path != [] {
      GraftMakesPath(Child(m, path[0]), path[1..], inner);
    }
  }
}
