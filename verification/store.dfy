/** Lists of named records and the maps kept beside them. */
module Store {
  import opened Wrappers

  /** The map built by inserting the records in order: a later record replaces an
      earlier one of the same name. */
  function AsMap<T>(xs: seq<T>, name: T -> string): map<string, T> {
    if xs == [] then map[]
    else AsMap(xs[..|xs| - 1], name)[name(xs[|xs| - 1]) := xs[|xs| - 1]]
  }

  /** `retain(|x| x.host_name != n)` */
  function Without<T>(xs: seq<T>, name: T -> string, n: string): seq<T> {
    if xs == [] then []
    else Without(xs[..|xs| - 1], name, n) + (if name(xs[|xs| - 1]) != n then [xs[|xs| - 1]] else [])
  }

  ghost predicate UniqueNames<T>(xs: seq<T>, name: T -> string) {
    forall i, j :: 0 <= i < j < |xs| ==> name(xs[i]) != name(xs[j])
  }

  ghost predicate KeyedByName<T>(m: map<string, T>, name: T -> string) {
    forall n :: n in m ==> name(m[n]) == n
  }

  /** `i` is the last position of a record named `n`. */
  ghost predicate LastNamed<T>(xs: seq<T>, name: T -> string, n: string, i: int) {
    0 <= i < |xs| && name(xs[i]) == n && forall j :: i < j < |xs| ==> name(xs[j]) != n
  }

  /** The map holds exactly the last record of every name. */
  lemma {:induction false} AsMapIsLast<T>(xs: seq<T>, name: T -> string, n: string)
    ensures n in AsMap(xs, name) <==> exists i :: LastNamed(xs, name, n, i)
    ensures forall i :: LastNamed(xs, name, n, i) ==> AsMap(xs, name)[n] == xs[i]
    ensures KeyedByName(AsMap(xs, name), name)
  {
    if xs != [] {
      var last := |xs| - 1;
      AsMapIsLast(xs[..last], name, n);
      if name(xs[last]) == n {
        assert LastNamed(xs, name, n, last);
      } else {
        forall i ensures LastNamed(xs, name, n, i) <==> LastNamed(xs[..last], name, n, i) {
        }
      }
    }
  }

  // ---- add_or_replace -----------------------------------------------------------

  function Upsert<T>(xs: seq<T>, name: T -> string, oldName: string, item: T): seq<T> {
    Without(Without(xs, name, name(item)), name, oldName) + [item]
  }

  lemma WithoutSnoc<T>(xs: seq<T>, x: T, name: T -> string, n: string)
    ensures Without(xs + [x], name, n) == Without(xs, name, n) + (if name(x) != n then [x] else [])
  {
    assert (xs + [x])[..|xs|] == xs;
  }

  lemma AsMapSnoc<T>(xs: seq<T>, x: T, name: T -> string)
    ensures AsMap(xs + [x], name) == AsMap(xs, name)[name(x) := x]
  {
    assert (xs + [x])[..|xs|] == xs;
  }

  /** The order of the two removals does not matter. */
  lemma {:induction false} WithoutCommutes<T>(xs: seq<T>, name: T -> string, a: string, b: string)
    ensures Without(Without(xs, name, a), name, b) == Without(Without(xs, name, b), name, a)
  {
    if xs != [] {
      var front, x := xs[..|xs| - 1], xs[|xs| - 1];
      WithoutCommutes(front, name, a, b);
      WithoutSnoc(Without(front, name, a), x, name, b);
      WithoutSnoc(Without(front, name, b), x, name, a);
      assert Without(front, name, a) + [] == Without(front, name, a);
      assert Without(front, name, b) + [] == Without(front, name, b);
    }
  }

  lemma {:induction false} WithoutMembers<T>(xs: seq<T>, name: T -> string, n: string, x: T)
    ensures x in Without(xs, name, n) <==> x in xs && name(x) != n
  {
    if xs != [] {
      WithoutMembers(xs[..|xs| - 1], name, n, x);
      assert xs == xs[..|xs| - 1] + [xs[|xs| - 1]];
    }
  }

  lemma UniqueSnoc<T>(xs: seq<T>, x: T, name: T -> string)
    requires UniqueNames(xs, name) && forall y :: y in xs ==> name(y) != name(x)
    ensures UniqueNames(xs + [x], name)
  {
  }

  lemma {:induction false} WithoutUnique<T>(xs: seq<T>, name: T -> string, n: string)
    requires UniqueNames(xs, name)
    ensures UniqueNames(Without(xs, name, n), name)
  {
    if xs != [] {
      var front, x := xs[..|xs| - 1], xs[|xs| - 1];
      WithoutUnique(front, name, n);
      if name(x) != n {
        forall y | y in Without(front, name, n) ensures name(y) != name(x) {
          WithoutMembers(front, name, n, y);
          var k :| 0 <= k < |front| && front[k] == y;
          assert xs[k] == y;
        }
        UniqueSnoc(Without(front, name, n), x, name);
      }
    }
  }

  lemma {:induction false} WithoutTwice<T>(xs: seq<T>, name: T -> string, n: string)
    ensures Without(Without(xs, name, n), name, n) == Without(xs, name, n)
  {
    if xs != [] {
      var front, x := xs[..|xs| - 1], xs[|xs| - 1];
      WithoutTwice(front, name, n);
      WithoutSnoc(Without(front, name, n), x, name, n);
      assert Without(front, name, n) + [] == Without(front, name, n);
    }
  }

  lemma RemoveAfterBind<T>(m: map<string, T>, k: string, v: T, n: string)
    ensures m[k := v] - {n} == if k == n then m - {n} else (m - {n})[k := v]
  {
  }

  lemma {:induction false} AsMapWithout<T>(xs: seq<T>, name: T -> string, n: string)
    ensures AsMap(Without(xs, name, n), name) == AsMap(xs, name) - {n}
  {
    if xs != [] {
      var front, x := xs[..|xs| - 1], xs[|xs| - 1];
      AsMapWithout(front, name, n);
      AsMapSnoc(Without(front, name, n), x, name);
      RemoveAfterBind(AsMap(front, name), name(x), x, n);
      if name(x) == n {
        assert Without(xs, name, n) == Without(front, name, n);
      } else {
        assert Without(xs, name, n) == Without(front, name, n) + [x];
      }
    }
  }

  lemma RemoveTwo<T>(m: map<string, T>, a: string, b: string)
    ensures m - {a} - {b} == m - {b, a}
  {
  }

  /** One add_or_replace removes the old and the new name from the map and binds the new name. */
  lemma UpsertOnMap<T>(xs: seq<T>, name: T -> string, oldName: string, item: T)
    ensures AsMap(Upsert(xs, name, oldName, item), name)
         == (AsMap(xs, name) - {oldName, name(item)})[name(item) := item]
  {
    var n := name(item);
    AsMapSnoc(Without(Without(xs, name, n), name, oldName), item, name);
    AsMapWithout(xs, name, n);
    AsMapWithout(Without(xs, name, n), name, oldName);
    RemoveTwo(AsMap(xs, name), n, oldName);
  }

  /** The new record goes last, behind what is left of the old ones. */
  lemma UpsertPutsLast<T>(xs: seq<T>, name: T -> string, oldName: string, item: T)
    ensures var ys := Upsert(xs, name, oldName, item);
            && ys != [] && ys[|ys| - 1] == item
            && forall y :: y in ys[..|ys| - 1] <==> y in xs && name(y) != oldName && name(y) != name(item)
  {
    var a := Without(xs, name, name(item));
    var kept := Without(a, name, oldName);
    assert (kept + [item])[..|kept|] == kept;
    forall y ensures y in kept <==> y in xs && name(y) != oldName && name(y) != name(item) {
      WithoutMembers(xs, name, name(item), y);
      WithoutMembers(a, name, oldName, y);
    }
  }

  /** The list stays free of duplicate names. */
  lemma UpsertUnique<T>(xs: seq<T>, name: T -> string, oldName: string, item: T)
    requires UniqueNames(xs, name)
    ensures UniqueNames(Upsert(xs, name, oldName, item), name)
  {
    var n := name(item);
    var a := Without(xs, name, n);
    WithoutUnique(xs, name, n);
    WithoutUnique(a, name, oldName);
    forall y | y in Without(a, name, oldName) ensures name(y) != n {
      WithoutMembers(a, name, oldName, y);
      WithoutMembers(xs, name, n, y);
    }
    UniqueSnoc(Without(a, name, oldName), item, name);
  }

  /** What is named neither by the old nor by the new name keeps its order. */
  lemma UpsertKeepsOrder<T>(xs: seq<T>, name: T -> string, oldName: string, item: T)
    ensures Without(Without(Upsert(xs, name, oldName, item), name, name(item)), name, oldName)
         == Without(Without(xs, name, name(item)), name, oldName)
  {
    var n := name(item);
    var a := Without(xs, name, n);
    var kept := Without(a, name, oldName);
    WithoutSnoc(kept, item, name, n);
    assert Without(kept, name, n) + [] == Without(kept, name, n);
    WithoutCommutes(xs, name, n, oldName);
    WithoutTwice(Without(xs, name, oldName), name, n);
    WithoutTwice(a, name, oldName);
  }

  datatype Change<T> = Change(oldName: string, item: T)

  function Apply<T>(xs: seq<T>, name: T -> string, changes: seq<Change<T>>): seq<T>
    decreases |changes|
  {
    if changes == [] then xs
    else Apply(Upsert(xs, name, changes[0].oldName, changes[0].item), name, changes[1..])
  }

  function ApplyToMap<T>(m: map<string, T>, name: T -> string, changes: seq<Change<T>>): map<string, T>
    decreases |changes|
  {
    if changes == [] then m
    else
      var c := changes[0];
      ApplyToMap((m - {c.oldName, name(c.item)})[name(c.item) := c.item], name, changes[1..])
  }

  /** Any sequence of add_or_replace calls refines the same sequence on a finite map. */
  lemma {:induction false} ChangesRefine<T>(xs: seq<T>, name: T -> string, changes: seq<Change<T>>)
    ensures AsMap(Apply(xs, name, changes), name) == ApplyToMap(AsMap(xs, name), name, changes)
    ensures UniqueNames(xs, name) ==> UniqueNames(Apply(xs, name, changes), name)
    decreases |changes|
  {
    if changes != [] {
      UpsertOnMap(xs, name, changes[0].oldName, changes[0].item);
      if UniqueNames(xs, name) { UpsertUnique(xs, name, changes[0].oldName, changes[0].item); }
      ChangesRefine(Upsert(xs, name, changes[0].oldName, changes[0].item), name, changes[1..]);
    }
  }

  /** A record whose name no change mentions stays, and two such records keep
      their order: the sublist of records with unmentioned names is unchanged. */
  function Untouched<T>(xs: seq<T>, name: T -> string, changes: seq<Change<T>>): seq<T>
    decreases |changes|
  {
    if changes == [] then xs
    else Without(Without(Untouched(xs, name, changes[1..]), name, name(changes[0].item)), name, changes[0].oldName)
  }

  lemma {:induction false} UntouchedWithout<T>(xs: seq<T>, name: T -> string, changes: seq<Change<T>>, n: string)
    ensures Untouched(Without(xs, name, n), name, changes) == Without(Untouched(xs, name, changes), name, n)
    decreases |changes|
  {
    if changes != [] {
      var rest := Untouched(xs, name, changes[1..]);
      UntouchedWithout(xs, name, changes[1..], n);
      WithoutCommutes(rest, name, n, name(changes[0].item));
      WithoutCommutes(Without(rest, name, name(changes[0].item)), name, n, changes[0].oldName);
    }
  }

  lemma {:induction false} ChangesKeepOrder<T>(xs: seq<T>, name: T -> string, changes: seq<Change<T>>)
    ensures Untouched(Apply(xs, name, changes), name, changes) == Untouched(xs, name, changes)
    decreases |changes|
  {
    if changes != [] {
      var c, rest := changes[0], changes[1..];
      var ys := Upsert(xs, name, c.oldName, c.item);
      ChangesKeepOrder(ys, name, rest);
      UpsertKeepsOrder(xs, name, c.oldName, c.item);
      UntouchedWithout(ys, name, rest, name(c.item));
      UntouchedWithout(Without(ys, name, name(c.item)), name, rest, c.oldName);
      UntouchedWithout(xs, name, rest, name(c.item));
      UntouchedWithout(Without(xs, name, name(c.item)), name, rest, c.oldName);
    }
  }

  // ---- persist -----------------------------------------------------------------------

  ghost predicate Distinct<T>(xs: seq<T>) {
    forall i, j :: 0 <= i < j < |xs| ==> xs[i] != xs[j]
  }

  /** `keys` lists the keys of `m` once each, and `ys` holds their values. */
  ghost predicate EnumeratedBy<T>(ys: seq<T>, m: map<string, T>, keys: seq<string>) {
    && |ys| == |keys| && Distinct(keys)
    && (forall n :: n in m <==> n in keys)
    && (forall i :: 0 <= i < |keys| && keys[i] in m ==> ys[i] == m[keys[i]])
  }

  /** The values of `m` in some iteration order. */
  ghost predicate Enumerates<T>(ys: seq<T>, m: map<string, T>) {
    exists keys :: EnumeratedBy(ys, m, keys)
  }

  /** `None` when there is nothing to list. */
  function Normalised<T>(ys: seq<T>): Option<seq<T>> {
    if ys == [] then None else Some(ys)
  }

  /** Persisting a map keyed by host name and reloading the list gives the map back. */
  lemma PersistThenReload<T>(m: map<string, T>, name: T -> string, ys: seq<T>)
    requires KeyedByName(m, name) && Enumerates(ys, m)
    ensures UniqueNames(ys, name) && AsMap(ys, name) == m
  {
    var keys :| EnumeratedBy(ys, m, keys);
    forall i | 0 <= i < |ys| ensures name(ys[i]) == keys[i] && keys[i] in m {
      assert keys[i] in keys;
    }
    assert UniqueNames(ys, name);
    var loaded := AsMap(ys, name);
    forall n ensures (n in loaded <==> n in m) && (n in m ==> loaded[n] == m[n]) {
      AsMapIsLast(ys, name, n);
      if n in m {
        var i :| 0 <= i < |keys| && keys[i] == n;
        assert LastNamed(ys, name, n, i);
      }
      if i :| LastNamed(ys, name, n, i) {
        assert keys[i] == n;
      }
    }
  }

  lemma {:induction false} CountOnce<T>(xs: seq<T>, name: T -> string, x: T)
    requires UniqueNames(xs, name)
    ensures multiset(xs)[x] == if x in xs then 1 else 0
  {
    if xs != [] {
      var front := xs[..|xs| - 1];
      CountOnce(front, name, x);
      assert xs == front + [xs[|xs| - 1]];
      if x in front {
        var i :| 0 <= i < |front| && xs[i] == x;
      }
    }
  }

  lemma UniqueMembers<T>(xs: seq<T>, name: T -> string, x: T)
    requires UniqueNames(xs, name)
    ensures x in xs <==> name(x) in AsMap(xs, name) && AsMap(xs, name)[name(x)] == x
  {
    AsMapIsLast(xs, name, name(x));
    if x in xs {
      var i :| 0 <= i < |xs| && xs[i] == x;
      assert LastNamed(xs, name, name(x), i);
    }
  }

  /** Reloading a list and persisting it permutes the list exactly when no host
      name occurs twice. */
  lemma ReloadThenPersist<T>(xs: seq<T>, name: T -> string, ys: seq<T>)
    requires Enumerates(ys, AsMap(xs, name))
    ensures multiset(ys) == multiset(xs) <==> UniqueNames(xs, name)
  {
    AsMapIsLast(xs, name, "");
    PersistThenReload(AsMap(xs, name), name, ys);
    if UniqueNames(xs, name) {
      forall x ensures multiset(ys)[x] == multiset(xs)[x] {
        CountOnce(xs, name, x);
        CountOnce(ys, name, x);
        UniqueMembers(xs, name, x);
        UniqueMembers(ys, name, x);
      }
    }
    if multiset(ys) == multiset(xs) {
      forall i, j | 0 <= i < j < |xs| ensures name(xs[i]) != name(xs[j]) {
        CountOnce(ys, name, xs[i]);
        assert xs == xs[..j] + xs[j..] && xs[i] == xs[..j][i] && xs[j] == xs[j..][0];
        assert multiset(xs) == multiset(xs[..j]) + multiset(xs[j..]);
        assert xs[i] in multiset(xs[..j]) && xs[j] in multiset(xs[j..]);
        assert xs[i] in multiset(ys) && xs[j] in multiset(ys);
        UniqueMembers(ys, name, xs[i]);
        UniqueMembers(ys, name, xs[j]);
      }
    }
  }
}
