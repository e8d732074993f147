/** Python's insertion-ordered `dict`, as a sequence of key/value pairs.
    Assigning to a key that is present replaces its value where it stands;
    assigning to a new key appends it. The grouping loop
    `if k not in d: d[k] = []` / `d[k].append(v)` is `GroupInto`. */
module Dicts {
  import opened Wrappers

  type Dict<K, V> = seq<(K, V)>

  function Keys<K, V>(d: Dict<K, V>): (ks: seq<K>)
    ensures |ks| == |d|
    ensures forall i | 0 <= i < |d| :: ks[i] == d[i].0
  {
    if d == [] then [] else [d[0].0] + Keys(d[1..])
  }

  predicate HasKey<K(==), V>(d: Dict<K, V>, k: K) {
    k in Keys(d)
  }

  predicate DistinctKeys<K(==), V>(d: Dict<K, V>) {
    forall i, j | 0 <= i < j < |d| :: d[i].0 != d[j].0
  }

  /** `d.get(k)`. */
  function Get<K(==), V>(d: Dict<K, V>, k: K): (r: Option<V>)
    ensures r.Some? <==> HasKey(d, k)
    ensures r.Some? ==> (k, r.value) in d
  {
    if d == [] then None
    else if d[0].0 == k then Some(d[0].1)
    else Get(d[1..], k)
  }

  /** `d[k] = v`. */
  function Put<K(==), V>(d: Dict<K, V>, k: K, v: V): (r: Dict<K, V>)
    ensures r != [] && |d| <= |r|
    ensures HasKey(d, k) ==> Keys(r) == Keys(d)
    ensures !HasKey(d, k) ==> Keys(r) == Keys(d) + [k]
  {
    if d == [] then [(k, v)]
    else if d[0].0 == k then [(k, v)] + d[1..]
    else [d[0]] + Put(d[1..], k, v)
  }

  /** After `d[k] = v`, `d[k]` is `v` and every other key reads as before. */
  lemma {:induction false} PutGet<K, V>(d: Dict<K, V>, k: K, v: V, k': K)
    ensures Get(Put(d, k, v), k') == if k' == k then Some(v) else Get(d, k')
  {
    if d != [] && d[0].0 != k {
      PutGet(d[1..], k, v, k');
    }
  }

  /** A second assignment to the same key overrides the first. */
  lemma {:induction false} PutPut<K, V>(d: Dict<K, V>, k: K, v: V, w: V)
    ensures Put(Put(d, k, v), k, w) == Put(d, k, w)
  {
    if d != [] && d[0].0 != k {
      PutPut(d[1..], k, v, w);
    }
  }

  /** Every key after `d[k] = v` is `k` or was a key before. */
  lemma {:induction false} PutKeys<K, V>(d: Dict<K, V>, k: K, v: V)
    ensures forall i | 0 <= i < |Put(d, k, v)| :: Put(d, k, v)[i].0 == k || Put(d, k, v)[i].0 in Keys(d)
  {
    var r := Put(d, k, v);
    forall i | 0 <= i < |r| ensures r[i].0 == k || r[i].0 in Keys(d) {
      assert r[i].0 == Keys(r)[i];
    }
  }

  /** Assignment keeps the keys distinct. */
  lemma {:induction false} PutDistinct<K, V>(d: Dict<K, V>, k: K, v: V)
    requires DistinctKeys(d)
    ensures DistinctKeys(Put(d, k, v))
  {
    var r := Put(d, k, v);
    assert forall i | 0 <= i < |r| :: r[i].0 == Keys(r)[i];
    assert forall i | 0 <= i < |d| :: d[i].0 == Keys(d)[i];
  }

  /** Assigning to a key that is last in `d` replaces the last pair. */
  lemma {:induction false} PutLast<K, V>(d: Dict<K, V>, k: K, v: V, w: V)
    requires !HasKey(d, k)
    ensures Put(d + [(k, v)], k, w) == d + [(k, w)]
  {
    if d != [] {
      assert (d + [(k, v)])[1..] == d[1..] + [(k, v)];
      assert Keys(d) == [d[0].0] + Keys(d[1..]);
      PutLast(d[1..], k, v, w);
    }
  }

  lemma {:induction false} GetLast<K, V>(d: Dict<K, V>, k: K, v: V)
    requires !HasKey(d, k)
    ensures Get(d + [(k, v)], k) == Some(v)
  {
    if d != [] {
      assert (d + [(k, v)])[1..] == d[1..] + [(k, v)];
      assert Keys(d) == [d[0].0] + Keys(d[1..]);
      GetLast(d[1..], k, v);
    }
  }

  /** One step of the grouping loop. */
  function GroupAppend<K(==), V>(d: Dict<K, seq<V>>, k: K, v: V): Dict<K, seq<V>> {
    match Get(d, k)
    case None => d + [(k, [v])]
    case Some(vs) => Put(d, k, vs + [v])
  }

  /** The grouping loop run over `ps`, starting from `d`. */
  function GroupInto<K(==), V>(d: Dict<K, seq<V>>, ps: seq<(K, V)>): Dict<K, seq<V>> {
    if ps == [] then d
    else GroupAppend(GroupInto(d, ps[..|ps| - 1]), ps[|ps| - 1].0, ps[|ps| - 1].1)
  }

  function Group<K(==), V>(ps: seq<(K, V)>): Dict<K, seq<V>> {
    GroupInto([], ps)
  }

  /** The values paired with `k` in `ps`, in order. */
  function ValuesOf<K(==), V>(ps: seq<(K, V)>, k: K): seq<V> {
    if ps == [] then []
    else if ps[|ps| - 1].0 == k then ValuesOf(ps[..|ps| - 1], k) + [ps[|ps| - 1].1]
    else ValuesOf(ps[..|ps| - 1], k)
  }

  /** One grouping step appends `v` to the list of `k0` and leaves the others. */
  lemma {:induction false} GroupAppendGet<K, V>(d: Dict<K, seq<V>>, k0: K, v: V, k: K)
    ensures Get(GroupAppend(d, k0, v), k) ==
      if k0 == k then Some((if Get(d, k).Some? then Get(d, k).value else []) + [v]) else Get(d, k)
  {
    match Get(d, k0)
    case None =>
      if k0 == k {
        GetLast(d, k, [v]);
        assert [] + [v] == [v];
      } else {
        GetAppendOther(d, k0, [v], k);
      }
    case Some(vs) =>
      PutGet(d, k0, vs + [v], k);
  }

  /** Grouping gathers, under each key that occurs, exactly the values paired
      with it, in their original order; keys that do not occur are absent. */
  lemma {:induction false} GroupGet<K, V>(ps: seq<(K, V)>, k: K)
    ensures Get(Group(ps), k) == if ValuesOf(ps, k) == [] then None else Some(ValuesOf(ps, k))
  {
    if ps != [] {
      var init, last := ps[..|ps| - 1], ps[|ps| - 1];
      GroupGet(init, k);
      GroupAppendGet(Group(init), last.0, last.1, k);
    }
  }

  lemma {:induction false} GetAppendOther<K, V>(d: Dict<K, V>, k: K, v: V, k': K)
    requires k' != k
    ensures Get(d + [(k, v)], k') == Get(d, k')
  {
    if d != [] {
      assert (d + [(k, v)])[1..] == d[1..] + [(k, v)];
      GetAppendOther(d[1..], k, v, k');
    }
  }

  /** Grouping yields distinct keys and never an empty list. */
  lemma {:induction false} GroupShape<K, V>(ps: seq<(K, V)>)
    ensures DistinctKeys(Group(ps))
    ensures forall i | 0 <= i < |Group(ps)| :: Group(ps)[i].1 != []
  {
    if ps != [] {
      var init, last := ps[..|ps| - 1], ps[|ps| - 1];
      GroupShape(init);
      var g := Group(init);
      match Get(g, last.0)
      case None =>
        var r := g + [(last.0, [last.1])];
        assert Keys(g)[..] == Keys(g);
        forall i, j | 0 <= i < j < |r| ensures r[i].0 != r[j].0 {
          if j == |g| {
            assert r[i].0 == Keys(g)[i];
          }
        }
      case Some(vs) =>
        PutDistinct(g, last.0, vs + [last.1]);
        PutValuesNonEmpty(g, last.0, vs + [last.1]);
    }
  }

  lemma {:induction false} PutValuesNonEmpty<K, V>(d: Dict<K, seq<V>>, k: K, v: seq<V>)
    requires forall i | 0 <= i < |d| :: d[i].1 != []
    requires v != []
    ensures forall i | 0 <= i < |Put(d, k, v)| :: Put(d, k, v)[i].1 != []
  {
    if d != [] && d[0].0 != k {
      PutValuesNonEmpty(d[1..], k, v);
    }
  }

  /** Running the grouping loop over `a + b` is running it over `a`, then `b`. */
  lemma {:induction false} GroupIntoConcat<K, V>(d: Dict<K, seq<V>>, a: seq<(K, V)>, b: seq<(K, V)>)
    ensures GroupInto(d, a + b) == GroupInto(GroupInto(d, a), b)
  {
    if b == [] {
      assert a + b == a;
    } else {
      assert (a + b)[..|a + b| - 1] == a + b[..|b| - 1];
      GroupIntoConcat(d, a, b[..|b| - 1]);
    }
  }

  /** Every value of `vs` paired with the same key `k`. */
  function Pairs<K, V>(k: K, vs: seq<V>): (ps: seq<(K, V)>)
    ensures |ps| == |vs|
    ensures forall i | 0 <= i < |vs| :: ps[i] == (k, vs[i])
  {
    if vs == [] then [] else Pairs(k, vs[..|vs| - 1]) + [(k, vs[|vs| - 1])]
  }

  /** Grouping the pairs of one fresh key adds that key with its whole list. */
  lemma {:induction false} GroupIntoFreshKey<K, V>(d: Dict<K, seq<V>>, k: K, vs: seq<V>)
    requires !HasKey(d, k)
    ensures GroupInto(d, Pairs(k, vs)) == if vs == [] then d else d + [(k, vs)]
  {
    if vs != [] {
      var ws, v := vs[..|vs| - 1], vs[|vs| - 1];
      var ps := Pairs(k, vs);
      assert ps[..|ps| - 1] == Pairs(k, ws) && ps[|ps| - 1] == (k, v);
      assert GroupInto(d, ps) == GroupAppend(GroupInto(d, Pairs(k, ws)), k, v);
      GroupIntoFreshKey(d, k, ws);
      if ws == [] {
        assert GroupAppend(d, k, v) == d + [(k, [v])];
        assert vs == [v];
      } else {
        GroupAppendLast(d, k, ws, v);
        assert ws + [v] == vs;
      }
    }
  }

  /** A grouping step on the key added last extends that key's list. */
  lemma {:induction false} GroupAppendLast<K, V>(d: Dict<K, seq<V>>, k: K, ws: seq<V>, v: V)
    requires !HasKey(d, k)
    ensures GroupAppend(d + [(k, ws)], k, v) == d + [(k, ws + [v])]
  {
    GetLast(d, k, ws);
    PutLast(d, k, ws, ws + [v]);
  }

  /** All pairs of a dictionary of lists, in order. */
  function Flatten<K, V>(d: Dict<K, seq<V>>): seq<(K, V)> {
    if d == [] then [] else Flatten(d[..|d| - 1]) + Pairs(d[|d| - 1].0, d[|d| - 1].1)
  }

  /** The entries of `d` whose list is non-empty, in order. */
  function NonEmptyEntries<K, V>(d: Dict<K, seq<V>>): (r: Dict<K, seq<V>>)
    ensures |r| <= |d|
  {
    if d == [] then []
    else if d[|d| - 1].1 == [] then NonEmptyEntries(d[..|d| - 1])
    else NonEmptyEntries(d[..|d| - 1]) + [d[|d| - 1]]
  }

  lemma {:induction false} NonEmptyEntriesKeys<K, V>(d: Dict<K, seq<V>>, k: K)
    requires !HasKey(d, k)
    ensures !HasKey(NonEmptyEntries(d), k)
  {
    if d != [] {
      var init := d[..|d| - 1];
      assert forall i | 0 <= i < |init| :: Keys(init)[i] == Keys(d)[i];
      NonEmptyEntriesKeys(init, k);
      assert Keys(d)[|d| - 1] != k;
      var r := NonEmptyEntries(d);
      assert forall j | 0 <= j < |NonEmptyEntries(init)| :: Keys(r)[j] == Keys(NonEmptyEntries(init))[j];
    }
  }

  /** Flattening a dictionary with distinct keys and grouping the pairs again
      gives back the dictionary, minus the keys whose list was empty. */
  lemma {:induction false} GroupFlatten<K, V>(d: Dict<K, seq<V>>)
    requires DistinctKeys(d)
    ensures Group(Flatten(d)) == NonEmptyEntries(d)
  {
    if d != [] {
      var init, last := d[..|d| - 1], d[|d| - 1];
      GroupFlatten(init);
      GroupIntoConcat([], Flatten(init), Pairs(last.0, last.1));
      assert forall i | 0 <= i < |init| :: Keys(init)[i] == d[i].0;
      NonEmptyEntriesKeys(init, last.0);
      GroupIntoFreshKey(NonEmptyEntries(init), last.0, last.1);
    }
  }

  /** Splitting "some element among the first `n`" into the first `n - 1` and
      the last one. */
  lemma {:induction false} ExistsUpTo<T>(xs: seq<T>, n: nat, p: T -> bool)
    requires 0 < n <= |xs|
    ensures (exists j | 0 <= j < n :: p(xs[j])) <==> (exists j | 0 <= j < n - 1 :: p(xs[j])) || p(xs[n - 1])
  {
  }

  /** The grouping loop as the source writes it: `if k not in d: d[k] = []`,
      then `d[k].append(v)`, for every pair in turn. */
  method GroupRows<K(==), V>(ps: seq<(K, V)>) returns (d: Dict<K, seq<V>>)
    ensures d == Group(ps)
  {
    d := [];
    for i := 0 to |ps|
      invariant d == Group(ps[..i])
    {
      assert ps[..i + 1][..i] == ps[..i];
      var (k, v) := ps[i];
      ghost var before := d;
      if !HasKey(d, k) {
        d := d + [(k, [])];
        GetLast(before, k, []);
        PutLast(before, k, [], [] + [v]);
        assert [] + [v] == [v];
      }
      d := Put(d, k, Get(d, k).value + [v]);
    }
    assert ps[..|ps|] == ps;
  }

  /** Every value listed under `k` comes from a pair `(k, v)`. */
  lemma {:induction false} ValuesOfFrom<K, V>(ps: seq<(K, V)>, k: K)
    ensures forall j | 0 <= j < |ValuesOf(ps, k)| :: exists i | 0 <= i < |ps| :: ps[i] == (k, ValuesOf(ps, k)[j])
  {
    if ps != [] {
      var init := ps[..|ps| - 1];
      ValuesOfFrom(init, k);
      var ws := ValuesOf(init, k);
      var vs := ValuesOf(ps, k);
      assert vs == if ps[|ps| - 1].0 == k then ws + [ps[|ps| - 1].1] else ws;
      forall j | 0 <= j < |vs|
        ensures exists i | 0 <= i < |ps| :: ps[i] == (k, vs[j])
      {
        if j < |ws| {
          assert vs[j] == ws[j];
          var i :| 0 <= i < |init| && init[i] == (k, ws[j]);
          assert ps[i] == init[i];
        } else {
          assert ps[|ps| - 1] == (k, vs[j]);
        }
      }
      assert forall j | 0 <= j < |vs| :: exists i | 0 <= i < |ps| :: ps[i] == (k, vs[j]);
    } else {
      assert ValuesOf(ps, k) == [];
    }
  }

  /** Every key of the grouping occurs in the pairs. */
  lemma {:induction false} GroupKeyFrom<K, V>(ps: seq<(K, V)>, k: K)
    requires HasKey(Group(ps), k)
    ensures exists i | 0 <= i < |ps| :: ps[i].0 == k
  {
    GroupGet(ps, k);
    ValuesOfFrom(ps, k);
    var i :| 0 <= i < |ps| && ps[i] == (k, ValuesOf(ps, k)[0]);
  }

  /** Values that are ordered among same-key pairs stay ordered in the list
      gathered for each key. */
  lemma {:induction false} ValuesOfOrdered<K, V>(ps: seq<(K, V)>, k: K, le: (V, V) -> bool)
    requires forall i, j | 0 <= i < j < |ps| && ps[i].0 == ps[j].0 :: le(ps[i].1, ps[j].1)
    ensures forall i, j | 0 <= i < j < |ValuesOf(ps, k)| :: le(ValuesOf(ps, k)[i], ValuesOf(ps, k)[j])
  {
    if ps != [] {
      var init, last := ps[..|ps| - 1], ps[|ps| - 1];
      assert forall i | 0 <= i < |init| :: init[i] == ps[i];
      ValuesOfOrdered(init, k, le);
      if last.0 == k {
        var ws := ValuesOf(init, k);
        ValuesOfFrom(init, k);
        forall i | 0 <= i < |ws|
          ensures le(ws[i], last.1)
        {
          var m :| 0 <= m < |init| && init[m] == (k, ws[i]);
          assert ps[m] == init[m];
        }
      }
    }
  }

  /** Pairs ordered by key group into a dictionary whose keys keep that order. */
  lemma {:induction false} GroupKeysOrdered<K, V>(ps: seq<(K, V)>, le: (K, K) -> bool)
    requires forall i, j | 0 <= i < j < |ps| :: le(ps[i].0, ps[j].0)
    ensures forall i, j | 0 <= i < j < |Group(ps)| :: le(Group(ps)[i].0, Group(ps)[j].0)
  {
    if ps != [] {
      var init, last := ps[..|ps| - 1], ps[|ps| - 1];
      assert forall i | 0 <= i < |init| :: init[i] == ps[i];
      GroupKeysOrdered(init, le);
      var g := Group(init);
      var r := Group(ps);
      match Get(g, last.0)
      case Some(vs) =>
        assert Keys(r) == Keys(g);
        assert forall i | 0 <= i < |r| :: r[i].0 == Keys(r)[i] == Keys(g)[i] == g[i].0;
      case None =>
        assert r == g + [(last.0, [last.1])];
        forall i | 0 <= i < |g|
          ensures le(g[i].0, last.0)
        {
          assert Keys(g)[i] == g[i].0;
          GroupKeyFrom(init, g[i].0);
          var m :| 0 <= m < |init| && init[m].0 == g[i].0;
        }
    }
  }

  lemma {:induction false} FlattenSnoc<K, V>(d: Dict<K, seq<V>>, k: K, vs: seq<V>)
    ensures Flatten(d + [(k, vs)]) == Flatten(d) + Pairs(k, vs)
  {
    assert (d + [(k, vs)])[..|d|] == d;
  }

  lemma {:induction false} FlattenCons<K, V>(k: K, vs: seq<V>, d: Dict<K, seq<V>>)
    ensures Flatten([(k, vs)] + d) == Pairs(k, vs) + Flatten(d)
    decreases |d|
  {
    if d != [] {
      var init := d[..|d| - 1];
      assert ([(k, vs)] + d)[..|d|] == [(k, vs)] + init;
      FlattenCons(k, vs, init);
    } else {
      assert [(k, vs)] + d == [] + [(k, vs)];
      FlattenSnoc([], k, vs);
    }
  }

  lemma {:induction false} FlattenPutHead<K, V>(k: K, vs: seq<V>, ws: seq<V>, rest: Dict<K, seq<V>>)
    ensures multiset(Flatten(Put([(k, vs)] + rest, k, ws))) + multiset(Pairs(k, vs))
            == multiset(Flatten([(k, vs)] + rest)) + multiset(Pairs(k, ws))
  {
    assert Put([(k, vs)] + rest, k, ws) == [(k, ws)] + rest;
    FlattenCons(k, ws, rest);
    FlattenCons(k, vs, rest);
  }

  lemma {:induction false} FlattenPutTail<K, V>(x: (K, seq<V>), rest: Dict<K, seq<V>>, k: K, vs: seq<V>, ws: seq<V>)
    requires x.0 != k
    requires multiset(Flatten(Put(rest, k, ws))) + multiset(Pairs(k, vs))
             == multiset(Flatten(rest)) + multiset(Pairs(k, ws))
    ensures multiset(Flatten(Put([x] + rest, k, ws))) + multiset(Pairs(k, vs))
            == multiset(Flatten([x] + rest)) + multiset(Pairs(k, ws))
  {
    var pr := Put(rest, k, ws);
    assert Put([x] + rest, k, ws) == [x] + pr;
    FlattenCons(x.0, x.1, pr);
    FlattenCons(x.0, x.1, rest);
    var px := multiset(Pairs(x.0, x.1));
    assert multiset(Flatten([x] + pr)) == px + multiset(Flatten(pr));
    assert multiset(Flatten([x] + rest)) == px + multiset(Flatten(rest));
    AddBoth(px, multiset(Flatten(pr)), multiset(Pairs(k, vs)), multiset(Flatten(rest)), multiset(Pairs(k, ws)));
  }

  lemma {:induction false} AddBoth<T>(a: multiset<T>, b: multiset<T>, c: multiset<T>, d: multiset<T>, e: multiset<T>)
    requires b + c == d + e
    ensures a + b + c == a + d + e
  {
    assert a + b + c == a + (b + c);
  }

  /** Replacing the list of a key swaps that key's pairs in the flattening. */
  lemma {:induction false} FlattenPut<K, V>(d: Dict<K, seq<V>>, k: K, vs: seq<V>, ws: seq<V>)
    requires Get(d, k) == Some(vs)
    ensures multiset(Flatten(Put(d, k, ws))) + multiset(Pairs(k, vs)) == multiset(Flatten(d)) + multiset(Pairs(k, ws))
  {
    assert d == [d[0]] + d[1..];
    if d[0].0 == k {
      FlattenPutHead(k, vs, ws, d[1..]);
    } else {
      FlattenPut(d[1..], k, vs, ws);
      FlattenPutTail(d[0], d[1..], k, vs, ws);
    }
  }

  lemma {:induction false} Cancel<T>(a: multiset<T>, b: multiset<T>, c: multiset<T>)
    requires a + c == b + c
    ensures a == b
  {
    assert forall x :: a[x] == (a + c)[x] - c[x];
  }

  /** One grouping step adds exactly its pair to the flattening. */
  lemma {:induction false} GroupAppendPermutes<K, V>(d: Dict<K, seq<V>>, k: K, v: V)
    ensures multiset(Flatten(GroupAppend(d, k, v))) == multiset(Flatten(d)) + multiset{(k, v)}
  {
    match Get(d, k)
    case None =>
      FlattenSnoc(d, k, [v]);
      assert Pairs(k, [v]) == [(k, v)];
    case Some(vs) =>
      FlattenPut(d, k, vs, vs + [v]);
      assert (vs + [v])[..|vs|] == vs;
      assert Pairs(k, vs + [v]) == Pairs(k, vs) + [(k, v)];
      var pv := multiset(Pairs(k, vs));
      Cancel(multiset(Flatten(GroupAppend(d, k, v))), multiset(Flatten(d)) + multiset{(k, v)}, pv);
  }

  /** Grouping loses and invents no pair: the flattened groups are a
      permutation of the pairs. */
  lemma {:induction false} GroupPermutes<K, V>(ps: seq<(K, V)>)
    ensures multiset(Flatten(Group(ps))) == multiset(ps)
  {
    if ps != [] {
      var init, last := ps[..|ps| - 1], ps[|ps| - 1];
      assert ps == init + [last];
      GroupPermutes(init);
      GroupAppendPermutes(Group(init), last.0, last.1);
    }
  }

  /** With distinct keys, each entry is what its key reads as. */
  lemma {:induction false} GetAt<K, V>(d: Dict<K, V>, i: nat)
    requires DistinctKeys(d) && i < |d|
    ensures Get(d, d[i].0) == Some(d[i].1)
  {
    if i > 0 {
      assert d[0].0 != d[i].0;
      GetAt(d[1..], i - 1);
    }
  }

  /** When no list is empty, dropping the empty ones changes nothing. */
  lemma {:induction false} NonEmptyEntriesAll<K, V>(d: Dict<K, seq<V>>)
    requires forall i | 0 <= i < |d| :: d[i].1 != []
    ensures NonEmptyEntries(d) == d
  {
    if d != [] {
      NonEmptyEntriesAll(d[..|d| - 1]);
    }
  }
}
