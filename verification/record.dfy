/**
 * A JavaScript plain object as the application uses it: its own properties in
 * insertion order.  Assigning to an existing property replaces the value in
 * place; assigning a new one appends it.  Object spread (`{...a, ...b}`) and
 * `forEach` loops that assign keys are folds of that assignment.
 */
module Record {
  import opened Wrappers

  /** Own properties in enumeration order. */
  type Fields<V> = seq<(string, V)>

  /** The property names in enumeration order. */
  function Keys<V>(fs: Fields<V>): seq<string> {
    seq(|fs|, i requires 0 <= i < |fs| => fs[i].0)
  }

  /** The names of a non-empty object: the first one, then the others. */
  lemma KeysCons<V>(fs: Fields<V>)
    requires fs != []
    ensures Keys(fs) == [fs[0].0] + Keys(fs[1..])
  {
  }

  /** No property name appears twice, as in every real object. */
  predicate UniqueKeys<V>(fs: Fields<V>) {
    forall i, j :: 0 <= i < j < |fs| ==> fs[i].0 != fs[j].0
  }

  /** `o[k]`, with `None` for `undefined` (a missing property). */
  function Lookup<V>(fs: Fields<V>, k: string): (r: Option<V>)
    ensures r.None? <==> k !in Keys(fs)
    ensures r.Some? ==> (k, r.value) in fs
  {
    if fs == [] then None
    else
      KeysCons(fs);
      if fs[0].0 == k then Some(fs[0].1)
      else Lookup(fs[1..], k)
  }

  /** `o[k] = v`: an existing property keeps its position, a new one goes last. */
  function Put<V>(fs: Fields<V>, k: string, v: V): (r: Fields<V>)
    ensures Lookup(r, k) == Some(v)
    ensures forall k' :: k' != k ==> Lookup(r, k') == Lookup(fs, k')
    ensures Keys(r) == if k in Keys(fs) then Keys(fs) else Keys(fs) + [k]
  {
    if fs == [] then [(k, v)]
    else
      KeysCons(fs);
      if fs[0].0 == k then
        var r := [(k, v)] + fs[1..];
        assert r[1..] == fs[1..];
        assert forall i :: 0 <= i < |r| ==> Keys(r)[i] == Keys(fs)[i];
        r
      else
        var rest := Put(fs[1..], k, v);
        var r := [fs[0]] + rest;
        assert r[1..] == rest && r[0] == fs[0];
        KeysCons(r);
        assert k in Keys(fs) <==> k in Keys(fs[1..]);
        assert [fs[0].0] + (Keys(fs[1..]) + [k]) == ([fs[0].0] + Keys(fs[1..])) + [k];
        r
  }

  /** Assignment never introduces a duplicate property name. */
  lemma PutUnique<V>(fs: Fields<V>, k: string, v: V)
    ensures UniqueKeys(fs) ==> UniqueKeys(Put(fs, k, v))
  {
    var r := Put(fs, k, v);
    if UniqueKeys(fs) {
      var kr, kf := Keys(r), Keys(fs);
      forall i, j | 0 <= i < j < |r| ensures r[i].0 != r[j].0 {
        assert r[i].0 == kr[i] && r[j].0 == kr[j];
        assert kr[i] == kf[i] && fs[i].0 == kf[i];
        if j < |fs| {
          assert kr[j] == kf[j] && fs[j].0 == kf[j];
        } else {
          assert kr[j] == k && k !in kf;
        }
      }
    }
  }

  /** The value the LAST binding of `k` in `src` gives it, if any. */
  function LastBinding<V>(src: Fields<V>, k: string): Option<V> {
    if src == [] then None
    else if src[|src| - 1].0 == k then Some(src[|src| - 1].1)
    else LastBinding(src[..|src| - 1], k)
  }

  /** `Object.assign(fs, src)`, equivalently `{...fs, ...src}`: every pair of
      `src` is assigned in order, so later pairs win and the properties of
      `fs` keep their positions at the front. */
  function Assign<V>(fs: Fields<V>, src: Fields<V>): (r: Fields<V>)
    ensures forall k :: Lookup(r, k) == if LastBinding(src, k).Some? then LastBinding(src, k) else Lookup(fs, k)
    ensures |Keys(r)| >= |fs| && Keys(r)[..|fs|] == Keys(fs)
    ensures UniqueKeys(fs) ==> UniqueKeys(r)
  {
    if src == [] then fs
    else
      var prev := Assign(fs, src[..|src| - 1]);
      var r := Put(prev, src[|src| - 1].0, src[|src| - 1].1);
      assert Keys(r)[..|fs|] == Keys(prev)[..|fs|];
      PutUnique(prev, src[|src| - 1].0, src[|src| - 1].1);
      r
  }

  /** In an object with unique keys the first and the last binding agree. */
  lemma {:induction false} LastBindingUnique<V>(src: Fields<V>, k: string)
    requires UniqueKeys(src)
    ensures LastBinding(src, k) == Lookup(src, k)
  {
    if src != [] {
      var n := |src| - 1;
      var prefix := src[..n];
      assert UniqueKeys(prefix);
      LastBindingUnique(prefix, k);
      assert src == prefix + [src[n]];
      LookupAppend(prefix, src[n], k);
      if src[n].0 == k {
        assert k !in Keys(prefix);
      }
    }
  }

  /** Looking up in an object extended by one more pair. */
  lemma {:induction false} LookupAppend<V>(fs: Fields<V>, p: (string, V), k: string)
    ensures Lookup(fs + [p], k) ==
              if Lookup(fs, k).Some? then Lookup(fs, k)
              else if p.0 == k then Some(p.1) else None
  {
    if fs != [] {
      assert (fs + [p])[1..] == fs[1..] + [p];
      LookupAppend(fs[1..], p, k);
    }
  }

  /** Assigning a fresh key appends it: with unique keys, re-assigning the pairs
      of an object one by one onto the empty object rebuilds it exactly. */
  lemma {:induction false} PutFresh<V>(fs: Fields<V>, k: string, v: V)
    requires k !in Keys(fs)
    ensures Put(fs, k, v) == fs + [(k, v)]
  {
    if fs != [] {
      KeysCons(fs);
      assert fs[0].0 != k && k !in Keys(fs[1..]);
      PutFresh(fs[1..], k, v);
      AppendAssoc([fs[0]], fs[1..], [(k, v)]);
      assert [fs[0]] + fs[1..] == fs;
    }
  }

  lemma AppendAssoc<T>(a: seq<T>, b: seq<T>, c: seq<T>)
    ensures a + (b + c) == (a + b) + c
  {
  }
}
