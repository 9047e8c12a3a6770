/**
 * Python dictionaries with string keys, as the configuration code uses them.
 * A dictionary is the sequence of its entries in insertion order; a well-formed
 * one (Wf) has no key twice, which is what every real dict satisfies.
 */
module Dicts {
  import opened Wrappers

  type Dict<V> = seq<(string, V)>

  /** The keys of `d`, in insertion order (`list(d.keys())`). */
  function Keys<V>(d: Dict<V>): (ks: seq<string>)
    ensures |ks| == |d|
    ensures forall i :: 0 <= i < |d| ==> ks[i] == d[i].0
  {
    if d == [] then [] else [d[0].0] + Keys(d[1..])
  }

  /** No key occurs twice. */
  predicate Wf<V>(d: Dict<V>)
  {
    forall i, j :: 0 <= i < j < |d| ==> d[i].0 != d[j].0
  }

  predicate Distinct(ks: seq<string>)
  {
    forall i, j :: 0 <= i < j < |ks| ==> ks[i] != ks[j]
  }

  /** The elements of `ks` that are not in `drop`, in their original order. */
  function Without(ks: seq<string>, drop: set<string>): (r: seq<string>)
    ensures forall k :: k in r <==> k in ks && k !in drop
    ensures |r| <= |ks|
    ensures Distinct(ks) ==> Distinct(r)
  {
    if ks == [] then []
    else if ks[0] in drop then Without(ks[1..], drop)
    else [ks[0]] + Without(ks[1..], drop)
  }

  /** `d.get(k)`: the value of the first entry with key `k`, if any. */
  function Get<V>(d: Dict<V>, k: string): (r: Option<V>)
    ensures r.Some? <==> k in Keys(d)
    ensures Wf(d) ==> forall i :: 0 <= i < |d| && d[i].0 == k ==> r == Some(d[i].1)
  {
    if d == [] then None
    else if d[0].0 == k then Some(d[0].1)
    else Get(d[1..], k)
  }

  /** `d[k] = v`: replaces the value of an existing key in its place, or appends a new entry. */
  function Set<V>(d: Dict<V>, k: string, v: V): (r: Dict<V>)
    ensures forall k' :: k' != k ==> Get(r, k') == Get(d, k')
    ensures Keys(r) == if k in Keys(d) then Keys(d) else Keys(d) + [k]
  {
    if d == [] then [(k, v)]
    else if d[0].0 == k then [(k, v)] + d[1..]
    else [d[0]] + Set(d[1..], k, v)
  }

  /** After `d[k] = v`, looking up `k` gives `v`. */
  lemma {:induction false} SetHits<V>(d: Dict<V>, k: string, v: V)
    ensures Get(Set(d, k, v), k) == Some(v)
  {
    if d != [] && d[0].0 != k {
      SetHits(d[1..], k, v);
      assert Set(d, k, v)[1..] == Set(d[1..], k, v);
    }
  }

  /** Setting a key never introduces a duplicate. */
  lemma SetWf<V>(d: Dict<V>, k: string, v: V)
    requires Wf(d)
    ensures Wf(Set(d, k, v))
  {
    var r := Set(d, k, v);
    forall i, j | 0 <= i < j < |r| ensures r[i].0 != r[j].0 {
      assert Keys(r)[i] == r[i].0 && Keys(r)[j] == r[j].0;
    }
  }

  /**
   * `d.update(other)`: the entries of `other` are written into `d` one after
   * another, so existing keys keep their place and take the new value, and
   * keys not yet in `d` are appended in the order of `other`.
   */
  function Update<V>(d: Dict<V>, other: Dict<V>): (r: Dict<V>)
    ensures forall k :: k in Keys(r) <==> k in Keys(d) || k in Keys(other)
    decreases |other|
  {
    if other == [] then d else Update(Set(d, other[0].0, other[0].1), other[1..])
  }

  /** A key that `other` does not mention keeps the value it had in `d`. */
  lemma {:induction false} UpdateKeeps<V>(d: Dict<V>, other: Dict<V>, k: string)
    requires k !in Keys(other)
    ensures Get(Update(d, other), k) == Get(d, k)
    decreases |other|
  {
    if other != [] {
      UpdateKeeps(Set(d, other[0].0, other[0].1), other[1..], k);
    }
  }

  /** Every key of `other` ends up with the value `other` gives it. */
  lemma {:induction false} UpdateOverrides<V>(d: Dict<V>, other: Dict<V>, k: string)
    requires Wf(other) && k in Keys(other)
    ensures Get(Update(d, other), k) == Get(other, k)
    decreases |other|
  {
    var d' := Set(d, other[0].0, other[0].1);
    TailWf(other);
    if other[0].0 == k {
      SetHits(d, k, other[0].1);
      assert k !in Keys(other[1..]);
      UpdateKeeps(d', other[1..], k);
    } else {
      UpdateOverrides(d', other[1..], k);
    }
  }

  /** Updating a well-formed dict keeps it well-formed. */
  lemma {:induction false} UpdateWf<V>(d: Dict<V>, other: Dict<V>)
    requires Wf(d)
    ensures Wf(Update(d, other))
    decreases |other|
  {
    if other != [] {
      SetWf(d, other[0].0, other[0].1);
      UpdateWf(Set(d, other[0].0, other[0].1), other[1..]);
    }
  }

  /** The elements of `ks` that do not occur in `existing`, in their original order. */
  function NewKeys(ks: seq<string>, existing: seq<string>): (r: seq<string>)
  {
    if ks == [] then []
    else if ks[0] in existing then NewKeys(ks[1..], existing)
    else [ks[0]] + NewKeys(ks[1..], existing)
  }

  /** The new keys are exactly the keys of `ks` not already present. */
  lemma {:induction false} NewKeysMembers(ks: seq<string>, existing: seq<string>, k: string)
    ensures k in NewKeys(ks, existing) <==> k in ks && k !in existing
  {
    if ks != [] {
      NewKeysMembers(ks[1..], existing, k);
      assert ks == [ks[0]] + ks[1..];
    }
  }

  /** Existing keys keep their positions; new keys follow in the order of `other`. */
  lemma {:induction false} UpdateKeyOrder<V>(d: Dict<V>, other: Dict<V>)
    requires Wf(other)
    ensures Keys(Update(d, other)) == Keys(d) + NewKeys(Keys(other), Keys(d))
    decreases |other|
  {
    if other != [] {
      var k, rest := other[0].0, other[1..];
      var d' := Set(d, k, other[0].1);
      TailWf(other);
      UpdateKeyOrder(d', rest);
      KeyOrderStep(Keys(d), Keys(d'), k, Keys(rest));
      assert Keys(other) == [k] + Keys(rest);
    }
  }

  /** One step of the key order of `update`: the first key of `other`, then the rest. */
  lemma KeyOrderStep(existing: seq<string>, existing': seq<string>, k: string, later: seq<string>)
    requires existing' == if k in existing then existing else existing + [k]
    requires k !in later
    ensures existing' + NewKeys(later, existing') == existing + NewKeys([k] + later, existing)
  {
    NewKeysCons(k, later, existing);
    if k !in existing {
      NewKeysIgnores(later, existing, k);
      ConcatAssoc(existing, [k], NewKeys(later, existing));
    }
  }

  lemma ConcatAssoc(a: seq<string>, b: seq<string>, c: seq<string>)
    ensures (a + b) + c == a + (b + c)
  {
  }

  lemma NewKeysCons(k: string, later: seq<string>, existing: seq<string>)
    ensures NewKeys([k] + later, existing) ==
      if k in existing then NewKeys(later, existing) else [k] + NewKeys(later, existing)
  {
    assert ([k] + later)[1..] == later;
  }

  /** Adding a key that does not occur in `ks` to `existing` changes nothing. */
  lemma {:induction false} NewKeysIgnores(ks: seq<string>, existing: seq<string>, k: string)
    requires k !in ks
    ensures NewKeys(ks, existing + [k]) == NewKeys(ks, existing)
  {
    if ks != [] {
      NewKeysIgnores(ks[1..], existing, k);
    }
  }

  lemma TailWf<V>(d: Dict<V>)
    requires Wf(d) && d != []
    ensures Wf(d[1..]) && d[0].0 !in Keys(d[1..])
  {
  }

  /** The dict comprehension `{k: v for k, v in d.items() if k not in drop}`. */
  function DropKeys<V>(d: Dict<V>, drop: set<string>): (r: Dict<V>)
    ensures forall k :: Get(r, k) == if k in drop then None else Get(d, k)
    ensures Keys(r) == Without(Keys(d), drop)
  {
    if d == [] then []
    else if d[0].0 in drop then DropKeys(d[1..], drop)
    else [d[0]] + DropKeys(d[1..], drop)
  }

  /** A dict is well-formed exactly when its key list has no repetition. */
  lemma WfKeys<V>(d: Dict<V>)
    ensures Wf(d) <==> Distinct(Keys(d))
  {
    var ks := Keys(d);
    assert forall i :: 0 <= i < |d| ==> ks[i] == d[i].0;
  }

  /** Dropping keys never introduces a duplicate. */
  lemma DropKeysWf<V>(d: Dict<V>, drop: set<string>)
    requires Wf(d)
    ensures Wf(DropKeys(d, drop))
  {
    WfKeys(d);
    WfKeys(DropKeys(d, drop));
  }
}
