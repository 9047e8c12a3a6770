/**
 * The hyper-parameter grid of main.py: the optional removal of the
 * pretraining-epochs key, and the expansion of the grid into the list of
 * parameter dicts, one per point of the cartesian product of the value lists.
 */
module ParamGrid {
  import opened Wrappers
  import opened Dicts

  /** Each key of a grid is bound to the list of values to try. */
  type Grid<V> = Dict<seq<V>>

  datatype GridError =
    | MissingKey(key: string)   // `params_grid.pop(key)` on an absent key
    | EmptyGrid                 // `keys, values = zip(*{}.items())` has nothing to unpack

  /** The methods that pretrain, and so keep the pretraining-epochs dimension. */
  const PretrainingMethods: set<string> := {"code_adv", "adsn", "adae", "dsnw"}
  const PretrainKey: string := "pretrain_num_epochs"

  /** The value lists of a grid, in key order. */
  function ValueLists<V>(grid: Grid<V>): (vss: seq<seq<V>>)
    ensures |vss| == |grid|
    ensures forall i :: 0 <= i < |grid| ==> vss[i] == grid[i].1
  {
    if grid == [] then [] else [grid[0].1] + ValueLists(grid[1..])
  }

  /**
   * `a * n`, written as repeated addition so that proofs about positions in
   * a product only need linear arithmetic; `MulIsProduct` ties it to `*`.
   */
  function Mul(a: nat, n: nat): nat
  {
    if a == 0 then 0 else n + Mul(a - 1, n)
  }

  lemma {:induction false} MulIsProduct(a: nat, n: nat)
    ensures Mul(a, n) == a * n
  {
    if a > 0 {
      MulIsProduct(a - 1, n);
      assert a * n == (a - 1) * n + n;
    }
  }

  /** The product of the lengths of the value lists: the number of grid points. */
  function PointCount<V>(vss: seq<seq<V>>): nat
  {
    if vss == [] then 1 else Mul(|vss[0]|, PointCount(vss[1..]))
  }

  /** `[[h] + t for t in tails]`. */
  function Prepend<V>(h: V, tails: seq<seq<V>>): (r: seq<seq<V>>)
    ensures |r| == |tails|
    ensures forall j {:trigger r[j]} :: 0 <= j < |tails| ==> r[j] == [h] + tails[j]
  {
    if tails == [] then [] else [[h] + tails[0]] + Prepend(h, tails[1..])
  }

  /** `[[h] + t for h in heads for t in tails]`: the first position varies slowest. */
  function PrependEach<V>(heads: seq<V>, tails: seq<seq<V>>): (r: seq<seq<V>>)
    ensures |r| == Mul(|heads|, |tails|)
  {
    if heads == [] then [] else Prepend(heads[0], tails) + PrependEach(heads[1..], tails)
  }

  /** `list(itertools.product(*vss))`. */
  function Product<V>(vss: seq<seq<V>>): (r: seq<seq<V>>)
    ensures |r| == PointCount(vss)
    ensures forall t :: t in r ==> |t| == |vss| && forall i :: 0 <= i < |vss| ==> t[i] in vss[i]
  {
    if vss == [] then [[]]
    else
      var tails := Product(vss[1..]);
      PrependEachMembers(vss[0], tails, vss[1..]);
      PrependEach(vss[0], tails)
  }

  lemma {:induction false} PrependEachMembers<V>(heads: seq<V>, tails: seq<seq<V>>, rest: seq<seq<V>>)
    requires forall t :: t in tails ==> |t| == |rest| && forall i :: 0 <= i < |rest| ==> t[i] in rest[i]
    ensures forall t :: t in PrependEach(heads, tails) ==>
      |t| == |rest| + 1 && t[0] in heads && forall i :: 0 <= i < |rest| ==> t[i + 1] in rest[i]
  {
    if heads != [] {
      PrependEachMembers(heads[1..], tails, rest);
      forall t | t in Prepend(heads[0], tails)
        ensures |t| == |rest| + 1 && t[0] in heads && forall i :: 0 <= i < |rest| ==> t[i + 1] in rest[i]
      {
        var j :| 0 <= j < |tails| && Prepend(heads[0], tails)[j] == t;
        assert t == [heads[0]] + tails[j];
        assert tails[j] in tails;
      }
    }
  }

  /**
   * The order of `itertools.product`: the point at position `a * n + b`,
   * where `n` is the number of points of the remaining lists, is the `a`-th
   * value of the first list followed by the `b`-th point of the rest. So the
   * last list varies fastest.
   */
  lemma {:induction false} ProductOrder<V>(vss: seq<seq<V>>, a: nat, b: nat)
    requires vss != [] && a < |vss[0]| && b < PointCount(vss[1..])
    ensures Mul(a, PointCount(vss[1..])) + b < PointCount(vss)
    ensures Product(vss)[Mul(a, PointCount(vss[1..])) + b] == [vss[0][a]] + Product(vss[1..])[b]
  {
    var tails := Product(vss[1..]);
    assert Product(vss) == PrependEach(vss[0], tails);
    assert |tails| == PointCount(vss[1..]);
    PrependEachAt(vss[0], tails, a, b);
  }

  lemma {:induction false} PrependEachAt<V>(heads: seq<V>, tails: seq<seq<V>>, a: nat, b: nat)
    requires a < |heads| && b < |tails|
    ensures Mul(a, |tails|) + b < Mul(|heads|, |tails|)
    ensures PrependEach(heads, tails)[Mul(a, |tails|) + b] == [heads[a]] + tails[b]
  {
    if a == 0 {
      PrependEachFirst(heads, tails, b);
    } else {
      PrependEachAt(heads[1..], tails, a - 1, b);
      assert heads[1..][a - 1] == heads[a];
      PrependEachLater(heads, tails, Mul(a - 1, |tails|) + b);
    }
  }

  /** The first `|tails|` points start with the first head. */
  lemma PrependEachFirst<V>(heads: seq<V>, tails: seq<seq<V>>, b: nat)
    requires heads != [] && b < |tails|
    ensures b < Mul(|heads|, |tails|)
    ensures PrependEach(heads, tails)[b] == [heads[0]] + tails[b]
  {
    ConcatIndex(Prepend(heads[0], tails), PrependEach(heads[1..], tails), b);
  }

  /** After them come the points of the remaining heads. */
  lemma PrependEachLater<V>(heads: seq<V>, tails: seq<seq<V>>, i: nat)
    requires heads != [] && i < |PrependEach(heads[1..], tails)|
    ensures |tails| + i < |PrependEach(heads, tails)|
    ensures PrependEach(heads, tails)[|tails| + i] == PrependEach(heads[1..], tails)[i]
  {
    var first, rest := Prepend(heads[0], tails), PrependEach(heads[1..], tails);
    assert PrependEach(heads, tails) == first + rest;
    assert (first + rest)[|first| + i] == rest[i];
  }

  lemma ConcatIndex<T>(xs: seq<T>, ys: seq<T>, j: nat)
    requires j < |xs| + |ys|
    ensures (xs + ys)[j] == if j < |xs| then xs[j] else ys[j - |xs|]
  {
  }

  lemma ProductHas<V>(vss: seq<seq<V>>, a: nat, b: nat)
    requires vss != [] && a < |vss[0]| && b < PointCount(vss[1..])
    ensures [vss[0][a]] + Product(vss[1..])[b] in Product(vss)
  {
    ProductOrder(vss, a, b);
    var whole, j := Product(vss), Mul(a, PointCount(vss[1..])) + b;
    assert 0 <= j < |whole|;
    assert whole[j] == [vss[0][a]] + Product(vss[1..])[b];
  }

  /** Every combination of one value per list is a point of the product. */
  lemma {:induction false} ProductComplete<V>(vss: seq<seq<V>>, t: seq<V>)
    requires |t| == |vss| && forall i :: 0 <= i < |vss| ==> t[i] in vss[i]
    ensures t in Product(vss)
  {
    if vss == [] {
      assert t == [];
    } else {
      var rest, t' := vss[1..], t[1..];
      forall i | 0 <= i < |rest| ensures t'[i] in rest[i] {
        assert t'[i] == t[i + 1] && rest[i] == vss[i + 1];
      }
      ProductComplete(rest, t');
      var tails := Product(rest);
      var b :| 0 <= b < |tails| && tails[b] == t';
      var a :| 0 <= a < |vss[0]| && vss[0][a] == t[0];
      ProductHas(vss, a, b);
      assert [vss[0][a]] + tails[b] == t;
    }
  }

  /** `dict(zip(keys, values))`, for lists of equal length. */
  function ZipDict<V>(keys: seq<string>, values: seq<V>): (d: Dict<V>)
    requires |keys| == |values|
    ensures |d| == |keys|
    ensures forall i :: 0 <= i < |keys| ==> d[i] == (keys[i], values[i])
  {
    if keys == [] then [] else [(keys[0], values[0])] + ZipDict(keys[1..], values[1..])
  }

  /**
   * `[dict(zip(keys, v)) for v in itertools.product(*values)]` after
   * `keys, values = zip(*grid.items())`; the unpacking fails on an empty grid.
   */
  function ExpandGrid<V>(grid: Grid<V>): (r: Result<seq<Dict<V>>, GridError>)
    ensures r.Failure? <==> grid == []
    ensures r.Failure? ==> r.error == EmptyGrid
    // As many dicts as grid points, in product order.
    ensures r.Success? ==> |r.value| == PointCount(ValueLists(grid))
    ensures r.Success? ==> forall j :: 0 <= j < |r.value| ==>
      |Product(ValueLists(grid))[j]| == |grid| &&
      r.value[j] == ZipDict(Keys(grid), Product(ValueLists(grid))[j])
  {
    if grid == [] then Failure(EmptyGrid)
    else
      var keys, points := Keys(grid), Product(ValueLists(grid));
      assert forall j :: 0 <= j < |points| ==> |points[j]| == |keys| by {
        forall j | 0 <= j < |points| ensures |points[j]| == |keys| {
          assert points[j] in points;
        }
      }
      Success(seq(|points|, j requires 0 <= j < |points| => ZipDict(keys, points[j])))
  }

  /** Each generated dict has exactly the grid's keys, in the grid's order, each bound to one of its values. */
  lemma ExpandGridSound<V>(grid: Grid<V>, m: Dict<V>)
    requires grid != [] && m in ExpandGrid(grid).value
    ensures Keys(m) == Keys(grid)
    ensures forall i :: 0 <= i < |grid| ==> m[i].1 in grid[i].1
  {
    var ms, vss, keys := ExpandGrid(grid).value, ValueLists(grid), Keys(grid);
    var j :| 0 <= j < |ms| && ms[j] == m;
    var t := Product(vss)[j];
    assert t in Product(vss);
    ZipDictKeys(keys, t);
    forall i | 0 <= i < |grid| ensures m[i].1 in grid[i].1 {
      assert m[i].1 == t[i] && vss[i] == grid[i].1;
    }
  }

  lemma ZipDictKeys<V>(keys: seq<string>, values: seq<V>)
    requires |keys| == |values|
    ensures Keys(ZipDict(keys, values)) == keys
  {
    var d := ZipDict(keys, values);
    assert forall i :: 0 <= i < |keys| ==> Keys(d)[i] == keys[i];
  }

  /** Every assignment of one listed value to each grid key is generated. */
  lemma {:induction false} ExpandGridComplete<V>(grid: Grid<V>, m: Dict<V>)
    requires grid != []
    requires Keys(m) == Keys(grid) && forall i :: 0 <= i < |grid| ==> m[i].1 in grid[i].1
    ensures m in ExpandGrid(grid).value
  {
    var t := seq(|m|, i requires 0 <= i < |m| => m[i].1);
    var vss := ValueLists(grid);
    ProductComplete(vss, t);
    var points := Product(vss);
    var j :| 0 <= j < |points| && points[j] == t;
    assert ZipDict(Keys(grid), t) == m;
    assert ExpandGrid(grid).value[j] == m;
  }

  /** `params_grid.pop('pretrain_num_epochs')` unless the method pretrains. */
  function PruneGrid<V>(trainingMethod: string, grid: Grid<V>): (r: Result<Grid<V>, GridError>)
    ensures trainingMethod in PretrainingMethods ==> r == Success(grid)
    ensures trainingMethod !in PretrainingMethods ==> (r.Success? <==> PretrainKey in Keys(grid))
    ensures r.Failure? ==> r.error == MissingKey(PretrainKey)
    ensures r.Success? && trainingMethod !in PretrainingMethods ==>
      && PretrainKey !in Keys(r.value)
      && Keys(r.value) == Without(Keys(grid), {PretrainKey})
      && (Wf(grid) ==> |r.value| == |grid| - 1)
    ensures r.Success? ==> (Wf(grid) ==> Wf(r.value))
    ensures r.Success? ==> forall k :: k != PretrainKey ==> Get(r.value, k) == Get(grid, k)
  {
    if trainingMethod in PretrainingMethods then Success(grid)
    else if PretrainKey !in Keys(grid) then Failure(MissingKey(PretrainKey))
    else
      var pruned := DropKeys(grid, {PretrainKey});
      assert Wf(grid) ==> |pruned| == |grid| - 1 by {
        if Wf(grid) {
          WfKeys(grid);
          WithoutOne(Keys(grid), PretrainKey);
        }
      }
      assert Wf(grid) ==> Wf(pruned) by {
        if Wf(grid) {
          DropKeysWf(grid, {PretrainKey});
        }
      }
      Success(pruned)
  }

  /** Dropping a key that occurs once removes exactly one element. */
  lemma {:induction false} WithoutOne(ks: seq<string>, k: string)
    requires k in ks && Distinct(ks)
    ensures |Without(ks, {k})| == |ks| - 1
  {
    if ks[0] == k {
      WithoutAbsent(ks[1..], k);
    } else {
      assert Distinct(ks[1..]);
      WithoutOne(ks[1..], k);
    }
  }

  lemma {:induction false} WithoutAbsent(ks: seq<string>, k: string)
    requires k !in ks
    ensures Without(ks, {k}) == ks
  {
    if ks != [] {
      WithoutAbsent(ks[1..], k);
    }
  }

  /**
   * `update_params_dict_list` of main.py: prune, then expand. When the
   * method does not pretrain, the dicts are the expansion of the grid
   * without the pretraining epochs, so none of them mentions that key and
   * each has one key fewer than the grid.
   */
  function ParamDictList<V>(trainingMethod: string, grid: Grid<V>): (r: Result<seq<Dict<V>>, GridError>)
    ensures trainingMethod in PretrainingMethods ==> r == ExpandGrid(grid)
    ensures trainingMethod !in PretrainingMethods && PretrainKey !in Keys(grid) ==> r == Failure(MissingKey(PretrainKey))
    ensures r.Success? && trainingMethod !in PretrainingMethods ==>
      forall m :: m in r.value ==> PretrainKey !in Keys(m) && (Wf(grid) ==> |m| == |grid| - 1)
    ensures trainingMethod !in PretrainingMethods && PretrainKey in Keys(grid) ==>
      r == ExpandGrid(DropKeys(grid, {PretrainKey}))
  {
    var pruned :- PruneGrid(trainingMethod, grid);
    var r := ExpandGrid(pruned);
    assert r.Success? ==> forall m :: m in r.value ==> Keys(m) == Keys(pruned) by {
      if r.Success? {
        forall m | m in r.value ensures Keys(m) == Keys(pruned) {
          ExpandGridSound(pruned, m);
        }
      }
    }
    r
  }

  /** The grid main.py declares; each value is written as Python's `str` renders it. */
  const DefaultGrid: Grid<string> := [
    ("pretrain_num_epochs", ["500"]),
    ("train_num_epochs", ["2000"]),
    ("dop", ["0.1"]),
    ("inv_temp", ["0.1"])
  ]

  /** The keys of the declared grid, in declaration order. */
  const DefaultKeys: seq<string> := ["pretrain_num_epochs", "train_num_epochs", "dop", "inv_temp"]
  /** The single point of the declared grid. */
  const DefaultPoint: seq<string> := ["500", "2000", "0.1", "0.1"]

  lemma DefaultGridWf()
    ensures Wf(DefaultGrid)
  {
  }

  lemma DefaultGridKeys()
    ensures Keys(DefaultGrid) == DefaultKeys
  {
    var g, keys := DefaultGrid, Keys(DefaultGrid);
    assert |keys| == 4 && keys[0] == g[0].0 && keys[1] == g[1].0 && keys[2] == g[2].0 && keys[3] == g[3].0;
  }

  /** A grid with one value per key expands to the single dict binding each key to its value. */
  lemma SingleValueGrid<V>(grid: Grid<V>, point: seq<V>)
    requires grid != [] && |point| == |grid|
    requires forall i :: 0 <= i < |grid| ==> grid[i].1 == [point[i]]
    ensures ExpandGrid(grid) == Success([ZipDict(Keys(grid), point)])
  {
    var vss := ValueLists(grid);
    assert forall i :: 0 <= i < |vss| ==> vss[i] == [point[i]];
    SingletonProduct(vss, point);
    var points := Product(vss);
    assert |points| == 1 && points[0] == point;
    var r := ExpandGrid(grid);
    assert |r.value| == 1;
    assert r.value[0] == ZipDict(Keys(grid), point);
    assert r.value == [ZipDict(Keys(grid), point)];
  }

  /** The declared grid has one point, bound key by key. */
  lemma DefaultGridExpands()
    ensures Wf(DefaultGrid)
    ensures ExpandGrid(DefaultGrid) == Success([ZipDict(DefaultKeys, DefaultPoint)])
  {
    DefaultGridWf();
    DefaultGridKeys();
    var g := DefaultGrid;
    assert |g| == 4 && g[0].1 == [DefaultPoint[0]] && g[1].1 == [DefaultPoint[1]] && g[2].1 == [DefaultPoint[2]] && g[3].1 == [DefaultPoint[3]];
    SingleValueGrid(g, DefaultPoint);
  }

  lemma DefaultPointDict()
    ensures ZipDict(DefaultKeys, DefaultPoint) ==
      [("pretrain_num_epochs", "500"), ("train_num_epochs", "2000"), ("dop", "0.1"), ("inv_temp", "0.1")]
  {
    var m := ZipDict(DefaultKeys, DefaultPoint);
    assert |m| == 4 && m[0] == (DefaultKeys[0], DefaultPoint[0]) && m[1] == (DefaultKeys[1], DefaultPoint[1])
      && m[2] == (DefaultKeys[2], DefaultPoint[2]) && m[3] == (DefaultKeys[3], DefaultPoint[3]);
  }

  /** For a pretraining method the declared grid yields exactly one dict, with all four keys. */
  lemma DefaultGridPretraining()
    ensures ParamDictList("code_adv", DefaultGrid) == Success([[("pretrain_num_epochs", "500"), ("train_num_epochs", "2000"), ("dop", "0.1"), ("inv_temp", "0.1")]])
  {
    DefaultGridExpands();
    DefaultPointDict();
  }

  /** A grid with one value per key has exactly one point: those values. */
  lemma {:induction false} SingletonProduct<V>(vss: seq<seq<V>>, point: seq<V>)
    requires |point| == |vss| && forall i :: 0 <= i < |vss| ==> vss[i] == [point[i]]
    ensures Product(vss) == [point]
  {
    if vss != [] {
      var rest := vss[1..];
      assert forall i :: 0 <= i < |rest| ==> rest[i] == [point[1..][i]];
      SingletonProduct(rest, point[1..]);
      assert PrependEach(vss[0], [point[1..]]) == Prepend(point[0], [point[1..]]);
      assert [point[0]] + point[1..] == point;
    }
  }
}
