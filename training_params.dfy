/**
 * The parameter plumbing of main.py: flattening the nested training
 * configuration for one training phase, writing a grid point into the
 * pretraining section, and rendering a parameter dict as a folder name.
 */
module TrainingParams {
  import opened Wrappers
  import opened Dicts

  /**
   * A value of the JSON training configuration. Only objects are looked
   * into; every other JSON value is an opaque atom.
   */
  datatype Param<A> = Atom(value: A) | Obj(fields: Dict<Param<A>>)

  datatype ParamError =
    | KeyError(key: string)      // the section is missing
    | NotAMapping(key: string)   // the section is not a JSON object

  /** The two per-phase sections of the configuration. */
  const PhaseKeys: set<string> := {"unlabeled", "labeled"}

  /** The section stored under `key`, or the error indexing it raises. */
  function Section<A>(params: Dict<Param<A>>, key: string): (r: Result<Dict<Param<A>>, ParamError>)
    ensures r.Success? <==> Get(params, key).Some? && Get(params, key).value.Obj?
    ensures key !in Keys(params) ==> r == Failure(KeyError(key))
    ensures key in Keys(params) && !Get(params, key).value.Obj? ==> r == Failure(NotAMapping(key))
    ensures r.Success? ==> r.value == Get(params, key).value.fields
  {
    match Get(params, key)
    case None => Failure(KeyError(key))
    case Some(p) => if p.Obj? then Success(p.fields) else Failure(NotAMapping(key))
  }

  /**
   * `wrap_training_params(training_params, type)`: every top-level entry
   * except the two phase sections, overlaid with the entries of section `kind`.
   */
  function WrapTrainingParams<A>(params: Dict<Param<A>>, kind: string): (r: Result<Dict<Param<A>>, ParamError>)
    // The call fails exactly when the section is missing or is not an object.
    ensures r.Success? <==> Section(params, kind).Success?
    ensures kind !in Keys(params) ==> r == Failure(KeyError(kind))
    // Otherwise the error is the one indexing the section raises (`NotAMapping` for `**` on a non-object).
    ensures r.Failure? ==> r.error == Section(params, kind).error
    // Flattened keys are kept: a key the section does not set keeps its top-level value,
    // except that the phase sections themselves are dropped.
    ensures r.Success? ==> var sub := Section(params, kind).value;
      forall k :: k !in Keys(sub) ==> Get(r.value, k) == if k in PhaseKeys then None else Get(params, k)
    // The section wins: each of its keys has the section's value.
    ensures r.Success? ==> var sub := Section(params, kind).value;
      Wf(sub) ==> forall k :: k in Keys(sub) ==> Get(r.value, k) == Get(sub, k)
    // The result is a dict again, and its keys are the kept top-level keys in their
    // order followed by the section's new keys in theirs.
    ensures r.Success? ==> var sub := Section(params, kind).value;
      Wf(params) && Wf(sub) ==>
        && Wf(r.value)
        && Keys(r.value) == Without(Keys(params), PhaseKeys) + NewKeys(Keys(sub), Without(Keys(params), PhaseKeys))
  {
    var sub :- Section(params, kind);
    var aux := DropKeys(params, PhaseKeys);
    WrapFacts(aux, sub);
    assert Wf(params) ==> Wf(aux) by {
      if Wf(params) {
        DropKeysWf(params, PhaseKeys);
      }
    }
    Success(Update(aux, sub))
  }

  lemma WrapFacts<A>(aux: Dict<Param<A>>, sub: Dict<Param<A>>)
    ensures forall k :: k !in Keys(sub) ==> Get(Update(aux, sub), k) == Get(aux, k)
    ensures Wf(sub) ==> forall k :: k in Keys(sub) ==> Get(Update(aux, sub), k) == Get(sub, k)
    ensures Wf(aux) ==> Wf(Update(aux, sub))
    ensures Wf(sub) ==> Keys(Update(aux, sub)) == Keys(aux) + NewKeys(Keys(sub), Keys(aux))
  {
    forall k | k !in Keys(sub) ensures Get(Update(aux, sub), k) == Get(aux, k) {
      UpdateKeeps(aux, sub, k);
    }
    if Wf(sub) {
      forall k | k in Keys(sub) ensures Get(Update(aux, sub), k) == Get(sub, k) {
        UpdateOverrides(aux, sub, k);
      }
      UpdateKeyOrder(aux, sub);
    }
    if Wf(aux) {
      UpdateWf(aux, sub);
    }
  }

  /** A grid point's values, as configuration atoms. */
  function Lift<A>(point: Dict<A>): (r: Dict<Param<A>>)
    ensures Keys(r) == Keys(point)
    ensures forall i :: 0 <= i < |point| ==> r[i] == (point[i].0, Atom(point[i].1))
  {
    if point == [] then [] else [(point[0].0, Atom(point[0].1))] + Lift(point[1..])
  }

  /**
   * `training_params['unlabeled'].update(update_params_dict)`: the grid point
   * is written into the pretraining section, which keeps its place.
   */
  function ApplyGridPoint<A>(params: Dict<Param<A>>, point: Dict<A>): (r: Result<Dict<Param<A>>, ParamError>)
    ensures r.Success? <==> Section(params, "unlabeled").Success?
    ensures r.Failure? ==> r.error == Section(params, "unlabeled").error
    ensures r.Success? ==> Keys(r.value) == Keys(params)
    ensures r.Success? ==> forall k :: k != "unlabeled" ==> Get(r.value, k) == Get(params, k)
    ensures r.Success? ==> Section(r.value, "unlabeled") == Success(Update(Section(params, "unlabeled").value, Lift(point)))
  {
    var sub :- Section(params, "unlabeled");
    SetHits(params, "unlabeled", Obj(Update(sub, Lift(point))));
    Success(Set(params, "unlabeled", Obj(Update(sub, Lift(point)))))
  }

  /**
   * The hyper-parameters of a grid point reach the pretraining call: after
   * the point is written into the pretraining section and further top-level
   * entries (`extra`, which never names a phase section) are merged in, the
   * flattened pretraining parameters bind every key of the point to its value.
   */
  lemma {:induction false} GridPointReachesPretraining<A>(params: Dict<Param<A>>, point: Dict<A>, extra: Dict<Param<A>>)
    requires Wf(point)
    requires Section(params, "unlabeled").Success? && Wf(Section(params, "unlabeled").value)
    requires "unlabeled" !in Keys(extra)
    ensures var applied := ApplyGridPoint(params, point).value;
      var r := WrapTrainingParams(Update(applied, extra), "unlabeled");
      && r.Success?
      && forall i :: 0 <= i < |point| ==> Get(r.value, point[i].0) == Some(Atom(point[i].1))
  {
    var section := Section(params, "unlabeled").value;
    var lifted := Lift(point);
    var sub := Update(section, lifted);
    var applied := ApplyGridPoint(params, point).value;
    assert applied == Set(params, "unlabeled", Obj(sub));
    SetHits(params, "unlabeled", Obj(sub));
    var merged := Update(applied, extra);
    UpdateKeeps(applied, extra, "unlabeled");
    assert Get(merged, "unlabeled") == Some(Obj(sub));
    assert Section(merged, "unlabeled") == Success(sub);
    UpdateWf(section, lifted);
    var r := WrapTrainingParams(merged, "unlabeled");
    assert r.Success?;
    assert Wf(lifted) by {
      assert forall i :: 0 <= i < |point| ==> lifted[i].0 == point[i].0;
    }
    forall i | 0 <= i < |point| ensures Get(r.value, point[i].0) == Some(Atom(point[i].1)) {
      var k := point[i].0;
      assert lifted[i] == (k, Atom(point[i].1));
      assert k in Keys(lifted);
      UpdateOverrides(section, lifted, k);
      assert Get(sub, k) == Some(Atom(point[i].1));
      assert k in Keys(sub);
    }
  }

  /** One entry of a parameter dict as text: `"_".join([k, str(v)])`. */
  function EntryText<V>(k: string, v: V, show: V -> string): string
  {
    k + "_" + show(v)
  }

  /** The summed length of `parts`. */
  function TotalLength(parts: seq<string>): nat
  {
    if parts == [] then 0 else |parts[0]| + TotalLength(parts[1..])
  }

  /** `sep.join(parts)`: every part once, with one separator between neighbours. */
  function Join(sep: string, parts: seq<string>): (s: string)
    ensures parts != [] ==> |s| == TotalLength(parts) + |sep| * (|parts| - 1)
    ensures parts != [] ==> parts[0] <= s
  {
    if parts == [] then ""
    else if |parts| == 1 then parts[0]
    else parts[0] + sep + Join(sep, parts[1..])
  }

  /** The rendered entries of `d`, in insertion order. */
  function EntryTexts<V>(d: Dict<V>, show: V -> string): (ts: seq<string>)
    ensures |ts| == |d|
    ensures forall i :: 0 <= i < |d| ==> ts[i] == EntryText(d[i].0, d[i].1, show)
  {
    if d == [] then [] else [EntryText(d[0].0, d[0].1, show)] + EntryTexts(d[1..], show)
  }

  /**
   * `dict_to_str(d)`: the `"_"`-join of `k_str(v)` over the entries, in
   * insertion order. `show` stands for Python's `str` on the values.
   */
  function DictToStr<V>(d: Dict<V>, show: V -> string): (s: string)
    ensures s == "" <==> d == []
  {
    var ts := EntryTexts(d, show);
    JoinNonEmpty("_", ts);
    Join("_", ts)
  }

  lemma {:induction false} JoinNonEmpty(sep: string, parts: seq<string>)
    requires forall i :: 0 <= i < |parts| ==> parts[i] != ""
    ensures Join(sep, parts) == "" <==> parts == []
  {
    if |parts| > 1 {
      JoinNonEmpty(sep, parts[1..]);
    }
  }

  /** Joining two non-empty lists is joining their joins. */
  lemma {:induction false} JoinAppend(sep: string, xs: seq<string>, ys: seq<string>)
    requires xs != [] && ys != []
    ensures Join(sep, xs + ys) == Join(sep, xs) + sep + Join(sep, ys)
  {
    if |xs| == 1 {
      assert (xs + ys)[1..] == ys;
    } else {
      assert (xs + ys)[1..] == xs[1..] + ys;
      JoinAppend(sep, xs[1..], ys);
    }
  }

  /**
   * The rendering is compositional: the text of two non-empty dicts written
   * one after the other is their texts joined by `_`.
   */
  lemma {:induction false} DictToStrAppend<V>(d1: Dict<V>, d2: Dict<V>, show: V -> string)
    requires d1 != [] && d2 != []
    ensures DictToStr(d1 + d2, show) == DictToStr(d1, show) + "_" + DictToStr(d2, show)
  {
    var t1, t2 := EntryTexts(d1, show), EntryTexts(d2, show);
    assert EntryTexts(d1 + d2, show) == t1 + t2;
    JoinAppend("_", t1, t2);
  }

  /** A one-entry dict renders as `k_str(v)`. */
  lemma DictToStrSingle<V>(k: string, v: V, show: V -> string)
    ensures DictToStr([(k, v)], show) == k + "_" + show(v)
  {
  }

  /**
   * Keys may themselves contain `_`, so the rendering does not determine the
   * dict: two different dicts can share a folder name.
   */
  lemma DictToStrAmbiguous()
    ensures var show := (s: string) => s;
      DictToStr([("dop_0.1", "x")], show) == DictToStr([("dop", "0.1_x")], show)
  {
  }
}
