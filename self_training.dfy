/**
 * The pseudo-labelling rounds of main.py. For each budget the controller
 * starts from an empty pseudo-labelled set and runs a fixed number of
 * rounds; each round asks the selector for unlabelled samples whose
 * predicted confidence passes two class thresholds, and a non-empty answer
 * is appended to the merged set, moves both thresholds away from one half
 * for the next round
 * and triggers a retraining on everything merged so far.
 *
 * Thresholds are in hundredths and budgets in percent. The selector
 * (`select_data`) is a parameter: a function of the request it is given.
 */
module SelfTraining {
  import opened Wrappers

  /** `N_rounds`. */
  const NumRounds: nat := 5

  /** The budgets 0.1, 0.2, 0.4, 0.5, 0.6, 0.8 and 1, in percent. */
  const Budgets: seq<nat> := [10, 20, 40, 50, 60, 80, 100]

  /** `class_0_th = max(0.2, 0.4 - 0.01 * th_count)`, in hundredths. */
  function Class0Threshold(thCount: nat): (c: int)
    ensures 20 <= c <= 40
    ensures thCount == 0 ==> c == 40
  {
    if 40 - thCount < 20 then 20 else 40 - thCount
  }

  /** `class_1_th = min(0.8, 0.6 + 0.01 * th_count)`, in hundredths. */
  function Class1Threshold(thCount: nat): (c: int)
    ensures 60 <= c <= 80
    ensures thCount == 0 ==> c == 60
  {
    if 60 + thCount > 80 then 80 else 60 + thCount
  }

  /** Moving away from one half: a larger count never raises the class-0 threshold nor lowers the class-1 one. */
  lemma ThresholdsMonotone(j: nat, k: nat)
    requires j <= k
    ensures Class0Threshold(k) <= Class0Threshold(j)
    ensures Class1Threshold(j) <= Class1Threshold(k)
  {
  }

  /** The two thresholds stay symmetric about one half. */
  lemma ThresholdsSymmetric(k: nat)
    ensures Class0Threshold(k) + Class1Threshold(k) == 100
  {
  }

  /** Within the rounds of one budget the count stays below the clamp, so the bounds never bind. */
  lemma ThresholdsUnclampedInRun(k: nat)
    requires k < NumRounds
    ensures Class0Threshold(k) == 40 - k && Class1Threshold(k) == 60 + k
  {
  }

  /** The arguments of one `select_data` call besides the fixed prediction list. */
  datatype Request = Request(class0: int, class1: int, budget: nat)

  /** The answer of `select_data`: row indices into the unlabelled table and their pseudo-labels. */
  datatype Selection<L> = Selection(indices: seq<int>, labels: seq<L>)

  /** One retraining, on all the pseudo-labelled data merged up to round `round`. */
  datatype Retraining<R, L> = Retraining(round: nat, features: seq<R>, labels: seq<L>)

  /**
   * The controller's state for one budget: `th_count`, `merged_fet`,
   * `merged_labels`, and the retrainings started so far.
   */
  datatype Merged<R, L> = Merged(thCount: nat, features: seq<R>, labels: seq<L>, retrainings: seq<Retraining<R, L>>)

  /** `torch.index_select` on the row dimension raises for a row that does not exist. */
  datatype RunError = IndexOutOfRange(budget: nat, round: nat, index: int)

  predicate InRange<R, L>(rows: seq<R>, sel: Selection<L>)
  {
    forall i :: 0 <= i < |sel.indices| ==> 0 <= sel.indices[i] < |rows|
  }

  /** `torch.index_select(rows, 0, idx)`; a failure names the first offending index. */
  function IndexSelect<R>(rows: seq<R>, idx: seq<int>): (r: Result<seq<R>, int>)
    ensures r.Success? <==> forall i :: 0 <= i < |idx| ==> 0 <= idx[i] < |rows|
    ensures r.Success? ==> |r.value| == |idx| && forall i :: 0 <= i < |idx| ==> r.value[i] == rows[idx[i]]
    ensures r.Failure? ==> r.error in idx && !(0 <= r.error < |rows|)
    ensures r.Failure? ==> exists i :: 0 <= i < |idx| && idx[i] == r.error && forall j :: 0 <= j < i ==> 0 <= idx[j] < |rows|
  {
    if idx == [] then Success([])
    else if !(0 <= idx[0] < |rows|) then Failure(idx[0])
    else
      var rest :- IndexSelect(rows, idx[1..]);
      Success([rows[idx[0]]] + rest)
  }

  /** The request made when `thCount` selections have been merged. */
  function RequestAt(budget: nat, thCount: nat): Request
  {
    Request(Class0Threshold(thCount), Class1Threshold(thCount), budget)
  }

  /**
   * One round, numbered `round`, of the loop body. It only ever appends: the
   * merged data and the retrainings so far are kept as prefixes, and the count
   * and the number of retrainings advance together, by at most one. A failure
   * is reported for this budget and this round.
   */
  function Round<R, L>(rows: seq<R>, budget: nat, select: Request -> Selection<L>, s: Merged<R, L>, round: nat)
    : (r: Result<Merged<R, L>, RunError>)
    ensures r.Success? ==>
      && s.features <= r.value.features
      && s.labels <= r.value.labels
      && s.retrainings <= r.value.retrainings
      && r.value.thCount <= s.thCount + 1
      && r.value.thCount - s.thCount == |r.value.retrainings| - |s.retrainings|
    ensures r.Failure? ==> r.error.budget == budget && r.error.round == round
  {
    var sel := select(RequestAt(budget, s.thCount));
    if |sel.indices| == 0 then Success(s)
    else match IndexSelect(rows, sel.indices)
      case Failure(i) => Failure(IndexOutOfRange(budget, round, i))
      case Success(picked) =>
        var features, labels := s.features + picked, s.labels + sel.labels;
        Success(Merged(s.thCount + 1, features, labels, s.retrainings + [Retraining(round, features, labels)]))
  }

  /**
   * The state after the first `n` rounds of one budget, starting from nothing
   * merged: at most one merge per round and one retraining per merge. A
   * failure names this budget and one of the `n` rounds.
   */
  function Rounds<R, L>(rows: seq<R>, budget: nat, select: Request -> Selection<L>, n: nat)
    : (r: Result<Merged<R, L>, RunError>)
    ensures r.Success? ==> |r.value.retrainings| == r.value.thCount <= n
    ensures r.Failure? ==> r.error.budget == budget && r.error.round < n
  {
    if n == 0 then Success(Merged(0, [], [], []))
    else
      var s :- Rounds(rows, budget, select, n - 1);
      Round(rows, budget, select, s, n - 1)
  }

  /**
   * An empty selection skips the round: the count, the merged data and the
   * retrainings are as before. A non-empty one that succeeds advances the
   * count by one and extends the merged data by exactly what it selected.
   */
  lemma RoundEffect<R, L>(rows: seq<R>, budget: nat, select: Request -> Selection<L>, s: Merged<R, L>, round: nat)
    ensures var sel := select(RequestAt(budget, s.thCount));
      var r := Round(rows, budget, select, s, round);
      && (|sel.indices| == 0 ==> r == Success(s))
      && (|sel.indices| > 0 && r.Success? ==>
            && r.value.thCount == s.thCount + 1
            && r.value.features == s.features + IndexSelect(rows, sel.indices).value
            && r.value.labels == s.labels + sel.labels
            && r.value.retrainings == s.retrainings + [Retraining(round, r.value.features, r.value.labels)])
      && (r.Failure? <==> |sel.indices| > 0 && !InRange(rows, sel))
  {
  }

  // ---------------------------------------------------------------------
  // A reference description of a run, independent of the loop.
  // ---------------------------------------------------------------------

  /** What the selector answers once `k` selections have been merged. */
  function Answer<L>(budget: nat, select: Request -> Selection<L>, k: nat): Selection<L>
  {
    select(RequestAt(budget, k))
  }

  /** The first `m` answers are all non-empty and name existing rows. */
  predicate Usable<R, L>(rows: seq<R>, budget: nat, select: Request -> Selection<L>, m: nat)
  {
    forall k :: 0 <= k < m ==> |Answer(budget, select, k).indices| > 0 && InRange(rows, Answer(budget, select, k))
  }

  /** The rows picked by the first `m` answers, in order. */
  function PickedRows<R, L>(rows: seq<R>, budget: nat, select: Request -> Selection<L>, m: nat): seq<R>
    requires Usable(rows, budget, select, m)
  {
    if m == 0 then []
    else PickedRows(rows, budget, select, m - 1) + IndexSelect(rows, Answer(budget, select, m - 1).indices).value
  }

  /** The pseudo-labels of the first `m` answers, in order. */
  function PickedLabels<L>(budget: nat, select: Request -> Selection<L>, m: nat): seq<L>
  {
    if m == 0 then [] else PickedLabels(budget, select, m - 1) + Answer(budget, select, m - 1).labels
  }

  /**
   * The state a successful run of `n` rounds leaves: the count is the number
   * of leading non-empty answers (at most `n`), the merged data are exactly
   * those answers' rows and labels in order, and there was one retraining per
   * merged answer, in rounds 0, 1, ..., each on the data merged up to then.
   */
  ghost predicate Describes<R, L>(rows: seq<R>, budget: nat, select: Request -> Selection<L>, n: nat, s: Merged<R, L>)
  {
    && s.thCount <= n
    && Usable(rows, budget, select, s.thCount)
    && (s.thCount < n ==> |Answer(budget, select, s.thCount).indices| == 0)
    && s.features == PickedRows(rows, budget, select, s.thCount)
    && s.labels == PickedLabels(budget, select, s.thCount)
    && |s.retrainings| == s.thCount
    && forall k :: 0 <= k < s.thCount ==>
         s.retrainings[k] == Retraining(k, PickedRows(rows, budget, select, k + 1), PickedLabels(budget, select, k + 1))
  }

  /** A successful loop does what the reference description says. */
  lemma {:induction false} RoundsDescribed<R, L>(rows: seq<R>, budget: nat, select: Request -> Selection<L>, n: nat)
    requires Rounds(rows, budget, select, n).Success?
    ensures Describes(rows, budget, select, n, Rounds(rows, budget, select, n).value)
  {
    if n > 0 {
      var s := Rounds(rows, budget, select, n - 1).value;
      RoundsDescribed(rows, budget, select, n - 1);
      DescribesExtend(rows, budget, select, n - 1, s, Rounds(rows, budget, select, n).value);
    }
  }

  /** One more round keeps the reference description. */
  lemma DescribesExtend<R, L>(rows: seq<R>, budget: nat, select: Request -> Selection<L>, n: nat, s: Merged<R, L>, t: Merged<R, L>)
    requires Describes(rows, budget, select, n, s)
    requires Round(rows, budget, select, s, n) == Success(t)
    ensures Describes(rows, budget, select, n + 1, t)
  {
    var k := s.thCount;
    var sel := Answer(budget, select, k);
    if |sel.indices| != 0 {
      assert k == n;
      assert InRange(rows, sel);
      assert Usable(rows, budget, select, k + 1);
      assert t.features == PickedRows(rows, budget, select, k + 1);
      forall j | 0 <= j < k + 1
        ensures t.retrainings[j] == Retraining(j, PickedRows(rows, budget, select, j + 1), PickedLabels(budget, select, j + 1))
      {
        if j < k {
          assert t.retrainings[j] == s.retrainings[j];
        }
      }
    }
  }

  /** The loop fails only on an answer that names a row that does not exist. */
  lemma {:induction false} RoundsFailOnlyOutOfRange<R, L>(rows: seq<R>, budget: nat, select: Request -> Selection<L>, n: nat)
    requires forall k :: 0 <= k < n ==> InRange(rows, Answer(budget, select, k))
    ensures Rounds(rows, budget, select, n).Success?
  {
    if n > 0 {
      RoundsFailOnlyOutOfRange(rows, budget, select, n - 1);
      RoundsDescribed(rows, budget, select, n - 1);
      var s := Rounds(rows, budget, select, n - 1).value;
      assert InRange(rows, Answer(budget, select, s.thCount));
    }
  }

  /** A failed round ends the budget: the outcome after any later round is the same failure. */
  lemma {:induction false} RoundsFailurePersists<R, L>(rows: seq<R>, budget: nat, select: Request -> Selection<L>, n: nat, n': nat)
    requires n <= n'
    requires Rounds(rows, budget, select, n).Failure?
    ensures Rounds(rows, budget, select, n') == Rounds(rows, budget, select, n)
    decreases n' - n
  {
    if n < n' {
      RoundsFailurePersists(rows, budget, select, n + 1, n');
    }
  }

  /** Once a round comes back empty, the thresholds stay put and nothing more changes. */
  lemma {:induction false} RoundsStall<R, L>(rows: seq<R>, budget: nat, select: Request -> Selection<L>, n: nat, n': nat)
    requires n <= n'
    requires Rounds(rows, budget, select, n).Success?
    requires Rounds(rows, budget, select, n).value.thCount < n
    ensures Rounds(rows, budget, select, n') == Rounds(rows, budget, select, n)
    decreases n' - n
  {
    if n < n' {
      RoundsDescribed(rows, budget, select, n);
      assert Rounds(rows, budget, select, n + 1) == Rounds(rows, budget, select, n);
      RoundsStall(rows, budget, select, n + 1, n');
    }
  }

  /**
   * Over the rounds of one budget the count never decreases, so the class-0
   * threshold only falls and the class-1 threshold only rises, and the merged
   * data of an earlier round are a prefix of those of a later one.
   */
  lemma {:induction false} RoundsGrow<R, L>(rows: seq<R>, budget: nat, select: Request -> Selection<L>, n: nat, n': nat)
    requires n <= n'
    requires Rounds(rows, budget, select, n').Success?
    ensures Rounds(rows, budget, select, n).Success?
    ensures var s, t := Rounds(rows, budget, select, n).value, Rounds(rows, budget, select, n').value;
      && s.thCount <= t.thCount
      && Class0Threshold(t.thCount) <= Class0Threshold(s.thCount)
      && Class1Threshold(s.thCount) <= Class1Threshold(t.thCount)
      && s.features <= t.features
      && s.labels <= t.labels
      && s.retrainings <= t.retrainings
    decreases n' - n
  {
    if n < n' {
      RoundsGrow(rows, budget, select, n + 1, n');
      assert Rounds(rows, budget, select, n + 1).Success?;
      var s, t := Rounds(rows, budget, select, n).value, Rounds(rows, budget, select, n').value;
      ThresholdsMonotone(s.thCount, t.thCount);
    }
  }

  /**
   * When every answer pairs each index with one label, the merged features
   * and labels have the same length.
   */
  lemma {:induction false} MergedLengthsAgree<R, L>(rows: seq<R>, budget: nat, select: Request -> Selection<L>, n: nat)
    requires forall k :: 0 <= k < n ==> |Answer(budget, select, k).indices| == |Answer(budget, select, k).labels|
    requires Rounds(rows, budget, select, n).Success?
    ensures |Rounds(rows, budget, select, n).value.features| == |Rounds(rows, budget, select, n).value.labels|
  {
    if n > 0 {
      MergedLengthsAgree(rows, budget, select, n - 1);
      RoundsDescribed(rows, budget, select, n - 1);
      var s := Rounds(rows, budget, select, n - 1).value;
      var sel := Answer(budget, select, s.thCount);
      assert |sel.indices| == |sel.labels|;
    }
  }

  /**
   * The `rounds` rounds of one budget (the inner loop of main.py, where
   * `N_rounds` is `NumRounds`). The state is reset, and each round either
   * skips on an empty selection or merges it, counts it and retrains.
   */
  method RunBudget<R, L>(rows: seq<R>, budget: nat, select: Request -> Selection<L>, rounds: nat)
    returns (outcome: Result<Merged<R, L>, RunError>)
    ensures outcome == Rounds(rows, budget, select, rounds)
    ensures outcome.Success? ==> Describes(rows, budget, select, rounds, outcome.value)
    ensures outcome.Success? ==> outcome.value.thCount <= rounds
  {
    var thCount: nat := 0;
    var mergedFeatures: seq<R> := [];
    var mergedLabels: seq<L> := [];
    var retrainings: seq<Retraining<R, L>> := [];
    for roundIdx := 0 to rounds
      invariant Rounds(rows, budget, select, roundIdx) == Success(Merged(thCount, mergedFeatures, mergedLabels, retrainings))
    {
      var class0, class1 := Class0Threshold(thCount), Class1Threshold(thCount);
      var selection := select(Request(class0, class1, budget));
      if |selection.indices| == 0 {
        continue;
      }
      var picked := IndexSelect(rows, selection.indices);
      if picked.Failure? {
        outcome := Failure(IndexOutOfRange(budget, roundIdx, picked.error));
        RoundsFailurePersists(rows, budget, select, roundIdx + 1, rounds);
        return;
      }
      mergedFeatures := mergedFeatures + picked.value;
      mergedLabels := mergedLabels + selection.labels;
      thCount := thCount + 1;
      retrainings := retrainings + [Retraining(roundIdx, mergedFeatures, mergedLabels)];
    }
    outcome := Success(Merged(thCount, mergedFeatures, mergedLabels, retrainings));
    RoundsDescribed(rows, budget, select, rounds);
  }

  /** The outcomes of the budgets in `budgets`, each run from a fresh state; the first failure stops. */
  function AllBudgets<R, L>(rows: seq<R>, select: Request -> Selection<L>, budgets: seq<nat>, rounds: nat)
    : (r: Result<seq<Merged<R, L>>, RunError>)
    ensures r.Success? ==> |r.value| == |budgets|
    ensures r.Success? <==> forall i :: 0 <= i < |budgets| ==> Rounds(rows, budgets[i], select, rounds).Success?
    ensures r.Success? ==> forall i :: 0 <= i < |budgets| ==> r.value[i] == Rounds(rows, budgets[i], select, rounds).value
    // A failure is the error of the first budget whose run fails.
    ensures r.Failure? ==> exists i ::
      && 0 <= i < |budgets|
      && Rounds(rows, budgets[i], select, rounds) == Failure(r.error)
      && forall j :: 0 <= j < i ==> Rounds(rows, budgets[j], select, rounds).Success?
  {
    if budgets == [] then Success([])
    else
      var first :- Rounds(rows, budgets[0], select, rounds);
      var rest :- AllBudgets(rows, select, budgets[1..], rounds);
      Success([first] + rest)
  }

  /** `r` with `done` in front of its successful value. */
  function After<T, E>(done: seq<T>, r: Result<seq<T>, E>): Result<seq<T>, E>
  {
    match r
    case Success(rest) => Success(done + rest)
    case Failure(e) => Failure(e)
  }

  lemma AllBudgetsStep<R, L>(rows: seq<R>, select: Request -> Selection<L>, budgets: seq<nat>, rounds: nat, done: seq<Merged<R, L>>)
    requires budgets != []
    ensures var first := Rounds(rows, budgets[0], select, rounds);
      After(done, AllBudgets(rows, select, budgets, rounds)) ==
        if first.Failure? then Failure(first.error)
        else After(done + [first.value], AllBudgets(rows, select, budgets[1..], rounds))
  {
    var first := Rounds(rows, budgets[0], select, rounds);
    if first.Success? {
      match AllBudgets(rows, select, budgets[1..], rounds) {
        case Success(rest) => assert done + ([first.value] + rest) == done + [first.value] + rest;
        case Failure(_) =>
      }
    }
  }

  /** The loop over the budgets, one budget further. */
  lemma AllBudgetsAdvance<R, L>(rows: seq<R>, select: Request -> Selection<L>, budgets: seq<nat>, rounds: nat, b: nat, done: seq<Merged<R, L>>)
    requires b < |budgets|
    ensures var first := Rounds(rows, budgets[b], select, rounds);
      After(done, AllBudgets(rows, select, budgets[b..], rounds)) ==
        if first.Failure? then Failure(first.error)
        else After(done + [first.value], AllBudgets(rows, select, budgets[b + 1..], rounds))
  {
    AllBudgetsStep(rows, select, budgets[b..], rounds, done);
    assert budgets[b..][0] == budgets[b] && budgets[b..][1..] == budgets[b + 1..];
  }

  /** The budgets of `budgets`, in order, each run from an empty merged set by `RunBudget`. */
  method RunBudgets<R, L>(rows: seq<R>, select: Request -> Selection<L>, budgets: seq<nat>, rounds: nat)
    returns (outcome: Result<seq<Merged<R, L>>, RunError>)
    ensures outcome == AllBudgets(rows, select, budgets, rounds)
    ensures outcome.Success? ==> |outcome.value| == |budgets|
    ensures outcome.Success? ==>
      forall i :: 0 <= i < |budgets| ==> Describes(rows, budgets[i], select, rounds, outcome.value[i])
  {
    var results: seq<Merged<R, L>> := [];
    assert AllBudgets(rows, select, budgets, rounds) == After(results, AllBudgets(rows, select, budgets[0..], rounds)) by {
      assert budgets[0..] == budgets;
      match AllBudgets(rows, select, budgets, rounds) {
        case Success(rest) => assert [] + rest == rest;
        case Failure(_) =>
      }
    }
    for b := 0 to |budgets|
      invariant |results| == b
      invariant AllBudgets(rows, select, budgets, rounds) == After(results, AllBudgets(rows, select, budgets[b..], rounds))
    {
      var budgetOutcome := RunBudget(rows, budgets[b], select, rounds);
      assert After(results, AllBudgets(rows, select, budgets[b..], rounds)) ==
        if budgetOutcome.Failure? then Failure(budgetOutcome.error)
        else After(results + [budgetOutcome.value], AllBudgets(rows, select, budgets[b + 1..], rounds)) by {
        AllBudgetsAdvance(rows, select, budgets, rounds, b, results);
      }
      if budgetOutcome.Failure? {
        return Failure(budgetOutcome.error);
      }
      results := results + [budgetOutcome.value];
    }
    assert AllBudgets(rows, select, budgets, rounds) == Success(results) by {
      assert budgets[|budgets|..] == [] && results + [] == results;
    }
    outcome := Success(results);
    assert forall i :: 0 <= i < |budgets| ==> Describes(rows, budgets[i], select, rounds, results[i]) by {
      AllBudgetsDescribed(rows, select, budgets, rounds);
    }
  }

  /** Every successful budget's state is the one `Describes` gives. */
  lemma AllBudgetsDescribed<R, L>(rows: seq<R>, select: Request -> Selection<L>, budgets: seq<nat>, rounds: nat)
    ensures var r := AllBudgets(rows, select, budgets, rounds);
      r.Success? ==> forall i :: 0 <= i < |budgets| ==> Describes(rows, budgets[i], select, rounds, r.value[i])
  {
    var r := AllBudgets(rows, select, budgets, rounds);
    if r.Success? {
      forall i | 0 <= i < |budgets| ensures Describes(rows, budgets[i], select, rounds, r.value[i]) {
        RoundsDescribed(rows, budgets[i], select, rounds);
      }
    }
  }

  /**
   * The subset-selection phase for one drug: every budget of `Budgets`, in
   * order, each from an empty merged set and for `NumRounds` rounds.
   */
  method RunSubsetSelection<R, L>(rows: seq<R>, select: Request -> Selection<L>)
    returns (outcome: Result<seq<Merged<R, L>>, RunError>)
    ensures outcome == AllBudgets(rows, select, Budgets, NumRounds)
    ensures outcome.Success? ==> |outcome.value| == |Budgets|
    ensures outcome.Success? ==>
      forall i :: 0 <= i < |Budgets| ==> Describes(rows, Budgets[i], select, NumRounds, outcome.value[i])
  {
    outcome := RunBudgets(rows, select, Budgets, NumRounds);
  }
}
