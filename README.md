# DGSP-CDR driver core in Dafny

This project models the control logic of `main.py` in DGSP-CDR. That script
drives pretraining, fine-tuning and pseudo-label self-training of a drug
response predictor. Four parts are modelled.

- **Parameter plumbing** (`TrainingParams`, on top of `Dicts`):
  - `wrap_training_params` flattens the nested JSON training configuration for one training phase;
  - the grid point is written into the `unlabeled` section;
  - `dict_to_str` renders a parameter dict as a folder name.
- **Hyper-parameter grid** (`ParamGrid`):
  - the `pretrain_num_epochs` dimension is dropped for methods that do not pretrain;
  - the grid expands into one parameter dict per point of `itertools.product`, in product order.
- **Self-training rounds** (`SelfTraining`):
  - each budget starts from an empty merged set, and `N_rounds = 5` rounds are run;
  - each round asks `select_data` for samples that pass two class thresholds;
  - an empty answer skips the round. A non-empty one is gathered with `torch.index_select`, appended to the merged features and labels, advances `th_count`, and triggers a retraining on all merged data.
- **Python dicts** (`Dicts`) are modelled as insertion-ordered entry sequences:
  - `Get` is lookup;
  - `Set` is `d[k] = v`, which keeps the position of an existing key;
  - `Update` is `dict.update`;
  - `DropKeys` is the filtering comprehension.

  A well-formed dict (`Wf`) has no key twice.

Representation choices:

- **Thresholds** are integers in hundredths. `max(0.2, 0.4 - 0.01 * th_count)` becomes `max(20, 40 - th_count)`.
- **Budgets** are integers in percent.
- **`N_rounds`** is a parameter of the per-budget loop (`RunBudget`, `RunBudgets`); `RunSubsetSelection` passes the source's value, `NumRounds` = 5.
- **`merged_fet = None`** is the empty sequence. `torch.cat` onto it is sequence concatenation, so the first merge and later merges are one case.
- **`select_data`** is a parameter of the model: a function from the request (two thresholds and a budget) to the selected row indices and their labels.
- **A retraining** is recorded as a `Retraining(round, features, labels)` entry. This stands for the dataloader rebuild, the fine-tuning folds and the JSON dump of that round.
- **Failures** are modelled as `Result` values, not exceptions:
  - `KeyError` for a missing section;
  - `NotAMapping` for a section that is not an object. This covers `**` on such a section in `wrap_training_params` (a `TypeError` in Python) and `training_params['unlabeled'].update(...)` on a non-dict (an `AttributeError`);
  - `MissingKey` for `pop` on an absent key;
  - `EmptyGrid` because `zip(*{}.items())` has nothing to unpack;
  - `IndexOutOfRange` for `torch.index_select` with a row that does not exist.

One consequence is proved in `SelfTraining.RoundsStall`. This follows from
modelling `select_data` as a function of its arguments. An empty answer
leaves `th_count`, and so the thresholds, unchanged, so a round that selects
nothing is followed by rounds that also select nothing. Every later
retraining is then skipped for that budget.

## Model

| member | source | states |
|---|---|---|
| Dicts.Get | main.py:49 | The lookup finds a value exactly when the key is among the dict's keys. In a well-formed dict each entry's key yields that entry's value. |
| Dicts.Set | main.py:91 | `d[k] = v` changes no other key's value. The key list stays the same when `k` was present; otherwise `k` is appended. |
| Dicts.SetHits | main.py:91 | After `d[k] = v`, looking up `k` gives `v`. |
| Dicts.SetWf | main.py:91 | Setting a key keeps a dict well-formed. |
| Dicts.Update | main.py:49 | The keys of `d.update(other)` are exactly the keys of `d` together with those of `other`. |
| Dicts.UpdateKeeps | main.py:49 | A key that `other` does not mention keeps its value from `d`. |
| Dicts.UpdateOverrides | main.py:49 | Every key of a well-formed `other` ends up with `other`'s value. |
| Dicts.UpdateWf | main.py:49 | Updating a well-formed dict keeps it well-formed. |
| Dicts.UpdateKeyOrder | main.py:49 | The keys of `d` keep their positions. The new keys of `other` follow in `other`'s order. |
| Dicts.NewKeysMembers | main.py:49 | The appended keys are exactly the keys of `other` that `d` lacks. |
| Dicts.DropKeys | main.py:48 | The comprehension drops exactly the listed keys. Every other key keeps its value, and the remaining keys keep their order. |
| Dicts.DropKeysWf | main.py:48 | Dropping keys keeps a dict well-formed. |
| TrainingParams.Section | main.py:49 | `training_params[type]` succeeds exactly when the entry exists and is an object, and then returns that object's entries. A missing key is a `KeyError`; a present entry that is not an object is `NotAMapping`. |
| TrainingParams.WrapTrainingParams | main.py:47-50 | Succeeds exactly when the requested section exists and is an object. A missing section is a `KeyError`, and a present section that is not an object is `NotAMapping` (the `TypeError` of `**`). A key the section does not set keeps its top-level value, except that `unlabeled` and `labeled` are dropped. Each key of the section has the section's value. For well-formed inputs the result is well-formed. Its keys are then the kept top-level keys in order, followed by the section's new keys in order. |
| TrainingParams.ApplyGridPoint | main.py:91 | Writing the grid point into the `unlabeled` section succeeds exactly when that section is an object. Otherwise it fails with `KeyError` for a missing section or `NotAMapping` (the `AttributeError` of `.update`). The top-level keys and all other top-level entries are unchanged. The section becomes the old section updated with the point. |
| TrainingParams.GridPointReachesPretraining | main.py:91-126 | Three steps run in sequence: the point is written into `unlabeled`, top-level entries that name no phase section are added, and the pretraining parameters are flattened. After them, every key of the grid point is bound to its value, so the pretraining call receives the point. |
| TrainingParams.Join | main.py:61 | `"_".join(parts)` starts with the first part, and its length is the parts' total length plus one separator between each pair of neighbours. |
| TrainingParams.JoinNonEmpty | main.py:61 | When no part is empty, the join is empty exactly when there are no parts. |
| TrainingParams.JoinAppend | main.py:61 | Joining two non-empty lists one after the other gives their joins with one separator between them. |
| TrainingParams.DictToStr | main.py:60-61 | The folder name is empty exactly when the dict is empty. |
| TrainingParams.DictToStrSingle | main.py:60-61 | A one-entry dict renders as `k_str(v)`. |
| TrainingParams.DictToStrAppend | main.py:60-61 | The rendering is compositional: two non-empty dicts, one after the other, render as their two texts joined by `_`. |
| TrainingParams.DictToStrAmbiguous | main.py:60-61 | The rendering is not injective. `{"dop_0.1": "x"}` and `{"dop": "0.1_x"}` give the same folder name. |
| ParamGrid.MulIsProduct | main.py:332 | The repeated-addition product used for grid positions is integer multiplication. |
| ParamGrid.Product | main.py:332 | `itertools.product` yields exactly the product of the list lengths many points. Each point picks, for every list, one of that list's values. |
| ParamGrid.ProductOrder | main.py:332 | The order is lexicographic with the last list varying fastest. Point `a * n + b` is the `a`-th first value followed by the `b`-th point of the remaining lists, where `n` is the number of points of those lists. |
| ParamGrid.ProductComplete | main.py:332 | Every choice of one value per list is a point of the product. |
| ParamGrid.ZipDict | main.py:332 | `dict(zip(keys, v))` for equally long keys and values has one entry per key, binding the `i`-th key to the `i`-th value. |
| ParamGrid.ZipDictKeys | main.py:332 | The zipped dict's keys are `keys`, in order. |
| ParamGrid.ExpandGrid | main.py:331-332 | Fails exactly on an empty grid, an unpacking error. Otherwise there is one dict per grid point, in product order. Each dict zips the grid's keys with that point. |
| ParamGrid.ExpandGridSound | main.py:331-332 | Every generated dict has exactly the grid's keys in the grid's order. Each key is bound to one of its listed values. |
| ParamGrid.ExpandGridComplete | main.py:331-332 | Every such dict is generated. |
| ParamGrid.PruneGrid | main.py:328-329 | A pretraining method keeps the grid unchanged. Any other method succeeds exactly when `pretrain_num_epochs` is present. A missing key is a `MissingKey` error, Python's `KeyError`. On success the key is gone, the other keys keep their order and their value lists, a well-formed grid shrinks by one, and well-formedness is kept. |
| ParamGrid.ParamDictList | main.py:328-332 | A pretraining method expands the whole grid. For any other method a missing key fails; otherwise the result is the expansion of the grid with `pretrain_num_epochs` dropped, and no generated dict mentions the pretraining epochs. For a well-formed grid each generated dict then has one key fewer than the grid. |
| ParamGrid.SingleValueGrid | main.py:331-332 | A grid with one value per key expands to the single dict binding each key to its value. |
| ParamGrid.DefaultGridExpands | main.py:321-332 | The declared grid is well-formed and expands to exactly one dict. |
| ParamGrid.DefaultGridPretraining | main.py:321-332 | For `code_adv` the declared grid yields exactly one dict, with all four keys in declaration order. |
| SelfTraining.Class0Threshold | main.py:205 | The class-0 threshold lies between 0.20 and 0.40 and starts at 0.40. |
| SelfTraining.Class1Threshold | main.py:206 | The class-1 threshold lies between 0.60 and 0.80 and starts at 0.60. |
| SelfTraining.ThresholdsMonotone | main.py:205-206 | A larger `th_count` never raises the class-0 threshold and never lowers the class-1 one. |
| SelfTraining.ThresholdsSymmetric | main.py:205-206 | The two thresholds always add up to 1. |
| SelfTraining.ThresholdsUnclampedInRun | main.py:201-206 | Within the 5 rounds of a budget the clamps never bind. |
| SelfTraining.IndexSelect | main.py:217-218 | The gather succeeds exactly when every index names an existing row. The result is the indexed rows, in order. A failure names the first offending index. |
| SelfTraining.Round | main.py:205-228 | One pass of the loop body only appends. The merged features, labels and retrainings so far stay prefixes, and `th_count` and the number of retrainings advance together, by at most one. A failure is reported for this budget and this round. |
| SelfTraining.Rounds | main.py:199-228 | After `n` passes from nothing merged, `th_count` is at most `n` and there is one retraining per merge. A failed run names its own budget and one of the `n` rounds. |
| SelfTraining.RoundEffect | main.py:214-228 | An empty answer leaves the state unchanged. A successful non-empty one adds one to `th_count` and appends the selected rows and labels. It also records a retraining on all merged data. A round fails exactly when a non-empty answer names a missing row. |
| SelfTraining.RoundsDescribed | main.py:199-228 | After `n` rounds the count `th_count` is the number of leading non-empty answers, and the merged features and labels are exactly those answers' rows and labels, in order. When fewer than `n` rounds merged, the next answer is empty. There is one retraining per merge, the `k`-th on the data merged through answer `k`. |
| SelfTraining.RoundsFailOnlyOutOfRange | main.py:217-218 | If every answer names only existing rows, no round fails. |
| SelfTraining.RoundsFailurePersists | main.py:217-218 | A failed round ends the budget: later rounds keep the failure. |
| SelfTraining.RoundsStall | main.py:204-215 | Once a round selects nothing, the state stays as it is for every later round. |
| SelfTraining.RoundsGrow | main.py:204-228 | More rounds only extend the state. A success implies success for fewer rounds, `th_count` never decreases, and the thresholds only move away from one half. Earlier merged features, labels and retrainings are prefixes of later ones. |
| SelfTraining.MergedLengthsAgree | main.py:219-226 | If every answer has as many labels as indices, the merged features and labels have the same length. |
| SelfTraining.RunBudget | main.py:197-228 | The loop over `range(N_rounds)` with `continue` computes exactly the outcome of that many rounds. On success it satisfies the reference description, with `th_count` at most `N_rounds`. |
| SelfTraining.AllBudgets | main.py:196-228 | The list of budget outcomes succeeds exactly when every budget's run succeeds. It then has one entry per budget, each that budget's run from an empty state. A failure is the error of the first budget whose run fails. |
| SelfTraining.AllBudgetsDescribed | main.py:196-228 | Every successful budget's state satisfies the reference description. |
| SelfTraining.RunBudgets | main.py:196-228 | Running the budgets in order, each from a fresh state and stopping at the first failure, gives exactly the list of budget outcomes. Each entry satisfies the reference description. |
| SelfTraining.RunSubsetSelection | main.py:196-228 | The same for the seven budgets 0.1 to 1 of the source, with `N_rounds` = 5 rounds each. |

## Left out

- ParamGrid.ZipDict: requires keys and values of equal length and so does not model `zip`'s truncation of the longer one; at main.py:332 every point has exactly one value per key.
- Tensors, pandas frames, pickles, JSON files, logging, `argparse`, `set_seed` and directory creation are not modelled. They are I/O or third-party numerics. The model keeps only the values the controller computes from them.
- `select_data` and the model training calls (`train_fn`, `fine_tune_encoder_basis`) are foreign code. `select_data` is a parameter; each retraining is recorded rather than performed. The metric extraction and the per-round JSON dump are part of that record.
- SelfTraining.RunBudget: `select_data` is taken to depend only on its arguments. Hidden state, such as a random generator advanced between calls, is not modelled. The proved stalling after an empty round relies on this.
- SelfTraining.RunBudget: the encoder object `ft_encoder` is passed to every retraining of every budget and may be updated in place. That sharing across budgets is not modelled; each budget's runs are independent values.
- SelfTraining.MergedLengthsAgree: the source does not check that `associated_label` matches the selected rows in length. The model assumes it where the lemma needs it and otherwise concatenates whatever `select_data` returns.
- Thresholds and budgets are floating point in the source. The model uses exact hundredths and percent, so rounding in `0.4 - 0.01 * th_count` is not modelled.
- `torch.index_select` is modelled as plain row indexing. Negative indices are treated as out of range. Tensor dtypes and devices are not modelled.
- The drug loop and the fold loop that surround the rounds are not modelled, nor are the constants in `param_config`. They repeat or parameterise the modelled logic, and none of them changes it. The training function is fixed at main.py:87 for every method; `args.method` only names the output folders (main.py:97-99, 138) and decides the pruning (main.py:328), which `ParamGrid.PruneGrid` models.
- `str(v)` inside `dict_to_str` is a parameter `show`. Python's number formatting is not modelled.
- The top-level `training_params.update({...})` of main.py:101-110 is modelled as an arbitrary dict `extra` that names no phase section. Its concrete values (device, input dimension, folders) come from I/O.
- The `**` call-site unpacking of the flattened dict into keyword arguments is not modelled beyond the dict itself.
- ParamGrid.DefaultGridPretraining: the grid values are written as the strings Python's `str` gives them, not as numbers.
