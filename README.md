# MOROCCO core, modelled in Dafny

MOROCCO (MOdel ResOurCe COmparison) measures how fast and how large the
Russian SuperGLUE baselines are, and scores them. This project models the
parts of the repository that compute something:

- the benchmark runner's parsers of `nvidia-smi`, `ps` and `docker inspect`
  output, the pid discovery loop, the input cycling, the naming of runs and
  the per-task statistics (`bench/main.py`);
- the report script's leaderboard parser, metric scores, grid
  configuration choice, benchmark registry queries, per-run statistics and
  per-group medians (`main.py`);
- the perplexity baseline's batching, answer decisions and per-task
  labelling (`gpt2/rsg_funcs.py`);
- the jiant wrapper's target tasks, label renames and the four evaluation
  routes up to the metric call (`jiant/main.py`);
- the TF-IDF baseline's encoders, its inference and its similarity-based
  rucos and muserc answers (`tfidf/main.py`).

Every Python data structure is a value: a `dict` is a `Dict` (pairs in
insertion order, see `dicts.dfy`), a list a `seq`, a float a `real`, an
exception an `Err` of `Result`. The language model, the vectorizer and the
similarity function are parameters: a perplexity scorer and a
`(string, string) -> real` function. The outputs of the external commands
are parameters too, as text. Loops that the source writes as loops are
methods with loop invariants, proved equal to a recursive specification
function, and the properties are lemmas about those functions.

Modules:

| file | module | models |
|---|---|---|
| `wrappers.dfy` | `Wrappers` | `Option`, `Result`, and list comprehensions whose element function may raise |
| `text.dfy`, `numbers.dfy` | `Text`, `Numbers` | the `str` methods, `int`, `float`, `str(n)` and `os.path.join` the core uses |
| `dicts.dfy` | `Dicts` | insertion-ordered `dict` |
| `statistics.dfy` | `Statistics` | `max`, `statistics.median` |
| `tasks.dfy` | `Tasks` | `TASK_TITLES` |
| `bench_probe.dfy` | `BenchProbe` | probing a running container |
| `bench_runs.dfy` | `BenchRuns` | run names, inputs, bench paths and task statistics of the runner |
| `leaderboard.dfy` | `Leaderboard` | leaderboard, metrics, task paths and grid choice of the report |
| `registry.dfy` | `Registry` | the benchmark registry of the report |
| `bench_report.dfy` | `BenchReport` | run statistics and group medians of the report |
| `rsg_batching.dfy`, `ranking.dfy`, `tables.dfy` | `RsgBatching`, `Ranking`, `Tables` | shared machinery of the perplexity baseline |
| `rsg_pointwise.dfy`, `rsg_rwsd.dfy`, `rsg_rucos.dfy`, `rsg_muserc.dfy` | `RsgPointwise`, `RsgRwsd`, `RsgRucos`, `RsgMuserc` | its tasks |
| `rsg_batch_loss.dfy` | `RsgBatchLoss` | `calc_ppl_batch` as written, and what it does to danetqa (see Findings) |
| `jiant_labels.dfy`, `jiant_eval.dfy`, `jiant_rucos.dfy`, `jiant_lidirus.dfy` | `JiantLabels`, `JiantEval`, `JiantRucos`, `JiantLidirus` | the jiant wrapper |
| `tfidf.dfy` | `Tfidf` | the TF-IDF baseline |

## Model

| member | source | states |
|---|---|---|
| Tasks.TaskTitle | main.py:50-60 | the title of each of the nine tasks; any other name raises `KeyError` |
| Tasks.TaskTitleInjective | main.py:50-60 | different tasks have different titles |
| Statistics.MedianPermutation | main.py:1040-1042 | `statistics.median` does not depend on the order of the values |
| Statistics.MedianShift | main.py:1095-1104 | subtracting `c` from every value subtracts `c` from the median |
| Wrappers.MapAllMeaning | bench/main.py:625-641 | a list comprehension succeeds exactly when every element converts, entry `i` being element `i`'s; otherwise the first failure is raised |
| BenchProbe.ParseTsv | bench/main.py:168-170 | one row per line, each the fields between separators |
| BenchProbe.ParseTsvJoin | bench/main.py:168-170 | joining a row's fields with the separator gives its line back |
| BenchProbe.ParseTsvFields | bench/main.py:168-170 | no field of a row contains the separator |
| BenchProbe.UnitBytes | bench/main.py:303-311 | KiB, MiB and GiB are 1024, 1024² and 1024³ bytes; any other unit raises `KeyError` |
| BenchProbe.GpuRamOf | bench/main.py:314-318 | `n KiB`, `n MiB`, `n GiB` parse to `n` times the unit in bytes; another three-character unit raises `KeyError` |
| BenchProbe.UsageOf | bench/main.py:321-323 | `n %` parses to the fraction `n / 100` |
| BenchProbe.MibOf | bench/main.py:314-318 | a size printed in MiB reads as that many MiB in bytes |
| BenchProbe.GpuStatsOf | bench/main.py:326-333 | a well-formed row of the GPU query parses to its guid, total memory in bytes and the two usage fractions |
| BenchProbe.ProcessStatsOf | bench/main.py:336-342 | a well-formed row of the process query parses to its pid, guid and used memory in bytes |
| BenchProbe.NvidiaOutputOf | bench/main.py:345-349 | exactly the header line is dropped; each further line gives one record whose fields joined by `, ` are that line |
| BenchProbe.SearchMeaning | bench/main.py:352-375 | the search gives `None` exactly when every record parses and none has the key; otherwise the outcome of the first record that fails or has the key |
| BenchProbe.FirstRecord | bench/main.py:352-375 | the search loop returns what the search function specifies |
| BenchProbe.NvidiaGpuStats | bench/main.py:352-362 | the GPU lookup loop over the query output equals the lookup by guid |
| BenchProbe.NvidiaProcessStats | bench/main.py:365-375 | the process lookup loop over the query output equals the lookup by pid |
| BenchProbe.PsStatsOfWords | bench/main.py:257-278 | any output of two words that `float` and `int` read as `cpu` and `rss` gives the fraction `cpu / 100` and `rss` KiB in bytes |
| BenchProbe.PsStatsOf | bench/main.py:257-278 | a line `w.f rss` as `ps` prints it (such as `0.2  18988`) reads as the fraction `w.f / 100` and `rss` KiB in bytes |
| BenchProbe.DockerPid | bench/main.py:218-232 | blank output means no pid yet; otherwise it succeeds exactly when `int` reads the output, giving that integer, and fails only with `ValueError` |
| BenchProbe.DockerPidOf | bench/main.py:218-232 | a printed pid with surrounding whitespace reads back as that pid |
| BenchProbe.FirstFoundMeaning | bench/main.py:235-240 | the outcome of `retriable` is `None` exactly when every call finds nothing; otherwise it is the outcome of a call that every earlier call found nothing before |
| BenchProbe.Retriable | bench/main.py:235-240 | the loop returns the first outcome that is not `None`, a value or an exception, within `retries` calls, and `None` when there is none |
| BenchProbe.RequirePid | bench/main.py:479-481 | no pid and pid 0 both raise `RuntimeError`; any other pid is returned |
| BenchProbe.DiscoverPid | bench/main.py:479-481 | the first `docker inspect` output that is not blank decides: an unparsable one raises its `ValueError`, pid 0 `RuntimeError`, any other pid is returned; all blank raises `RuntimeError` |
| BenchProbe.ProbePidMeaning | bench/main.py:411-429 | the probe fails with `AttributeError` exactly when the process is on a GPU the GPU query does not list; CPU figures are present exactly when `ps` found the process, GPU figures exactly when the process query did |
| BenchRuns.GenNameMeaning | bench/main.py:436-443 | the run name is the image with every `/` made `_`, then `_` and at most five characters of the uid |
| BenchRuns.TaskPathOf | bench/main.py:394-402 | a known task other than lidirus has the path `dir/<title>/<split>.jsonl`; an unknown task raises `KeyError` |
| BenchRuns.LidirusPath | bench/main.py:394-402 | lidirus has a single file named after its title, whatever the split |
| BenchRuns.CycleMeaning | bench/main.py:405-408 | the input has exactly `size` lines, line `i` being line `i mod n` of the file; no lines give no input |
| BenchRuns.ParseBenchPathOf | bench/main.py:513-519 | the path a run is saved under parses back to its task, input size and batch size |
| BenchRuns.SplitNumbers | bench/main.py:513-519 | three digit runs joined by `_` split back into those runs |
| BenchRuns.RunStats | bench/main.py:625-641 | an empty run raises `ValueError`; otherwise the time from the first to the last record and the largest GPU RAM, a missing value counting as 0 |
| BenchRuns.AllStatsMeaning | bench/main.py:644-672 | the statistics of all runs succeed exactly when every run has records, entry `i` being run `i`'s |
| BenchRuns.TaskStatsErrors | bench/main.py:644-672 | mixed tasks, then a missing calibration run, then a missing workload run, each raise `ValueError` |
| BenchRuns.SummaryMeaning | bench/main.py:644-672 | the figures fail only on a workload run as long as the start-up time; each median lies between two of the values it is taken over |
| BenchRuns.TaskStatsOk | bench/main.py:644-672 | on success every run is of the reported task and the figures are those of the calibration and workload statistics |
| Leaderboard.ParseScoreOfWords | main.py:211-218 | a cell `a / b` whose halves hold no space and read as floats `x` and `y` reads as `(x, y)`; a cell `a` reads as `(x, None)` |
| Leaderboard.ParseScoreOfDecimals | main.py:211-218 | a decimal cell such as `0.301 / 0.441` reads as the pair of its values, a single decimal as that value with no second |
| Leaderboard.ParseScoreOf | main.py:211-218 | the same for whole-number cells |
| Leaderboard.RecordRowsMeaning | main.py:221-228 | a record gives one row per task column that has a score cell, naming its renamed model and holding that cell's score |
| Leaderboard.FindScore | main.py:231-234 | the score of the first row of the key and task, `None` when no row has both |
| Leaderboard.TableCell | main.py:221-234 | when no other record is renamed to the same model and no other column to the same task, the score found for the model of record `k` and the task of column `j` is that cell's score |
| Leaderboard.FindUnique | main.py:231-234 | a row that is the only one of its key and task is what the search finds |
| Leaderboard.MetricsScoreMeaning | main.py:250-271 | a task is scored exactly when it is known and the results hold its metrics: `ans_f1` then `em` for muserc, `f1` then `accuracy` for rcb, `f1` then `em` for rucos, `acc` for rwsd, `all_mcc` for lidirus, `accuracy` otherwise; the score holds their values |
| Leaderboard.ScoreValue | main.py:274-277 | the mean of the two metrics when the second is truthy, otherwise the first |
| Leaderboard.TaskPathOf | main.py:298-308 | the path is `dir/<access>/<title>/<file>.jsonl`, the test file being `test_with_answers` or, for public lidirus, the title |
| Leaderboard.ConfIndex | main.py:374 | exactly the ids of the configurations are keys, each mapping to a configuration of that id |
| Leaderboard.ConfIndexLast | main.py:374 | each id maps to the last configuration carrying it |
| Leaderboard.SelectTopConf | main.py:372-381 | the scan over the grid rows equals the specified choice |
| Leaderboard.TopConfMeaning | main.py:372-381 | the choice raises `KeyError` exactly on a row of an unknown configuration, is `None` exactly when no row is of the model and task, and otherwise is the earliest row with the strictly largest score value |
| Leaderboard.TopConfScore | main.py:372-387 | when no two rows share a configuration and task, the chosen configuration's score is found and no candidate's value exceeds it |
| Registry.DigitsThenOf | main.py:431-433 | a digit run followed by a separator not starting with a digit is read back whole |
| Registry.ParseRegistryNameSound | main.py:427-437 | a matched file name is three digit runs joined by `_` and followed by `.jl`, and the numbers are their values |
| Registry.ParseRegistryNameComplete | main.py:427-437 | every such name, with anything after it, is matched |
| Registry.ParseRegistryNameOf | main.py:455-456 | the file name of a record parses back to its input size, batch size and index |
| Registry.ShortIndexName | main.py:427-456 | a listed name with a one-digit index differs from the name the record's path renders |
| Registry.RegistryBenchPathOf | main.py:455-456 | the path is `dir/model/task/<name>`, and its file name parses back |
| Registry.Field | main.py:418-424 | the six fields of a record; any other name raises `AttributeError` |
| Registry.MatchRecordMeaning | main.py:440-446 | a record matches exactly when every keyword accepts it; otherwise the first keyword that does not gives `False` for a field and `AttributeError` otherwise |
| Registry.MatchModelTask | main.py:440-446 | a query by model and task selects exactly the records of that model and task |
| Registry.QueryRegistryMeaning | main.py:449-452 | the query succeeds exactly when no match raises, and then lists exactly the matching records in order |
| Registry.QueryAll | main.py:449-452 | a query without keywords lists every record |
| BenchReport.SafeMax | main.py:479-482 | `None` exactly for no values; otherwise a value no smaller than any other |
| BenchReport.MaxGpuRamMeaning | main.py:485-507 | the peak GPU RAM is `None` exactly when no record reports a value other than 0; otherwise it is a reported value and no smaller than any |
| BenchReport.BenchStatsOf | main.py:485-507 | an empty run raises `IndexError`; otherwise the wall time, the GPU time summed sample by sample and the peak GPU RAM |
| BenchReport.GpuTimeBounds | main.py:485-507 | with timestamps that never go back, the GPU time lies between 0 and the wall time |
| BenchReport.GpuTimeIdle | main.py:485-507 | a run whose GPU is never busy has no GPU time |
| BenchReport.GpuTimeBusy | main.py:485-507 | a run busy at every sample has all its wall time as GPU time |
| BenchReport.BenchGroupGpuRam | main.py:1040-1042 | `None` exactly for a group without runs; otherwise a value between two of the runs' GPU RAM |
| BenchReport.BenchGroupGpuRamOrder | main.py:1040-1042 | the median GPU RAM does not depend on the order of the runs |
| BenchReport.BenchGroupRpsMeaning | main.py:1095-1104 | `None` exactly when a list is empty; `ZeroDivisionError` exactly when the two medians agree; otherwise the input size over the median wall time less the median start-up time |
| RsgBatching.CleanNoGroup | gpt2/rsg_funcs.py:25-27 | text without a `(digits)` group is unchanged |
| RsgBatching.CleanRemovesGroup | gpt2/rsg_funcs.py:25-27 | a `(digits)` group is removed and the text around it kept |
| RsgBatching.CleanNotIdempotent | gpt2/rsg_funcs.py:25-27 | cleaning twice can remove more than cleaning once |
| RsgBatching.BatchesFlatten | gpt2/rsg_funcs.py:110-123 | batching keeps every entry, in order |
| RsgBatching.BatchesBounded | gpt2/rsg_funcs.py:110-123 | no batch exceeds the batch size, and every batch but the first is non-empty |
| RsgBatching.BatchesFull | gpt2/rsg_funcs.py:110-123 | every batch but the last is full |
| RsgBatching.GetItems | gpt2/rsg_funcs.py:110-123 | the `*_get_items` loop gives the batches of the enumerated items |
| Ranking.TopKSelects | gpt2/rsg_funcs.py:30-36 | the selected keys come in stable ascending order of score, are distinct, and precede every key left out |
| Ranking.TopKCount | gpt2/rsg_funcs.py:30-36 | `min(k, n)` keys are selected |
| Ranking.TopKHeadIsArgMin | gpt2/rsg_funcs.py:341-344 | the first selected key is the first one holding the minimum |
| Ranking.DecideBatch | gpt2/rsg_funcs.py:248-254 | two keys among more than three candidates, otherwise one |
| Ranking.DecideOne | gpt2/rsg_funcs.py:341-344 | one key for a non-empty table |
| RsgPointwise.FillEnumerated | gpt2/rsg_funcs.py:95-107 | answering the enumerated items in any batches answers each item by its own payload |
| RsgPointwise.AnswerAll | gpt2/rsg_funcs.py:126-130 | batching then answering labels every item by its own decision; with a per-phrase scorer the batch size does not change the answers |
| RsgPointwise.RcbGetAnswer | gpt2/rsg_funcs.py:95-130 | `neutral` exactly when the perplexity exceeds 20, `entailment` otherwise; an empty hypothesis raises `IndexError` |
| RsgPointwise.TerraGetAnswer | gpt2/rsg_funcs.py:374-408 | `entailment` exactly when the perplexity is below 22 |
| RsgPointwise.DanetqaGetAnswer | gpt2/rsg_funcs.py:133-169 | `true` exactly when " Да" is strictly less perplexing than " Нет" |
| RsgBatchLoss.RowLoss | gpt2/rsg_funcs.py:17-18 | a phrase's corrected loss is `nan` exactly when its mask after the first token is empty, and otherwise equals the batch loss `loss[0]` |
| RsgBatchLoss.ScaledSumIsProduct | gpt2/rsg_funcs.py:17-18 | the masked sum of a row is the row's token count times the batch loss |
| RsgBatchLoss.CalcPplBatch | gpt2/rsg_funcs.py:5-22 | as written, every phrase of more than one token gets the perplexity of the batch loss, whatever its own text |
| RsgBatchLoss.DanetqaBatchMatesAgree | gpt2/rsg_funcs.py:133-147 | as written, all questions of one danetqa batch get the same label |
| RsgBatchLoss.DanetqaLossDiscrepancy | gpt2/rsg_funcs.py:133-147 | two batched questions whose own perplexities favour " Да" and " Нет" get labels that differ from the per-phrase labels |
| RsgPointwise.RusseGetAnswer | gpt2/rsg_funcs.py:281-319 | `true` exactly when the "верно" phrase is the more perplexing |
| RsgPointwise.LidirusGetAnswer | gpt2/rsg_funcs.py:411-445 | `entailment` exactly when "follows" is strictly less perplexing than "does not follow" |
| RsgPointwise.ParusErrorIffInvalid | gpt2/rsg_funcs.py:172-193 | processing raises exactly when some item's connective is unknown or one of its choices is empty |
| RsgPointwise.ParusGetAnswer | gpt2/rsg_funcs.py:172-222 | label 1 exactly when the first choice is strictly more perplexing; otherwise the exception of the first phrase to fail, batch by batch and first choices before second choices |
| RsgRwsd.CollectSpans | gpt2/rsg_funcs.py:350-357 | the first loop scores every entry into the group of its text |
| RsgRwsd.WinnerIsFirstMinimum | gpt2/rsg_funcs.py:341-344 | a group member wins exactly when no member is less perplexing and no earlier member is as perplexing |
| RsgRwsd.WinnersOfGroup | gpt2/rsg_funcs.py:341-364 | the decision on an item's group picks the least perplexing, earliest item sharing its text |
| RsgRwsd.MarkAll | gpt2/rsg_funcs.py:359-362 | the second loop answers every item by whether it wins its group |
| RsgRwsd.RwsdGetAnswer | gpt2/rsg_funcs.py:322-371 | every item is `True` exactly when it is the least perplexing of the items sharing its text, the earliest on a tie |
| RsgRucos.RucosGetItems | gpt2/rsg_funcs.py:225-245 | the batches of entries and the zero table, or the `IndexError` of the first passage without a query |
| RsgRucos.OpenPassage | gpt2/rsg_funcs.py:235-243 | the entity loop of one passage appends that passage's entries to the batches and sets a zero for each of its entity texts |
| RsgRucos.RucosProcessItems | gpt2/rsg_funcs.py:257-271 | the scoring loop and the labelling loop equal their specification functions |
| RsgRucos.RucosGetAnswer | gpt2/rsg_funcs.py:274-278 | batching then processing gives the specified answers; with a per-phrase scorer they do not depend on the batch size |
| RsgRucos.TopOfFinal | gpt2/rsg_funcs.py:248-254 | a passage's decision is empty exactly when it has no entity, and otherwise starts with the winner |
| RsgRucos.RucosAnswersMeaning | gpt2/rsg_funcs.py:225-278 | with distinct passage ids, `IndexError` exactly when some passage has no entity; otherwise each passage is labelled with the text of its least perplexing entity |
| RsgMuserc.MusercGetItem | gpt2/rsg_funcs.py:58-82 | the batches of entries of a record and its zero table |
| RsgMuserc.MusercProcessItem | gpt2/rsg_funcs.py:39-55 | the scoring and labelling loops equal their specification functions |
| RsgMuserc.MusercGetAnswer | gpt2/rsg_funcs.py:85-92 | every record labelled, its passage text deleted; with a per-phrase scorer the batch size does not change the labels |
| RsgMuserc.MusercMeaning | gpt2/rsg_funcs.py:30-55 | with distinct ids, answer `j` is labelled 1 exactly when it is among the least perplexing answers of its question, two of them when it has more than three answers and one otherwise, ties going to the earlier |
| RsgMuserc.ExpectedSelects | gpt2/rsg_funcs.py:30-36 | exactly that many answers are labelled 1, each no more perplexing than any answer labelled 0 |
| Tables.OpenAllShape | gpt2/rsg_funcs.py:58-82 | opening every key of a table yields one entry per key, in order, each with its candidates at 0 |
| Tables.AssignBlocks | gpt2/rsg_funcs.py:42-45 | scoring blocks that each address their own key changes only that key's entry |
| Tables.DedupArgMin | gpt2/rsg_funcs.py:248-254 | the first minimum among distinct candidates is the candidate at the first minimum over all mentions |
| Tables.ScoreBatches | gpt2/rsg_funcs.py:260-263 | the scoring loop assigns each entry's perplexity into the table, in order |
| JiantLabels.StripShape | jiant/main.py:535-537 | what is dropped is non-word, and what is kept is empty or ends in a word character |
| JiantLabels.StripUnique | jiant/main.py:535-537 | a word-ended text followed by non-word characters loses exactly those characters |
| JiantLabels.StripIdempotent | jiant/main.py:535-537 | stripping twice is stripping once |
| JiantLabels.RenameMeaning | jiant/main.py:645-684 | booleans and the listed strings become class integers, other strings pass through, renaming twice is renaming once |
| JiantLabels.NumClasses | jiant/main.py:645-684 | three classes for rcb, two otherwise |
| JiantLabels.LidirusRename | jiant/main.py:597-642 | `entailment` and `not_entailment` become 1 and 0; any other label raises `KeyError` |
| JiantLabels.EvalRoute | jiant/main.py:687-695 | muserc, rucos and lidirus have their own route, every other task goes to `eval_other` |
| JiantLabels.TargetTasks | jiant/main.py:236-268 | terra trains with lidirus as a second target task; every other task alone |
| JiantLabels.BestModelOf | jiant/main.py:283-284 | every `model_<anything>.best.th` is a best model |
| JiantLabels.BestModelMiddle | jiant/main.py:283-284 | every best model is `model_<middle>.best.th` |
| JiantEval.CollectLastWins | jiant/main.py:645-684 | a key maps to the value of its last pair, and a key without a pair is absent |
| JiantEval.LookupMeaning | jiant/main.py:645-684 | the lookup succeeds exactly when every id is a key, and then finds each id's value |
| JiantEval.OneHotErrorMeaning | jiant/main.py:661-664 | `one_hot` of a label list succeeds exactly when it is non-empty and every label is a class below the count; a string raises `ValueError`, anything else `RuntimeError` |
| JiantEval.TensorErrorMeaning | jiant/main.py:672 | `torch.tensor` of a label list succeeds exactly when every label is a boolean or a 64-bit integer |
| JiantEval.EvalOther | jiant/main.py:645-684 | the loops, with the `one_hot` and `torch.tensor` checks, equal the specified batch |
| JiantEval.OtherLookup | jiant/main.py:666-671 | the join succeeds exactly when every prediction's idx is some target's, each then paired with the label of its last target |
| JiantEval.EvalOtherMeaning | jiant/main.py:645-684 | a renamed string prediction raises `ValueError`; otherwise an empty list or a prediction outside the classes `RuntimeError`; then an idx of no target `KeyError`; then a string gold label `ValueError`; success exactly when none occurs, prediction `i` then paired with the renamed label of the last target of its idx |
| JiantEval.EvalMuserc | jiant/main.py:502-532 | the loops, with the `one_hot` and `torch.tensor` checks, equal the specified batch |
| JiantEval.BinaryOneHot | jiant/main.py:511-514 | the predicted labels one-hot encode exactly when there is one and each is 0 or 1 |
| JiantEval.MusercLookup | jiant/main.py:516-521 | the join succeeds exactly when every predicted answer id is a target answer id, each then paired with the label of the last target answer of its id |
| JiantEval.EvalMusercMeaning | jiant/main.py:502-532 | no rows or a label other than 0 and 1 raises `RuntimeError`; then a predicted answer id that is no target answer id `KeyError`; success exactly when neither occurs and every gold label fits in 64 bits, each row then paired with the label of the last target answer of its id |
| JiantEval.AnswerRowsMembers | jiant/main.py:502-532 | a row is listed exactly when it is an answer of a question of a passage, with its label and enclosing ids |
| JiantRucos.PassageIdRoundTrip | jiant/main.py:540-580 | the number after `test-` reads back as the passage idx |
| JiantRucos.PassageIdInjective | jiant/main.py:540-580 | distinct passages get distinct ids |
| JiantRucos.EvalRucos | jiant/main.py:540-580 | the loops equal the specified batch |
| JiantRucos.PredictionOf | jiant/main.py:540-580 | a question's prediction is the stripped label of the last record with its idx |
| JiantRucos.EntityRowsMembers | jiant/main.py:540-580 | a row exists exactly for each entity of a question with a non-empty prediction, positive exactly when the entity is the prediction |
| JiantRucos.EntityRowsLogits | jiant/main.py:540-580 | every row is one-hot |
| JiantRucos.AnswerTableMeaning | jiant/main.py:540-580 | every question is in the answer table under its passage id and idx, and nothing else is |
| JiantLidirus.TagsMeaning | jiant/main.py:583-594 | a category's short name is a tag exactly when the category is present |
| JiantLidirus.TagsValues | jiant/main.py:583-594 | a present category also yields the tag `short__value` |
| JiantLidirus.AllTagsMeaning | jiant/main.py:597-642 | the mask keys are exactly the tags of the gold records |
| JiantLidirus.EvalLidirus | jiant/main.py:597-642 | the loops, with the `one_hot` check, equal the specified batch |
| JiantLidirus.LidirusLookup | jiant/main.py:613-622 | the join succeeds exactly when every prediction finds a gold record, the last whose idx reads as its idx |
| JiantLidirus.NoGold | jiant/main.py:613-622 | a prediction whose idx no gold idx reads as raises `KeyError` |
| JiantLidirus.EvalLidirusErrors | jiant/main.py:597-642 | an unknown generated label raises `KeyError` first, then no predictions `RuntimeError` in `one_hot`, then an unparsable gold idx `ValueError`, then an unknown prediction idx `KeyError`, then an unknown gold label `KeyError` |
| JiantLidirus.EvalLidirusOk | jiant/main.py:597-642 | the batch is built exactly when none of those errors occurs |
| JiantLidirus.EvalLidirusMatches | jiant/main.py:597-642 | prediction `i` is matched with the last gold record of its idx, both labels renamed, and each mask says whether that record carries the tag |
| Tfidf.TaskEncoder | tfidf/main.py:163-171 | the seven encoders; muserc, rucos and unknown tasks raise `KeyError` |
| Tfidf.EncodeMeaning | tfidf/main.py:101-160 | an encoder fails exactly on a missing field, keeps the label, and its text holds the words of its fields in order |
| Tfidf.ParusQuestionMeaning | tfidf/main.py:123-134 | parus asks for the cause exactly when the question is `cause` |
| Tfidf.EncodeItemsOk | tfidf/main.py:174-185 | encoding succeeds exactly when every record encodes |
| Tfidf.EncodeItemsValues | tfidf/main.py:174-185 | one entry per record, in record order |
| Tfidf.EncodeAll | tfidf/main.py:174-185 | the loop equals the specified lists |
| Tfidf.InferEncoded | tfidf/main.py:200-206 | prediction `i` carries the idx of record `i` and classifier output `i` |
| Tfidf.InferRucos | tfidf/main.py:216-286 | the loops equal the specified predictions |
| Tfidf.RucosPredictionMeaning | tfidf/main.py:216-286 | a passage fails exactly when it has a query and no entity; otherwise one pick per query, each the first entity of highest similarity |
| Tfidf.TopTwoSelects | tfidf/main.py:296-414 | the two selected positions are distinct and come after every other in stable ascending order of similarity |
| Tfidf.InferMuserc | tfidf/main.py:296-414 | the loops equal the specified predictions |
| Tfidf.QuestionPredictionMeaning | tfidf/main.py:296-414 | a question fails exactly when it has no answer; otherwise it keeps its idx and its answers' idx in order and labels each answer 0 or 1 |
| Tfidf.QuestionPredictionTop | tfidf/main.py:296-414 | of a question with answers, exactly `min(2, n)` answers are labelled 1 |
| Tfidf.QuestionPredictionOrder | tfidf/main.py:296-414 | of a question with answers, every answer labelled 1 is at least as similar to the passage as every answer labelled 0 |

## Left out

- Reading and writing files, running `docker`, `nvidia-smi` and `ps`, sleeping and logging: their outputs are parameters given as text.
- The filesystem walk of `list_bench_registry`, `load_registry_bench` and `load_group_benches`: they only read files; the file name pattern they use is modelled.
- The polling loop of `bench_docker` other than pid discovery: it depends on time and on a live process.
- `calc_ppl_batch`: the language model's perplexity is a parameter function, one score per phrase (the intended behaviour; see Findings for the code as written).
- RsgPointwise.AnswerAll: scores each phrase alone, whereas `calc_ppl_batch` as written gives every phrase of a batch the perplexity of the batch's mean loss, so in the code the answers depend on the batch size and on which items share a batch. The same holds for every `*GetAnswer` of `RsgPointwise` and `RsgRwsd`.
- RsgRucos.RucosGetAnswer: scores each entity query alone; `calc_ppl_batch` as written gives a whole batch one perplexity, so in the code the picked entity depends on the batch size.
- RsgMuserc.MusercGetAnswer: scores each answer phrase alone; `calc_ppl_batch` as written gives a whole batch one perplexity, so in the code the labels depend on the batch size.
- The TF-IDF vectorizer, the logistic regression and the similarity: parameters.
- Tfidf.InferRucos, Tfidf.InferMuserc, Tfidf.RucosPredictionMeaning, Tfidf.QuestionPredictionMeaning: the model supplies the similarity. `tfidf/main.py` calls `cosine_similarity` at lines 276 and 357 but never imports or defines it, so as written the first rucos query or muserc question raises `NameError`. The contracts describe the program with that import in place.
- jiant training and the metric objects: the model stops where `update_metrics` is called.
- `torch.tensor` on a list holding a string: modelled as `ValueError`; torch may raise `TypeError` instead when a number precedes the string. Its other failures are reduced to an integer beyond 64 bits (`RuntimeError`); `one_hot` to an empty list or a class out of range (`RuntimeError`).
- Text.SplitLines: splits on `\n` only, whereas `str.splitlines` also breaks on `\r`, `\r\n`, `\v`, `\f`, `\x1c`-`\x1e`, `\x85`, U+2028 and U+2029.
- Numbers.ParseFloat: does not accept exponents, `inf`, `nan` or `_` digit separators, which `float` does.
- Numbers.ParseInt: does not accept `_` digit separators, which `int` does (`int(" 1_000 ")` is 1000); none of the docker pids, ps figures or lidirus gold idx it reads contain one.
- RsgRucos.RucosQuery: replaces the placeholder with the entity text as is, whereas `re.sub` reads the entity as a template (backslash escapes are processed, and a bad escape raises `re.error`).
- Text.LowerChar: lowers ASCII and the Cyrillic capitals U+0400-U+042F only, whereas `str.lower` covers all of Unicode.
- Plotting, the `show_*` reports and `format_score`: presentation only.
- Floating point: every float is an exact `real`; `round(x, 4)` and float formatting are not modelled.
- `\d`, `\w` and whitespace cover ASCII and the Cyrillic letters, not all of Unicode.
- The `$` of `parse_bench_path` also matching before a final newline: paths hold no newline.
- `getattr` of attributes that are not fields (methods, dunder names): they raise `AttributeError` in the model.
- Sorting ties: `sorted` and `argsort` are modelled as stable; numpy's default `argsort` is not guaranteed stable.
- Generators that raise part way: the model gives the error and not the values produced before it.
- `gen_name`'s uid and `bench_group_rps`'s default input size are parameters.
- Error messages: an exception is modelled by its type.
- BenchProbe.GpuRamOf: states the parse for whole numbers only, not for every decimal form `float` accepts.

## Findings

| source | as written | input that shows it | evidently intended | confidence | as-written member | corrected member |
|---|---|---|---|---|---|---|
| gpt2/rsg_funcs.py:17-18 | `loss[0]` is the model's single mean loss over the whole padded batch, so every phrase of a batch gets the same perplexity | danetqa, batch size 2: one question whose " Да" phrase is the less perplexing alone, one whose " Нет" phrase is; both get the same label | each phrase scored by its own mean token loss | high; not executed | RsgBatchLoss.DanetqaLossDiscrepancy | RsgPointwise.DanetqaGetAnswer |
