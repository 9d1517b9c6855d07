# ECGModel in Dafny

A model of `ECGModel`, the in-memory model of a multi-lead ECG recording in
ECG-Viewer, with proofs about it. The model keeps the class's own form. Its
fields are `ignoredLeads`, `points`, `layout` (arrays), `dataOffset`,
`actualSize`, `sampleFreq` and `annotations`. Its methods update those fields,
step by step, as the Java does.

- `filters.dfy` (module `Filters`) holds the switch of `applyFilter`. It covers
  which filter number selects which kernel, and how the boxed `Number[]`
  parameters are unboxed, including the failures of that unboxing.
- `signals.dfy` (module `Signals`) holds one lead (an `ECGDataSet`) as a value:
  its samples, its bad flag and the filters applied to it. It also holds the
  median baseline correction of `readData`: sort, pick the median, subtract it.
- `layout.dfy` (module `Layout`) classifies layout entries as good or ignored.
  It also defines the slot lists, which say where each raw column lands, and
  the column series built from the rows.
- `ecg_model.dfy` (module `ECG`) holds the class `ECGModel` itself. Its methods
  are `readData`, `clear`, `clone`, `setBad`/`isBad`, `applyFilter`, the bad-lead
  list of `writeBadLeads`, `toArray` and the annotation operations.

The file plug-in that `readData` asks for a recording becomes a parameter. It
is a value `Option<Recording>`:
- `None` means no plug-in handles the extension;
- otherwise the value holds the status `read` returned, the rows it filled,
  the layout and the sample interval.

The filter kernels are numerics of `ECGDataSet`, and they are not part of this
model. They become a function parameter `kernel`. A filtered lead holds what
the kernel returns, and the call is appended to the lead's filter history.

What the code does, as proved:
- **Classification.** An entry is ignored when `x < 0 || y < 0`. The good and
  ignored counts add up to the layout's length. The new `layout` is the good
  entries, in their original order.
- **Offset.** The offset counts *every* ignored entry, because the `stop` flag
  is never raised.
- **Un-interleaving.** In the row loop, the slot expressions `j - igoff` and
  `j - normoff` always land in range. Each one names exactly the lead of
  column `j`. So good lead k ends up holding the k-th good column of every row,
  in row order, and the same holds for the ignored leads.
- **Baseline correction.** Every good lead has its median subtracted. For an
  even count, the "larger of the two middle values" is always the upper
  middle, so the median is `sorted[n/2]`. After the correction, the median is
  zero and a second correction changes nothing. Ignored leads are stored as
  read.
- **Clearing.** `clear` and the failed reads leave the model cleared. The
  channel count, the sample interval and the annotations are kept.
- **Cloning.** `clone` copies into fresh arrays. It does not copy the offset.
  It fails when there is no good lead, because it reads `layout[0]`.
- **Filters.** `applyFilter` returns without effect for filter numbers
  outside 0..7, whatever the index. It fails on a bad index or bad parameters
  in the order Java evaluates them. Otherwise it changes only the selected
  lead.
- **Bad leads.** `writeBadLeads` lists exactly the numbers i+4 of the bad
  leads i, in ascending order.

### Where the code and its documentation disagree

The comment on `getOffset` (ECGModel.java:427-432) calls the offset "the
number of leads before the data leads start". `readData` increments it for
every ignored entry (ECGModel.java:287-293): `stop` starts false and nothing
sets it. The model follows the code: after an import, `dataOffset ==
ignoredLeads.Length`.
- `Layout.LeadingIgnoredAtMostAll` proves that this count is at least the
  leading run. It is equal to the leading run exactly when no ignored entry
  follows a good one.
- `Layout.OffsetExample` gives a layout on which the two differ: the leading
  run is 2 and the code's offset is 3.

## Model

| member | source | states |
|---|---|---|
| ECG.ECGModel.constructor | ECGModel.java:40-47 | a new model has no leads and no layout entries, offset 0, 130 channels, sample frequency 0 and no annotations |
| ECG.ECGModel.Clear | ECGModel.java:82-87 | the three arrays become empty and the offset 0; the channel count, sample frequency and annotations are unchanged |
| ECG.ECGModel.ReadData | ECGModel.java:270-282 | the model is cleared first; an unsupported extension fails with the model cleared; a nonzero read status returns normally with the model cleared and nothing committed; a successful read leaves the `Imported` state |
| ECG.ECGModel.Import | ECGModel.java:283-351 | on a cleared model, commits the layout of good entries, the corrected good leads, the raw ignored leads, the offset, the channel count and the sample interval, and keeps the annotations |
| ECG.ECGModel.Build | ECGModel.java:283-351 | the arrays readData builds: the good entries in order, good lead k = column GoodCols[k] of all rows with its median subtracted, ignored lead k = column IgnoredCols[k] as read; the offset equals the number of ignored leads |
| ECG.ECGModel.Classify | ECGModel.java:284-298 | the good and ignored counts are the sizes of the two slot lists and add up to the layout length; `found` is the good entries in order; the offset equals the ignored count |
| ECG.ECGModel.Unweave | ECGModel.java:310-331 | after all rows, every good and every ignored lead holds its own column of every row, one sample per row, in row order |
| ECG.ECGModel.UnweaveRow | ECGModel.java:311-330 | one row extends every lead by exactly that row's sample of its own column |
| ECG.ECGModel.UnweaveColumn | ECGModel.java:313-329 | column j goes to slot `j - igoff` (ignored) or `j - normoff` (good); that slot is in range and is the slot of column j; the counters advance to the counts of the next prefix |
| ECG.ECGModel.Store | ECGModel.java:316-327 | on the first row the slot gets a new lead; the slot's lead gains the row's value of its column and no other slot changes |
| ECG.ECGModel.CorrectBaselines | ECGModel.java:333-351 | each lead's samples become `Corrected` of the old samples: the median of its values subtracted from every value, times, order, flag and history kept |
| ECG.ECGModel.Clone | ECGModel.java:54-77 | fails exactly when there is no layout entry; otherwise a fresh model with fresh arrays equal to the originals, equal annotations, channel count and sample frequency, and offset 0 |
| ECG.ECGModel.CopyArray | ECGModel.java:63-74 | the copy loops: a fresh array with the same elements |
| ECG.ECGModel.IsBad | ECGModel.java:405-407 | lead i's bad flag, the one `SetBad` sets |
| ECG.ECGModel.SetBad | ECGModel.java:395-397 | afterwards `IsBad(i)` is the given flag, lead i is otherwise unchanged, and no other lead changes |
| ECG.ECGModel.ApplyFilter | ECGModel.java:451-483 | a filter number outside 0..7 returns with nothing changed, even for a bad index; otherwise a bad index fails first, bad parameters fail next, and else only the indexed lead changes, to the kernel's output with the selected filter appended to its history |
| ECG.ECGModel.WriteBadLeads | ECGModel.java:232-236 | a number is listed iff it is i+4 for a lead i flagged bad; the list is strictly ascending |
| ECG.ECGModel.ToArray | ECGModel.java:139-150 | fails with an index error iff there is no lead or some lead is shorter than lead 0 (the error `Clone` reports for its `layout[0]`); otherwise one entry per lead holding the times and the values of its first `|points[0]|` samples |
| ECG.ECGModel.GetAnnotations | ECGModel.java:94-96 | the list holds exactly the annotations of the set, each once |
| ECG.ECGModel.AddAnnotation | ECGModel.java:104-106 | the set gains the annotation (type, time) |
| ECG.ECGModel.SetAnnotations | ECGModel.java:113-115 | the set holds exactly the listed annotations |
| ECG.ECGModel.ClearAnnotations | ECGModel.java:120-122 | the set becomes empty |
| ECG.ImportShape | ECGModel.java:288-331 | after an import `points.Length + ignoredLeads.Length == actualSize`, `layout.Length == points.Length`, and every lead has one sample per raw row |
| ECG.ImportedSamples | ECGModel.java:310-351 | after an import sample r of good lead k is row r's time and row r's value in the lead's column minus the column's median, and the lead's median is zero |
| ECG.CloneThenFlag | ECGModel.java:54-77 | a clone shares no storage: flagging a lead of the copy leaves the original's leads unchanged |
| ECG.FillSlot | ECGModel.java:316-327 | filling the next slot during a row keeps every filled slot at row i+1 and every pending slot at row i |
| Filters.Select | ECGModel.java:451-483 | numbers outside 0..7 select nothing; a selected filter has the kind of the number, takes exactly the leading parameters of the number's signature, receives the model's sample frequency for kind 7, and gets the constant 0 for kind 3 |
| Filters.SelectedIffFits | ECGModel.java:452-479 | for numbers 0..7, a filter is selected iff the parameters are long enough and each used box holds the type the cast needs; otherwise unboxing fails |
| Filters.SelectParamsOf | ECGModel.java:452-479 | every filter the switch can produce is selected back from its number and its boxed parameters |
| Filters.SelectIgnoresExtra | ECGModel.java:452-479 | parameters beyond the signature are never read |
| Signals.InsertSorts | ECGModel.java:339 | inserting into an ascending list keeps it ascending and adds exactly the element |
| Signals.SortSorts | ECGModel.java:339 | the sorted copy is ascending, of the same length, and a permutation of the values |
| Signals.AscendingUnique | ECGModel.java:339-346 | two ascending permutations of the same values are equal, so the median does not depend on the sorting algorithm |
| Signals.MedianIsUpperMiddle | ECGModel.java:340-346 | the even-count choice "larger of the two middle values" is always the upper middle: the median is position n/2 of any ascending arrangement of the values |
| Signals.SortShift | ECGModel.java:339-349 | sorting commutes with subtracting the same amount from every value |
| Signals.CorrectedMedianIsZero | ECGModel.java:333-351 | after the correction a lead's median is zero |
| Signals.CorrectedIdempotent | ECGModel.java:333-351 | correcting an already corrected lead changes nothing |
| Signals.EvenCountMedian | ECGModel.java:341-343 | for four ascending values the median is the third one, not the mean of the middle two |
| Signals.EvenCountExample | ECGModel.java:341-349 | the values 1, 2, 3, 4 are corrected to -2, -1, 0, 1 |
| Layout.Cols | ECGModel.java:288-298 | the slot list holds only columns of its class, below the prefix length |
| Layout.ColsComplete | ECGModel.java:288-298 | every column of the class is in its slot list |
| Layout.ColsAscending | ECGModel.java:296-297 | slot lists are strictly ascending, so `layout` keeps the original order of the good entries |
| Layout.PartitionSizes | ECGModel.java:288-298 | every column is good or ignored, never both: the two counts add up to the number of columns |
| Layout.ColsPrefix | ECGModel.java:313-330 | the slot list of a shorter prefix of the layout is a prefix of the full slot list |
| Layout.SlotOf | ECGModel.java:313-328 | column j's slot `j - igoff` (ignored) or `j - normoff` (good) is the count of earlier columns of its own class, is in range, and the slot list maps it back to j |
| Layout.Column | ECGModel.java:310-330 | a column series has one sample per row, holding the row's time and the row's value in that column |
| Layout.LeadingIgnored | ECGModel.java:427-432 | the documented offset: the length of the run of ignored entries before the first good one |
| Layout.LeadingIgnoredAtMostAll | ECGModel.java:287-293 | the code's offset (all ignored entries) is at least the documented one, and equal to it iff no ignored entry follows a good one |
| Layout.OffsetExample | ECGModel.java:287-293 | on the layout [ignored, ignored, good, ignored, good] the documented offset is 2 and the code's offset is 3 |

## Left out

- File reading is out of the model: the plug-in, `getECGFile` and `filePlugins.load()` (also run by the constructor and so by `clone`). The plug-in's result is a parameter of `ReadData`.
- The file writers are left out because they are I/O: `writeDataMat`, `writeDataCSV`, the subset writers, `writeAnnotations`, and the `PrintWriter` of `writeBadLeads`. `WriteBadLeads` returns the numbers it would print.
- `subsetToArray`, `readSubsetData` and the subset writers depend on `ECGDataSet.subset` and `indexBefore`, which are not part of this model.
- `isAnnotated` calls `HashSet.contains` with a `Double`, and its result depends on `Annotation.equals`, which is not part of this model. `printArrayList` is console output.
- The plain getters `getDataset`, `size`, `getSamplesPerSecond`, `getLayout` and `getOffset` only return a field, which the model exposes directly.
- The filter kernels are numerics of `ECGDataSet`, which are not part of this model. They are the `kernel` parameter. The model records each call, but nothing about the numerics.
- Values are `real`, not IEEE-754 doubles: rounding in the median subtraction is not modelled.
- An `ECGDataSet` is a value here. The model does not capture aliasing between leads, or the in-place update through `getAt(j)[1]`. The arrays holding the leads are real arrays, so `clone`'s fresh arrays and the copy's independence are modelled.
- Annotations are values in a `set`. Two equal annotations are one element, whereas a Java `HashSet` with identity equality could hold both. The iteration order of `getAnnotations` is left unspecified.
- ReadData: on the successful path it requires a value in every row for every layout entry, and at least one row unless the layout is empty. With no rows but some layout entry, Java leaves `null` leads, and it throws in the baseline loop when there is a good lead. With a short row, Java throws `IndexOutOfBoundsException` midway. Neither partial state is modelled.
- SetBad and IsBad require an index in range. Java throws `ArrayIndexOutOfBoundsException` otherwise, and that exception is not modelled.
- Clone: Java builds the copy before the failing `layout[0]`. That discarded partial copy is not modelled.
- Filters.Select: Java's checked casts of `Number[]` become two boxed kinds, `Integer` and `Double`. Other `Number` subclasses, and `null` entries or a `null` array, are not modelled.
