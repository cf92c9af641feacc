# Log-of-Fire log aggregation, modelled in Dafny

Log-of-Fire downloads one day of web-server access logs per archive id. In a
single pass it adds up three statistics over every log line:

- how many lines come from each client platform (iPad, iPhone, Android, Windows);
- how many visits fall in each hour;
- how many visits fall on each day of January.

It then draws each statistic as an HTML chart. This project models the
aggregation pass of `main()` and the small pieces around it, and proves what
they compute:

- **Platforms** (`platforms.dfy`): the platform classifier. The labels are
  tried in the order iPad, iPhone, Android, Windows. The first label whose
  lower-case form occurs in the lower-cased line gains one count, and the
  search stops there.
- **Timestamps** (`timestamps.dfy`): the timestamp extractor. It finds the
  leftmost match of `\b\d{2}/[A-Za-z]{3}/\d{4}:\d{2}:\d{2}:\d{2}\b` in a line
  and reads the hour, month and day from it the way the code does: by
  splitting the matched text at `:` and at `/`.
- **Aggregation** (`aggregation.dfy`): the three tallies.
  - The platform tally has four fixed keys.
  - The hour tally creates each key on first sight.
  - The day tally starts with "01".."31" at zero and counts only lines whose
    month is exactly "Jan".
  - `Step`/`Fold` define the tallies after one line and after many lines.
    The `Aggregator` class updates its three maps in place, as `main()` does,
    and each of its methods is proved to follow `Step`.
- **Archives** (`archives.dfy`): the 65 archive ids built by three `append`
  loops.
- **PieChart** (`pie.dfy`): the platform percentages and the pie chart's data
  points. The points are sorted by value, largest first, with ties kept in
  dictionary order, and only the first point is exploded.
- **Text** (`text.dfy`) and **Wrappers** (`wrappers.dfy`): ASCII models of
  `str.lower()`, `in`, `str.split`, `int()`, `str()` and `str.zfill()`, and an
  `Option` type.

Log lines are ASCII `string`s ("decoded" already). Each archive is the
sequence of its lines.

Facts about the code that a reader might not expect, and what the model
does with them:

- **Hours:** the pattern accepts any two digits, so an hour is anything in
  0..99 (`FindTimestampSpec`).
- **Day keys:** any two-digit day of a January match is counted, e.g. "00" or
  "45". Such a key is added to the day tally on first sight (`KeysAfterLines`).
- **Target month:** the code fixes it to the constant `"Jan"` (`TargetMonth`).
- **Zero total:** when no line names a platform, the division at main.py:224
  raises `ZeroDivisionError`; `PieChart.Percentages` returns `None` there.

## Model

| member | source | states |
|---|---|---|
| Platforms.LabelOccurs | main.py:201 | the lowered label is a substring of the lowered line; the predicate that `FirstLabelSpec`, `FirstLabelFromSpec` and `IPadBeforeIPhone` are stated with |
| Platforms.FirstLabelFrom | main.py:200-203 | the loop from key i on: the label it stops at, if any, is at index i or later and below the number of labels; specified by `FirstLabelFromSpec` |
| Platforms.FirstLabel | main.py:200-203 | the classifier: the label chosen, if any, is an index into the labels; specified by `FirstLabelSpec` |
| Platforms.Credit | main.py:202 | `count_platforms[platform] += 1` for the chosen label, nothing when none is chosen; its effect is stated by `CountPlatformEffect` and `CreditTotal` |
| Platforms.CountPlatform | main.py:200-203 | one line's platform step, crediting the label `FirstLabel` chooses; see `CountPlatformEffect` and `IPadBeforeIPhone` |
| Platforms.FirstLabelSpec | main.py:200-203 | a line is attributed to a label that occurs in it, no earlier label occurs in it, and it is attributed to none exactly when no label occurs |
| Platforms.FirstLabelFromSpec | main.py:200-203 | the scan from position i stops at the first occurring label at or after i, or finds none when none occurs from i on |
| Platforms.CountPlatformEffect | main.py:200-203 | one line changes at most one platform counter, by exactly one, only that of the first occurring label, and never the key set |
| Platforms.IPadBeforeIPhone | main.py:200-203 | a line mentioning both "iPad" and "iPhone" (in any case) raises only the iPad counter |
| Platforms.CreditTotal | main.py:200-203 | crediting a label raises the sum of the counters by one; crediting none leaves it |
| Platforms.Total | main.py:224 | the sum of the labels' counters, which is `sum(count_platforms.values())` when the labels are the keys, each once; see `TotalIncrement`, `CreditTotal` and `InitialTotal` |
| Platforms.TotalIncrement | main.py:202 | raising one counter of distinct labels by one raises their sum by one |
| Platforms.LabelsDistinct | main.py:169-174 | the four platform keys are distinct |
| Text.Lower | main.py:201 | ASCII `str.lower()`, same length as its input; see `LowerSpec` |
| Text.Contains | main.py:201 | Python's substring test `in`; see `ContainsAt` |
| Text.DecimalValue | main.py:208 | `int()` of a decimal digit string; `NatToString` and `ZFillValue` state its round trips |
| Text.ZFill | main.py:184 | `zfill` of an unsigned digit string; see `ZFillValue` |
| Text.LowerSpec | main.py:201 | lowering maps each character on its own, leaves no upper-case letter, and is idempotent |
| Text.ContainsAt | main.py:201 | the substring test holds exactly when the needle occurs at some offset |
| Text.Split | main.py:208 | `split` yields at least one piece, no piece holds the separator, and joining the pieces with the separator gives the text back |
| Text.SplitFirst | main.py:208 | splitting at a first separator peels off the text before it |
| Text.NatToString | main.py:184 | `str(n)` is a non-empty digit string without leading zeros that `int()` reads back as n, one digit exactly when n < 10 |
| Text.ZFillValue | main.py:184 | `zfill` pads to the width with leading zeros and keeps the decimal value |
| Text.DigitRoundTrip | main.py:184 | a digit character and its value convert into each other, as `DayKeyOfValue` uses |
| Timestamps.MatchesAt | main.py:205 | the pattern with its two word boundaries matches at offset p; the predicate that `SearchSpec` and `FindTimestampSpec` are stated with |
| Timestamps.SearchFrom | main.py:206 | the scan from offset p returns an offset at or after p; specified by `SearchFromSpec` |
| Timestamps.Search | main.py:206 | `re.search`; specified by `SearchSpec` and `LeftmostUnique` |
| Timestamps.FindTimestamp | main.py:205-215 | the timestamp of a line read at its leftmost match; specified by `FindTimestampSpec` and `ReadGroup` |
| Timestamps.SearchFromSpec | main.py:205-206 | the scan from offset p returns a match, no offset before it from p on matches, and it returns none only when nothing from p on matches |
| Timestamps.SearchSpec | main.py:205-206 | `re.search` finds the leftmost match, and finds nothing only when the pattern matches at no offset |
| Timestamps.LeftmostUnique | main.py:206 | there is at most one leftmost match |
| Timestamps.Parse | main.py:208-215 | on a matched group, the split-based reading (`split(':')[1]` as hour, `split('/')[1]` as month, `split('/')[0]` as day) gives the fields at their fixed positions |
| Timestamps.ReadGroup | main.py:206-215 | the split-based reading of the group that the search finds is the timestamp of the line |
| Timestamps.FindTimestampSpec | main.py:205-215 | a line has no timestamp exactly when the pattern matches nowhere; otherwise the timestamp is read at the leftmost match, with a two-digit day, a three-letter month and an hour in 0..99 |
| Timestamps.ExampleLineFields | main.py:205-215 | in `[05/Mon/2024:13:02:11 +0000]`, for any three-letter month, the timestamp has day "05", that month and hour 13 |
| Timestamps.NoBoundaryNoMatch | main.py:205 | a date glued to a preceding letter is not a match, because `\b` fails |
| Aggregation.Bump | main.py:209-212 | `d[k] += 1` if the key is present, else `d[k] = 1`; specified by `BumpSpec` |
| Aggregation.CountHour | main.py:207-212 | the hour step of one line; see `HourOfLeftmostMatch` and `NoTimestampNoTimeChange` |
| Aggregation.CountDay | main.py:213-221 | the day step of one line, only for month "Jan"; see `DayOnlyForTargetMonth` and `LowerCaseMonthLine` |
| Aggregation.Step | main.py:200-221 | the three tallies after one line, keeping the platform keys exactly the four labels; see `StepWithTimestamp`, `JanuaryLine` and `FebruaryLine` |
| Aggregation.Fold | main.py:196-221 | the three tallies after many lines, keeping the platform keys exactly the four labels; see `FoldCounts`, `FoldKeys`, `InitialTotal` and `KeysAfterLines` |
| Aggregation.DayKey | main.py:184 | `str(day).zfill(2)`; see `DayKeyValue` and `DayKeyOfValue` |
| Aggregation.Initial | main.py:169-184 | the tallies before the first line, with the platform keys exactly the four labels; see `InitialDayKeysExactly` and `InitialDayTally` |
| Aggregation.BumpSpec | main.py:209-221 | `d[k] += 1` or `d[k] = 1` adds the key if absent, raises its counter by one, and leaves every other counter unchanged |
| Aggregation.Classify | main.py:200-206 | a line's platform, if any, is an index into the four labels |
| Aggregation.Apply | main.py:200-221 | one observation keeps the platform keys exactly the four labels |
| Aggregation.FoldPrefix | main.py:199 | folding one more line of an archive is one more step |
| Aggregation.FoldAppend | main.py:196-199 | folding the lines of two archives one after the other is folding their concatenation |
| Aggregation.FoldObsAppend | main.py:196-199 | folding a concatenation of observations is folding its halves in turn |
| Aggregation.DayKeyValue | main.py:184 | `str(day).zfill(2)` is two digits with value day, for day < 100 |
| Aggregation.DayKeyOfValue | main.py:184 | every two-digit text is the zero-padded key of its own value |
| Aggregation.InitialDayKeysExactly | main.py:183-184 | the initial day keys are exactly the two-digit texts whose value is 1..31 |
| Aggregation.InitialDayTally | main.py:181-184 | the loop builds the day tally with 31 keys, the two-digit texts of 1..31, all at zero |
| Aggregation.Aggregator.constructor | main.py:169-184 | the new tallies are the initial ones: four platforms at zero, no hours, days "01".."31" at zero |
| Aggregation.Aggregator.Ingest | main.py:200-221 | one line changes the three maps in place exactly as `Step` says, keeping the platform keys exactly the four labels |
| Aggregation.Aggregator.TallyPlatform | main.py:200-203 | the loop with `break` over the platform keys credits exactly the first label that occurs, and changes neither other tally |
| Aggregation.Aggregator.TallyTimestamp | main.py:205-221 | the hour and day tallies change as the leftmost timestamp of the line says, and the platform tally does not change |
| Aggregation.Aggregator.TallyHour | main.py:209-212 | the hour counter is raised or created at one, and the other tallies stay |
| Aggregation.Aggregator.TallyDay | main.py:218-221 | the day counter is raised or created at one, and the other tallies stay |
| Aggregation.IngestAll | main.py:199-221 | the per-line loop over one archive folds its lines into the tallies |
| Aggregation.Flatten | main.py:196-199 | all lines of all archives, archive after archive, in the order of the nested loops; the sequence `Run` is stated with |
| Aggregation.Run | main.py:169-221 | the whole pass over all archives yields the fold of all their lines, archive by archive, from the initial tallies |
| Aggregation.NoTimestampNoTimeChange | main.py:205-207 | a line where the pattern matches nowhere leaves the hour and day tallies unchanged, whatever its platform content |
| Aggregation.HourOfLeftmostMatch | main.py:206-212 | on a match, the hour of the leftmost match gains one (created at one), every other hour is unchanged, and that hour is the only key added |
| Aggregation.DayOnlyForTargetMonth | main.py:214-221 | the day tally changes exactly when the line's timestamp has month "Jan", and then only that day gains one |
| Aggregation.StepWithTimestamp | main.py:207-221 | on a timestamp, the hour is always bumped and the day only in the target month |
| Aggregation.JanuaryLine | main.py:205-221 | the line `[05/Jan/2024:13:02:11 +0000]` raises hour 13 and day "05" by exactly one |
| Aggregation.FebruaryLine | main.py:205-221 | the same line in February raises hour 13 and leaves the day tally as it is |
| Aggregation.LowerCaseMonthLine | main.py:217 | the month test is case-sensitive: month "jan" changes no day |
| Aggregation.MatchedCount | main.py:200-203 | the number of observations attributed to a label is at most their number |
| Aggregation.LabelledLines | main.py:200-203 | the number of lines some label occurs in is at most the number of lines |
| Aggregation.FoldTotal | main.py:200-203 | the platform sum grows by the number of observations attributed to a label |
| Aggregation.FoldCounts | main.py:200-221 | each counter ends at its start value plus the number of observations counting for it: by label, by hour, by January day |
| Aggregation.FoldKeys | main.py:209-221 | a key is present at the end exactly when it was at the start or some observation counted for it |
| Aggregation.CountsPositive | main.py:209-221 | a count is positive exactly when some observation has that hour, or that January day |
| Aggregation.MatchedCountIsLabelledLines | main.py:200-203 | a line is attributed to a label exactly when some label occurs in it |
| Aggregation.InitialMatchedTotal | main.py:169-203 | from the initial tallies, the platform sum is the number of lines attributed to a label |
| Aggregation.InitialTotal | main.py:169-203 | after any lines, the sum of the platform counts is the number of lines some label occurs in, so at most the number of lines |
| Aggregation.KeysAfterLines | main.py:169-221 | after any lines, the platform keys are exactly the four labels, the day keys are "01".."31" plus the days of January lines, and the hour keys are the hours of the lines with a timestamp |
| Aggregation.DayKeyOfLines | main.py:214-221 | some line counts for a day exactly when some line's timestamp is in January on that day |
| Aggregation.HourKeyOfLines | main.py:207-212 | some line counts for an hour exactly when some line's timestamp has that hour |
| Archives.ArchiveIds | main.py:188-194 | the three ranges of ids in order; see `ArchiveIndexes`, `ArchiveIdsIncreasing` and `ArchiveIdsAreCoveredDays` |
| Archives.Range | main.py:189-193 | `range(lo, hi)` holds hi - lo consecutive integers from lo |
| Archives.AppendRange | main.py:189-194 | appending every element of a range extends the list by exactly that range |
| Archives.ArchiveIndexes | main.py:188-194 | the id list is 130101..130131, then 130201..130228, then 130301..130306: 65 ids, strictly increasing |
| Archives.ArchiveIdsIncreasing | main.py:188-194 | the id list is strictly increasing |
| Archives.ArchiveIdsAreCoveredDays | main.py:188-194 | an id is in the list exactly when, read as `13MMDD`, it is a day of January, of February, or one of the first six days of March |
| PieChart.Insert | main.py:30 | one insertion step of the stable descending sort: one key longer, starting with the new key or the old first key; see `InsertSorted`, `InsertPermutation` and `InsertStable` |
| PieChart.SortDesc | main.py:30 | `sorted(d, key=d.get, reverse=True)`, of the same length; see `SortDescSorted`, `SortDescPermutation` and `SortDescStable` |
| PieChart.Percent | main.py:224 | `(count * 100) / total` in exact arithmetic; see `PercentExample`, `PercentMonotone` and `PercentagesSum` |
| PieChart.InsertSorted | main.py:30 | inserting into a list sorted largest-first keeps it sorted |
| PieChart.InsertPermutation | main.py:30 | inserting adds exactly that key |
| PieChart.SortDescSorted | main.py:30 | the sorted keys are in non-increasing order of value |
| PieChart.SortDescPermutation | main.py:30 | the sorted keys are a permutation of the keys |
| PieChart.SortDescStable | main.py:30 | keys of equal value keep their dictionary order (stable under `reverse=True`) |
| PieChart.InsertStable | main.py:30 | inserting a key after all keys of at least its value keeps the order of equal keys |
| PieChart.SortDescSameOrder | main.py:30 | the sort depends only on how the values compare |
| PieChart.DataPoints | main.py:30-37 | one point per key in sorted order with its value, values non-increasing, names a permutation of the keys, only the first point exploded |
| PieChart.Percentages | main.py:223-224 | over the keys of the counts, each once: no result exactly when there is a key and the counts sum to zero (the division raises); otherwise every label gets count*100/total, and the result has exactly the keys of the counts |
| PieChart.PercentMonotone | main.py:224 | dividing by the same positive total keeps the order and the ties of the counts |
| PieChart.PercentagesSum | main.py:223-224 | with a positive total, the percentages of the labels add up to exactly 100 |
| PieChart.PercentExample | main.py:224 | counts 3 and 1 give 75 and 25 per cent |
| PieChart.ChartOrderIsCountOrder | main.py:30 | sorting the platforms by percentage is sorting them by their integer counts |

## Left out

- Fetching the archives (`urlopen`), unpacking them (`ZipFile`, `BytesIO`) and reading their lines (main.py:196-199) are network and archive I/O. `Run` takes the lines of each archive as its input instead.
- UTF-8 decoding, and the Unicode meaning of `str.lower()`, `\d`, `[A-Za-z]` and `\b`: only ASCII letters are lowered, and only ASCII digits, letters and `_` are word characters. Other characters are left unchanged and are not word characters.
- Floating point: percentages are exact rationals (`real`), so the rounding of float division and of `str(float)` is not modelled.
- The HTML text of the three charts, the file writes and `print` (main.py:6-165, 225-229). The pie chart is modelled as its list of data points. The hour and day charts are not modelled.
- The insertion order of keys created later in the hour and day tallies is not modelled, because Dafny maps are unordered. It only affects the order in which the charts list them.
- Text.ZFillValue: models `zfill` for unsigned digit strings only. The sign handling of `zfill` is never reached by `str(day)`.
- The target month is fixed to "Jan" as in the code. `MONTH_NUMBER` (main.py:177) is only passed to the day chart and is not modelled.
