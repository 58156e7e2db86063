# pylogix_logger acquisition core in Dafny

`logger.py` polls a Logix controller for a list of tags and appends one CSV
row per sample. This project models what the script does between parsing its
arguments and exiting:

- the output file name check;
- the configuration check: seven required keys and three type tests;
- the header row, with `Timestamp` prefixed when enabled, written once;
- the two trigger loops. `periodic` fires on elapsed time, with
  `previous_time` as its state. `change` fires on a changed trigger-tag value,
  with `previous_val` as its state, seeded by one read before the loop. Any
  other trigger type enters no loop;
- sample assembly (`GetData`): an optional timestamp, then the tags in order.
  The whole row is lost on any failed read. String tags are delegated to
  `ReadString`, which reads `.LEN` and then exactly that many `.DATA` elements.

Modules:

- `Plc` (plc.dfy): tag values, read replies and one controller snapshot. A tag
  read is a lookup in a map from tag name to `Ok(value) | Err`. String tags
  expose `.LEN` and a `.DATA[0]` element buffer.
- `Config` (config.dfy): the output name check, the JSON configuration check,
  the run's settings and the header row.
- `Sampling` (sampling.dfy): `Decode`, `ReadString`, `ReadTag`, `ReadTags`
  and `Sample`. These are functions of one controller snapshot.
- `Triggers` (triggers.dfy): the environment of a run, one `Tick` per loop
  iteration. A tick holds the quit-key flag, the clock reading, a controller
  snapshot and the timestamp string. The module also holds the trigger
  decision `Decide`, the loop as a function `Loop`, the fire mask `Mask`, the
  lemmas about them, and `Acquire`, the dispatch on the trigger type.
- `Logger` (logger.dfy): the class `Session`, whose state is the CSV file's
  records plus `previousTime` and `previousVal`. `GetData`, `RunPeriodic` and
  `RunChange` are loops proved against the functions above. `RunScript`
  composes the checks and one session.

The raises at logger.py:73, :109 and :114 happen inside `with PLC(...)`, and
so do the TypeError and ValueError that `ReadString` can raise: a `.LEN`
value that is not a number, a failed count read, or a `chr` argument out of
range. All of them reach the `except` at logger.py:128 and end the run. The
model writes this as `Failure` in `Sampling` and as the outcome `Failed` in
`Triggers`, after which nothing more is appended. The raises at logger.py:24
and :39 are caught by their own handlers at :25 and :40, which print their
own message and exit. The model writes those as the outcomes `BadOutputName`
and `InvalidConfig`. A run that is still looping when the supplied ticks run
out ends with the outcome `Running`. The ticks are an observation horizon,
not a stop.

Values keep Python's int, float and bool apart, since the CSV file spells
`1`, `1.0` and `True` differently. The change trigger compares them with
Python's `!=`, under which `1`, `1.0` and `True` are equal and no number
equals a string (`Plc.Same`).

## Behaviour worth noting

- Periodic mode starts from `previous_time = 0` and fires only when
  `now - 0 > period`. With a wall clock this fires at once. With a simulated
  clock that starts at 0.0, the readings 0.0, 0.5, 1.2, 1.3 and a period of
  1.0 fire at 1.2 only (`Triggers.PeriodicExample`).
- In change mode, `previous_val` is updated only on a fire, not after every
  read. This makes no difference: `Triggers.ChangeFiresOnTransitions` shows
  that an iteration fires exactly when its read differs from the read just
  before it.
- All seven keys are required whatever the trigger type.
- There is one write policy: every row opens the file in append mode, writes
  and closes it.
- A failed read names no tag; the script only prints that an error happened.
- An unknown trigger type still writes the header row, then reads nothing.

## Model

| member | source | states |
|---|---|---|
| Config.OutputNameAccepted | logger.py:21-27 | the output name is accepted iff it has at least three characters and its last three are `csv`, so `cs` is refused and `xcsv` accepted |
| Config.OutputNameExamples | logger.py:23 | `log.csv` and `xcsv` pass; `cs`, the empty name and `log.CSV` fail |
| Config.ParseConfig | logger.py:30-42 | the configuration is accepted iff all seven keys are present, `ip` is a string, `period_time` is an int, float or bool, and `print_timestamp` is an int or bool. The accepted values are carried over unchanged, with `print_timestamp` taken by its truthiness |
| Config.ConfigExamples | logger.py:30-42 | a full configuration passes; dropping `period_time`, a float `print_timestamp` or a numeric `ip` each make it fail |
| Config.HeaderRow | logger.py:84-87 | the header record is `Timestamp` followed by the configured header fields when the timestamp is enabled, else the header fields alone, in order |
| Config.Cell | logger.py:85-87 | a string header field is written as that text, `null` as an empty field, and an int, float or bool as a value of the same kind and value, so `1`, `1.0` and `True` stay distinct |
| Config.ModeOf | logger.py:90-123 | the `periodic` case is taken iff the trigger type is the string `periodic`, the `change` case iff it is the string `change`; any other value takes the default case |
| Config.TagNames | logger.py:70-71 | the tag names read are the strings of a `tags` list in order, or, for a `tags` string, its characters one by one; the empty object gives no tag |
| Config.ShapedInputExamples | logger.py:32-35 | a `periodic` configuration with a `null` trigger tag and header fields that are numbers, booleans and `null` is followed; type `change` needs a string trigger tag; non-string tags are followed only for an unknown trigger type |
| Config.HeaderMatchesWidth | logger.py:84-87 | with one header per tag, the header record is as wide as every data row |
| Sampling.Decode | logger.py:54 | decoding succeeds iff every element is a character code; the result has one character per element, and character `i` has code `data[i]` |
| Sampling.ReadString | logger.py:49-55 | a `.LEN` read that fails or is not a number fails. A length of 0 or less gives the empty string whatever the `.DATA` buffer holds, so that buffer is not read. A positive length reads exactly `int(length)` elements; the result has that length, and character `i` is `chr(data[i])` |
| Sampling.ReadStringExamples | logger.py:49-55 | length 0 gives the empty string for any buffer; length 3 over bytes 72, 73, 33 gives `HI!`; a string length fails |
| Sampling.ReadTags | logger.py:70-77 | the tag columns fail iff some tag's read fails; otherwise there is one value per tag, in configured order |
| Sampling.DeclaredLength | logger.py:50-52 | the length is known iff the `.LEN` read succeeds with a number (int, float or bool), and it is that number |
| Sampling.ReadTag | logger.py:71-77 | a tag's column fails iff its read fails or it is a string tag whose `ReadString` fails; a number is kept as read, and a string tag's column is the text `ReadString` returns |
| Sampling.Sample | logger.py:64-78 | a sample succeeds iff every tag read succeeds, so no partial row exists. Its width is the number of tags plus one with the timestamp, and the timestamp comes first |
| Sampling.SampleColumns | logger.py:70-77 | after the optional timestamp, column `i` of a sample is the value read for tag `i`, in configured order |
| Triggers.TriggerRead | logger.py:107-112 | the trigger read is the read of the configured trigger tag; without a string tag, which only a non-`change` type allows, it counts as failed |
| Triggers.Decide | logger.py:96-116 | periodic: fire iff `now - previous_time` strictly exceeds the period, never abort, and the next state is `now`. Change: abort iff the trigger read fails, fire iff it succeeds with a value that differs by `!=` from `previous_val`, and the next state is that value |
| Triggers.Loop | logger.py:96-120 | the loop appends at most one row per iteration and keeps the kind of trigger state it started with |
| Triggers.LoopRowWidth | logger.py:96-120 | every row the loop appends has the data-row width: the timestamp column when enabled plus one column per tag |
| Triggers.LoopSplit | logger.py:96-120 | running over `a` then `b` is running over `a`, then continuing over `b` from the reached state only if the run is still going. Rows are only appended, and nothing is appended after a quit or a failure |
| Triggers.QuitEndsRun | logger.py:96-120 | the quit key at iteration `k` ends the run with outcome `Quit`. The rows are exactly those of the first `k` iterations, so a started sample completes before the next quit check |
| Triggers.TriggerReadFailureEndsRun | logger.py:111-114 | a failed trigger read in the change loop ends the run as failed, with no further row |
| Triggers.LoopAppendsFiredSamples | logger.py:96-120 | when nothing quits or fails, each fire appends exactly one row and no other iteration appends one. The rows are the samples of the fired ticks, in order |
| Plc.SameIsEquivalence | logger.py:116 | the equality the change loop negates is reflexive, symmetric and transitive; `1 == 1.0 == True` and `1 != "1"` |
| Triggers.ChangeFiresOnTransitions | logger.py:105-120 | a change iteration fires iff its trigger value differs, by Python's `!=`, from the read just before it. For the first iteration that is the seed read, which is never itself a fire |
| Triggers.PeriodicFirstFire | logger.py:95-98 | until the first fire, an iteration fires iff its clock reading minus the initial `previous_time` strictly exceeds the period |
| Triggers.PeriodicNextFire | logger.py:98-102 | after a fire at iteration `i`, the next fire is at the first `j` whose clock reading exceeds that of `i` by strictly more than the period. This is so because `previous_time` took the clock value read before the sample |
| Triggers.PeriodicExample | logger.py:95-102 | period 1.0 with readings 0.0, 0.5, 1.2, 1.3 fires at 1.2 only |
| Triggers.ChangeExample | logger.py:105-120 | a seed of 1 and trigger reads `True`, 7.0, 7, `"7"` fire at the 7.0 and the `"7"` only |
| Triggers.Acquire | logger.py:90-124 | whatever the trigger type, every data row a run appends has the data-row width: the timestamp column when enabled plus one column per tag |
| Logger.Session.constructor | logger.py:59 | a session starts from the records already in the file, which is opened for appending |
| Logger.Session.UpdateCsv | logger.py:58-61 | one record is appended and the earlier records are kept |
| Logger.Session.GetTagValue | logger.py:71-77 | the loop body's value for one tag is exactly `Sampling.ReadTag` of it |
| Logger.Session.GetData | logger.py:64-78 | the row built by the loop is exactly `Sampling.Sample` of the same snapshot and timestamp, failing exactly when it does |
| Logger.Session.SampleAndAppend | logger.py:99-100 | a successful sample is appended to the file as one record; a failed one leaves the file as it was |
| Logger.Session.RunPeriodic | logger.py:93-102 | starting from `previous_time = 0`, the file gains exactly the rows of `Triggers.Loop`. The outcome and the final `previous_time` are the loop's |
| Logger.Session.RunChange | logger.py:105-120 | a failed seed read appends nothing, leaves `previous_val` alone and fails. Otherwise, seeded with that value, the file gains exactly the rows of `Triggers.Loop`, and the outcome and final `previous_val` are the loop's |
| Logger.Session.Run | logger.py:82-126 | the header record is appended first and once, followed by exactly the data rows of the selected trigger. An unknown trigger type appends only the header |
| Logger.RunScript | logger.py:21-129 | a bad output name, then an invalid configuration, ends the run with the file untouched. Otherwise the file gains the header and the session's data rows |

## Left out

- The pylogix connection is left out because it is foreign I/O. A read is a lookup in a controller snapshot, one snapshot per loop iteration, so all reads within one iteration see the same tag values. A lost connection shows up as failed reads.
- `keyboard.is_pressed('q')` is left out because it is OS input polling. It becomes a supplied quit flag per iteration. A Ctrl-C, which the bare `except` turns into the error exit, is not modelled.
- `time.time()` and `datetime.now().strftime(...)` are left out because they read the wall clock. The clock is a supplied real per iteration and the timestamp an opaque supplied string.
- The `csv` module's quoting and byte encoding are left out because they are library behaviour. The file is a sequence of records.
- File open and write failures are left out. Every append is assumed to succeed.
- Console output (status messages, progress dots), argparse and `json.load` are plumbing and are left out.
- The unbounded loops are left out; a run covers only the finitely many ticks supplied. A run still looping at the end of them has the outcome `Running`.
- Logger.RunScript: for a run whose name and configuration are accepted, requires `tags` to be a list of strings, a string or the empty object when the trigger type is `periodic` or `change`, and `trigger_tag` a string when it is `change`. A list holding non-strings and a non-string `trigger_tag` are passed to pylogix as tag names, and pylogix is not part of this model. A `tags` that is `null`, a number or a boolean makes `range(len(c_tags))` (logger.py:70) raise TypeError, and a non-empty object makes `c_tags[i]` (logger.py:71) raise KeyError, at the first sample; the `except` at logger.py:128 then ends the run after the header row and the rows before that sample. These malformed configurations are excluded rather than modelled.
- Logger.RunScript: for a run whose name and configuration are accepted, requires `headers` to be a list of numbers, booleans, strings and `null`. A non-list `headers` (which `['Timestamp'] + c_headers` rejects, and which the csv writer splits or rejects) and list or object header fields (written as their Python text) are not followed.
- Plc.Value: a float is an exact real. NaN and the infinities are not modelled. `json.load` accepts `NaN` and `Infinity` as `period_time`, and a NaN trigger value differs from itself, so the change loop would fire on every iteration.
- Triggers.Decide: `now - previous_time > period` is compared on exact reals, without float rounding. In floats, `0.4 - 0.1 > 0.3` holds.
- Sampling.Decode: Python's `chr` also accepts the surrogate codes 0xD800–0xDFFF, which a Dafny `char` cannot hold. The model treats them as a failure.
- Sampling.ReadString: the count read of `.DATA[0]` returns the first `int(length)` buffer elements and fails when the buffer is shorter. That is an assumption about pylogix, whose code is not part of this model.
- Tag values other than numbers and strings, such as lists, are not modelled.
- The initial value of `Logger.Session.previousVal` is arbitrary. The script only defines it at the seed read.
