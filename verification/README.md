# OpenStop-stats changeset extractor, modelled in Dafny

This project models the part of OpenStop-stats that turns the element events of an
OpenStreetMap changeset dump into CSV rows. A SAX content handler, `ChangesetHandler`, keeps one
open `Changeset` record. A `changeset` start element opens a fresh record from the element's
attributes. Nested `tag` elements fill in `comment`, `created_by` and `locale`. A `changeset` end
element hands the record to a `write` callback. The callback appends the record's twelve-column
row to the CSV sink iff its `created_by` starts with the editor filter. The header row is written
once, before anything else.

The same logic appears twice in the repository. `lib/changesets.py` holds the threaded
download/decompress/parse pipeline. `lib/parser.py` reads standard input. Lines 13-71 of
`lib/parser.py` match lines 16-74 of `lib/changesets.py` apart from line offsets, and their
header-write and `write` filter (`lib/parser.py:81-87`, `lib/changesets.py:127-135`) are the same
too. One set of members models both files. The table below cites whichever copy is nearer.

Files:

- `wrappers.dfy`: `Option`. `attrs.get` yields None for an absent attribute.
- `record.dfy` (module `Record`): the `Changeset` value, the column layout (`HeaderRow`,
  `ToRow`, `ColumnIndex`, `Field`), the record a `changeset` start opens (`Open`) and the effect of
  a `tag` (`ApplyTag`).
- `writer.dfy` (module `Writer`): the `write` callback (`WriteRow`) and the class `CsvSink`, which
  holds the written rows and the editor filter. `Emit` gives the rows a sequence of callback
  invocations produces. `Selected` and `FirstRaise` are its reference definition.
- `handler.dfy` (module `Handler`): element events, and the handler's transition function `Step`.
  `After` is the record after a run of events. `Delivered` lists the callback arguments of a run.
  The class `ChangesetHandler` holds `current` and the callback.
- `seqs.dfy` (module `Seqs`): small facts about slicing and concatenating sequences, used by the proofs.
- `extract.dfy` (module `Extract`): `Parse` drives a handler over a sequence of events, as the SAX
  parser does. It is proved to leave exactly `Output(events, filter)` in the sink.

Three behaviours of the code are easy to miss, and the model keeps them:

- An attribute missing from a `changeset` element is stored as None, not as the class default.
  `csv.writer` writes None as an empty cell (modelled by `Cells`).
- `current_changeset` is never cleared at an end element. A stray `tag` after `</changeset>` still
  changes the last record, and a second `changeset` end hands the same record over again.
- The callback raises an AttributeError in two cases: when a `changeset` end arrives before any
  record exists, and when a `created_by` tag has no `v` (so `created_by` is None). The run stops
  there, and the rows written before it stay in the sink. `lib/changesets.py:146-149` prints the
  error and returns. In `lib/parser.py` the exception propagates out of `xml.sax.parse`. The model
  reports this as `failed`.

## Model

| member | source | states |
|---|---|---|
| `Record.HeaderRow` | lib/changesets.py:30-36 | exactly twelve column names; name i is the column `ColumnIndex` places at i, so they are distinct and in the fixed order; every column name appears |
| `Record.ToRow` | lib/parser.py:35-40 | twelve values; position i holds the field named by header column i |
| `Record.Open` | lib/changesets.py:51-62 | a fresh record: each of the nine attribute columns holds the element's attribute of that name, or None when it is absent; `comment`, `created_by`, `locale` hold the default `''` |
| `Record.ApplyTag` | lib/changesets.py:63-70 | only the tag column named by `k` changes, and it receives `v` (None without `v`); a `k` that is absent or names no tag column leaves the record equal to before |
| `Record.RepeatedTagLastWins` | lib/parser.py:60-67 | two tags with the same key leave the later value |
| `Writer.StartsWith` | lib/changesets.py:134 | Python's case-sensitive `str.startswith`: the empty prefix always matches; a match means the prefix is no longer than the text and agrees with it character by character |
| `Writer.StartsWithIsPrefixConcat` | lib/changesets.py:134 | the test holds exactly when the text is the prefix followed by some rest |
| `Writer.Cells` | lib/changesets.py:135 | `csv.writer` writes one cell per value: the text itself, or an empty cell for None |
| `Writer.AbsentAttributeWritesEmptyCell` | lib/changesets.py:59-62 | an attribute missing from the element is written as an empty cell in its own column, and the row still has twelve cells |
| `Writer.WriteRow` | lib/parser.py:85-87 | the callback raises iff the record or its `created_by` is None; it appends iff `created_by` starts with the filter (case-sensitive prefix), and the appended row is the record's `toRow()` as cells |
| `Writer.Emit` | lib/changesets.py:133-135 | a sequence of callbacks appends at most one twelve-cell row per record |
| `Writer.FirstRaise` | lib/changesets.py:134 | the index of the first record on which `write` raises: no earlier record raises, and the one there does |
| `Writer.EmitStopsAtRaise` | lib/changesets.py:146-149 | once a callback has raised, later records change neither the rows nor the failure |
| `Writer.EmitIsSelectedPrefix` | lib/changesets.py:133-135 | the rows written are exactly the filtered rows of the records handed over before the first raise, in order; the run fails iff some callback raises |
| `Writer.EmptyFilterSelectsAll` | lib/parser.py:75 | with the empty filter every record that does not raise yields its row, position for position |
| `Writer.EmptyFilterEmitsAll` | lib/changesets.py:157 | with the empty filter and no raise, one row per record is written and the run does not fail |
| `Writer.OpenStopFilterExamples` | lib/changesets.py:134 | with filter `OpenStop`: `OpenStopEditor/1.0` is written; `JOSM` and a never-set `created_by` are not |
| `Writer.CsvSink.constructor` | lib/changesets.py:127-128 | a sink bound to the editor filter, with no rows yet |
| `Writer.CsvSink.WriteHeader` | lib/changesets.py:129-130 | appends the header row |
| `Writer.CsvSink.Write` | lib/changesets.py:133-135 | appends exactly the rows `WriteRow` gives, and reports whether it raised |
| `Handler.Step` | lib/changesets.py:51-74 | a `changeset` start opens `Open(attrs)`; a `tag` start with an open record applies the tag to it; any other start, and every end element, leaves the record as it was |
| `Handler.DeliveredCount` | lib/parser.py:69-71 | one callback invocation per `changeset` end event |
| `Handler.DeliveredExtends` | lib/changesets.py:72-74 | the callbacks of a run begin with those of any prefix of it (the order of end events) |
| `Handler.NoRecordBeforeFirstChangeset` | lib/parser.py:60 | before the first `changeset` start there is no record, so tags change nothing |
| `Handler.RecordIsOwnElement` | lib/changesets.py:52-53 | the record depends only on the events since the last `changeset` start; nothing carries over from earlier records |
| `Handler.IgnoredEventKeepsRecord` | lib/changesets.py:51-63 | start elements other than `changeset` and `tag`, and end elements other than `changeset`, leave the record unchanged wherever they occur |
| `Handler.IgnoredEventInvisible` | lib/changesets.py:72-74 | such events change none of the callback invocations |
| `Handler.StrayTagReachesLastRecord` | lib/changesets.py:72-74 | the record is kept after its end event, so a later stray `tag` changes it |
| `Handler.ChangesetHandler.constructor` | lib/changesets.py:47-49 | no record is open, and the callback is the given sink |
| `Handler.ChangesetHandler.StartElement` | lib/parser.py:48-67 | a `changeset` start opens `Open(attrs)`; a `tag` start applies the tag to an open record; anything else changes nothing |
| `Handler.ChangesetHandler.EndElement` | lib/changesets.py:72-74 | a `changeset` end calls the callback once with the current record, which stays current; other end elements do nothing |
| `Handler.ChangesetHandler.Handle` | lib/parser.py:88 | one event is dispatched: the record follows `Step`, and the sink gains the callback's rows only on a `changeset` end |
| `Extract.Parse` | lib/parser.py:81-88 | the sink ends up holding exactly `Output(events, filter)`: the header row, then the rows the callbacks append at the `changeset` end events, stopping at the first raise; `failed` is true iff a callback raised |
| `Extract.RunStopsAtRaise` | lib/parser.py:88 | once a callback has raised, the rest of the document changes neither the rows nor the failure |
| `Extract.RowsAreFilteredRecordsInOrder` | lib/changesets.py:130-135 | the output is the header, then the rows of the records that pass the prefix filter, in the order of their end events, up to the first raise; the run fails iff some record handed over raises |
| `Extract.EmptyFilterRowCount` | lib/parser.py:75-87 | with the default empty filter and no raise, the output has one row per `changeset` end event, plus the header |
| `Extract.IgnoredEventDoesNotChangeOutput` | lib/changesets.py:51-74 | inserting an ignored event anywhere leaves the output unchanged |

## Left out

- XML tokenising (`xml.sax.make_parser`, `feed`, `parse`, `close`) belongs to a foreign library. The model takes the element events it would report as input. Invariance under chunk boundaries and the handling of malformed markup are therefore not modelled.
- `downloader` (lib/changesets.py:77-94) is HTTP streaming with a progress bar. It is I/O.
- `decompressor` (lib/changesets.py:97-122) depends on the behaviour of `bz2.BZ2Decompressor` across concatenated members, which is foreign code.
- The queues and threads (lib/changesets.py:138-151, 166-191) are not modelled: blocking `get`/`put`, graceful and immediate shutdown, start and join. A raise in the callback is modelled only as the end of the run.
- `csv.writer` quoting and escaping, and opening `output.csv` or standard output, are not modelled. The sink is a sequence of rows of cells.
- `getopt` command-line parsing (lib/changesets.py:155-164, lib/parser.py:74-79) is not modelled. The editor filter is a parameter.
- `lib/charts.py` is pandas, altair and geopandas analytics plus network fetches. None of it is modelled.
- The class defaults of the nine attribute fields (`0`, or `''` for `created_at` and `closed_at`) are not modelled. `startElement` always overwrites them, so they are never observable.
- The record's fields are updated in place in the source. The model replaces the handler's `current` with an updated value instead. Between events the only other reference to the record is the callback's argument, and the callback finishes reading it before the next event.
- The handler accepts any callback. The model binds it to the `write` closure, the only callback the source passes.
