# Windowed service pivot, modelled in Dafny

`data_processing.py` enriches each entity record with the service
transactions of that entity. `pivot_services` does the work for one record and
the service table. It keeps the service rows whose `EntityID` equals the
record's. It narrows them to the half-open date window
`[LastScoreDate, ScoreDate)`. It groups the survivors by `Description` and sums
`Total` per group. It returns the record's fields followed by those sums, under
the record's own name. The script then applies it to every record.

The model has two modules:

- `Lexicographic` (`lexicographic.dfy`): Python's `<` on strings (code-point
  lexicographic order). pandas' `groupby` sorts its group keys in this order.
  It holds the order's irreflexivity, transitivity and totality.
- `DataProcessing` (`data_processing.dfy`): the entities and `pivot_services`
  as pure functions.
  - `ServiceEntry` is a service row and `Row` is an entity record. A `Row` has
    its index label `name`, the typed `EntityID`, `LastScoreDate` and
    `ScoreDate`, and all its `(column, value)` fields in order. The typed
    values stand for the record's columns of those names. They are kept as
    separate copies, and the model does not check them against `fields`.
  - An EntityID is `Option<string>`. `None` is an empty cell, which pandas
    reads as NaN. NaN equals nothing, itself included, so a `None` on either
    side never matches.
  - A date is `Option<int>`, an instant such as a day number. `None` is the
    `NaT` that `to_datetime(..., errors='coerce')` produces, and every
    comparison with it is false.
  - `Total` is an integer amount, for example cents.
  - The service table is an explicit parameter. It stands for the
    default-argument capture of the module-level table.

`groupby(...).agg(sum)` is modelled as `GroupSum`. It inserts each entry's
`Total` into a sorted list of `(Description, sum)` groups. It is proved
against two independent references:

- `Totals`: a dictionary of per-description sums over the `time_frame`.
- `WindowTotal`: the sum of `Total` over the raw service table's entries that
  match the entity, the window and the description.

The script has no column-name sanitisation. The appended fields carry the
`Description` values themselves, which is what this revision of the code does.
A `Description` equal to an existing column name therefore appears twice, as
with `pd.concat`.

## Model

| member | source | states |
|---|---|---|
| `DataProcessing.ClientServices` | data_processing.py:29 | the entity mask keeps every entry whose EntityID equals the record's, as often as in the table, and no other entry; a NaN EntityID on either side matches nothing |
| `DataProcessing.TimeFrame` | data_processing.py:31 | the date mask keeps exactly the entries with `start <= Date < end`, where a NaT on either side never matches |
| `DataProcessing.Matched` | data_processing.py:29-31 | the `time_frame` holds exactly the entries that pass both masks, with their multiplicities |
| `DataProcessing.GroupSumCorrect` | data_processing.py:34 | the groupby result is in strictly ascending Description order (so each Description occurs once) and maps each Description present to the sum of its Totals |
| `DataProcessing.DescriptionTotalPermutation` | data_processing.py:34 | a per-description sum is the same for any reordering of the entries |
| `DataProcessing.GroupSumPermutation` | data_processing.py:34 | the whole groupby result is the same for any reordering of the entries |
| `DataProcessing.MatchedTotalIsWindowTotal` | data_processing.py:29-34 | summing one Description over the filtered `time_frame` equals summing it over the raw table's entries that match entity and window |
| `DataProcessing.PivotServices` | data_processing.py:36-38 | the output keeps the record's name, EntityID and window dates, and the record's fields unchanged and in order as its prefix |
| `DataProcessing.AppendedIsWindowSums` | data_processing.py:34-36 | the appended fields are in ascending key order; their keys are exactly the Descriptions of the matching entries; each holds the sum of Total over the matching entries with that Description |
| `DataProcessing.OnlyOwnEntriesMatter` | data_processing.py:29 | two service tables holding the same entries for the record's entity give the same output, whatever else they hold |
| `DataProcessing.PermutationInvariant` | data_processing.py:34 | any permutation of the service table gives the same output |
| `DataProcessing.NonMatchingEntryIgnored` | data_processing.py:29-31 | inserting an entry that fails either mask anywhere in the table changes nothing |
| `DataProcessing.EntryAtScoreDateIgnored` | data_processing.py:31 | the window is open at its end: an entry dated exactly ScoreDate is never counted |
| `DataProcessing.EntryAtLastScoreDateCounted` | data_processing.py:31-36 | the window is closed at its start: for an entry of the entity dated exactly LastScoreDate in a non-empty window, an appended field for its Description holds the window sum, and that sum is the entry's Total plus the sum without the entry |
| `DataProcessing.NullDateEntryIgnored` | data_processing.py:31 | an entry whose Date was coerced to NaT never counts |
| `DataProcessing.NullWindowIsPassthrough` | data_processing.py:31 | a record whose LastScoreDate or ScoreDate is NaT comes back unchanged |
| `DataProcessing.AppendedIsSumFields` | data_processing.py:34-36 | the fields appended to the record are the groups of `sums`, one for one and in the same order, each labelled by its Description and holding its sum |
| `DataProcessing.NullEntityIdIsPassthrough` | data_processing.py:29 | a record whose EntityID is NaN comes back unchanged |
| `DataProcessing.NullEntityIdEntryIgnored` | data_processing.py:29 | an entry whose EntityID is NaN never counts, whatever the record |
| `DataProcessing.NoMatchIsPassthrough` | data_processing.py:36-43 | the output equals the record exactly if and only if no service entry matches its entity and window |
| `DataProcessing.ApplyToRecords` | data_processing.py:57 | the per-record outputs that `apply` collects: one per record, in record order, each keeping its record's name and fields as a prefix |
| `DataProcessing.ApplyToRecordsPassthrough` | data_processing.py:57 | among those per-record outputs, a record's own output equals the record exactly when nothing matches it |
| `DataProcessing.WorkedExample` | data_processing.py:25-50 | for any record with a window [LastScoreDate, ScoreDate) and three entries of its entity dated inside the window, exactly ScoreDate and before LastScoreDate (for instance 2024-01-15, 2024-02-01 and 2023-12-31 for the window [2024-01-01, 2024-02-01)), the record gains exactly one field: the first entry's Description holding its Total |

## Left out

- CSV loading and date parsing (data_processing.py:7-19, :22, :55). This is file I/O and library parsing. Records and service entries come in already parsed. A coerced-invalid date is `None`.
- The `print` of the EntityID (data_processing.py:26) and the `code.interact` sessions (data_processing.py:44-49, :60). These are interactive console behaviour with no result to state.
- The `ValueError` and catch-all handlers (data_processing.py:44-49). With typed records and integer Totals, nothing in the model can raise them.
- The `IndexError` handler (data_processing.py:40-43) has no separate branch. In the model the empty `sums` concatenates to the bare record, so the output is the unchanged record either way.
- The outer `pd.merge` of the records with the applied table (data_processing.py:58). Its join on shared columns and its NaN filling belong to pandas.
- DataProcessing.ApplyToRecords: the model stops at the per-record Series that `pivot_services` returns. `apply` at data_processing.py:57 assembles them into one DataFrame: its columns are the union of all labels, sorted when the records' labels differ, NaN-filled where a record lacks a label. That assembly fails on a repeated label. None of this is modelled.
- DataProcessing.ApplyToRecordsPassthrough: its if-and-only-if holds of each per-record Series, not of the assembled DataFrame of data_processing.py:57. There, a record with no match still gains NaN columns once any other record gained a column. The DataFrame assembly is not modelled.
- Fixed-width Totals. An all-integer `Total` column is int64 in pandas, and the per-group sum at data_processing.py:34 wraps around on overflow. The model sums unbounded integers, so its sums agree with the source only while no group's sum leaves the int64 range.
- Floating-point and NaN Totals. Totals are integers so that sums are exact. A NaN `Description` would be dropped by `groupby`, but Descriptions are plain strings here.
- Changes of dtype that `pd.concat` may make to the row's values. Values are carried over as they are.
- Column-name sanitisation. This revision of the script does not do it, so appended keys are the raw Descriptions.
- `sums.name = row.name` (data_processing.py:39). It renames a local Series that is never returned, so it has no observable effect.
