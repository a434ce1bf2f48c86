# dailyworker — a verified model of the worker stores and the T1042E export

dailyworker keeps a roster of day workers and exports the selected ones as an
ÁNYK "T1042E" declaration (XML). This project models its three pieces of logic
in Dafny and proves what they promise:

- `PackedStore` (`packed_store.dfy`) is the desktop version's `Data`. It holds
  one list of workers and one list of employers, and a `u32` id counter for
  each list. `Data` is a class whose methods update these fields in place.
  Lookups are front-to-back scans, proved against `Position`, the
  first-match index.
- `RecordStore` (`record_store.dfy`) is the Flutter version's `Db` and
  `Worker`. The list lives in memory, and each record also lives on disk as
  `<id>.json`. The workers directory is modelled as a `FileSystem` object: a
  map from file name to content. Its `Save` and `Delete` may fail at any step,
  and the model picks the outcome arbitrarily. Each `Db` mutation is proved to
  touch the list only in the order the source does: the write comes first,
  and the list changes only if the write succeeded. The one exception is the
  selection flag, which changes in memory whatever the save does.
  `SyncedWith` states that the list and the directory agree. Lemmas prove
  which operations keep that agreement.
- `ExportXml` (`export_xml.dfy`) is `render_xml` and its `pad` closure.
  - The document is an element tree.
  - Its `mezok` children are given by the pure field list `Fields`.
  - `Pad` and `RenderXml` are loops, proved against `Padded` and `Rendered`.
  - Lemmas then prove the following about `Fields`:
    - its length;
    - the code and text of every field;
    - that all codes are distinct;
    - that only a worker's name, tax number and TAJ number reach the output.
  - Rendering is a function of the worker list and the date, because
    `RenderXml` ensures `doc == Rendered(workers, date)`.
- `Wrappers` (`wrappers.dfy`) holds `Option` and `Result`. Errors are
  strings, as in the Rust source.

## Model

| member | source | states |
|---|---|---|
| PackedStore.Data.constructor | src/worker.rs:148-157 | a new store has empty worker and employer lists and both counters at 0, and satisfies `Valid` |
| PackedStore.Data.AddNewWorker | src/worker.rs:66-74 | the worker counter goes up by exactly 1; one record is appended: the argument with its id replaced by the new counter; the result is `Ok(new counter)`; employers and earlier records are unchanged; if every id was at most the counter, that still holds and the new id differs from every earlier one; `Valid` is kept |
| PackedStore.Position | src/worker.rs:93-100 | the index the scan stops at: the first record with the id; `None` exactly when no record has it |
| PackedStore.Data.GetWorkerMutById | src/worker.rs:93-100 | the loop returns the position of the first record with the id, or `None` when there is none |
| PackedStore.Data.UpdateWorker | src/worker.rs:75-83 | with a match on `newWorker.id`: only the first matching position is overwritten with `newWorker`, and the result is `Ok(newWorker)`; with no match: `Err("Worker not found by ID")` and nothing changes; counters and employers never change; `Valid` is kept |
| PackedStore.Data.UpdateWorkerById | src/worker.rs:84-92 | matches on the `id` argument rather than on `newWorker.id`; stores `newWorker` as it is, its own id included; with no match: `Err` and nothing changes; `Valid` is kept when the two ids agree |
| PackedStore.Data.SetWorkerSelectedById | src/worker.rs:101-109 | only `isSelected` of the first matching record changes, and that record is returned; with no match: `None` and nothing changes; counters and employers are untouched |
| PackedStore.ToggleSelectedCount | src/worker.rs:101-109 | setting one record's flag changes the number of selected records by exactly the difference of the old and new flags |
| PackedStore.Data.GetWorkers | src/worker.rs:110-112 | every record, in store order |
| PackedStore.Selected | src/worker.rs:113-119 | the filter keeps exactly the selected records and is no longer than the list |
| PackedStore.SelectedAppend | src/worker.rs:113-119 | the filter distributes over concatenation, so selected records keep their store order |
| PackedStore.SelectedAll | src/worker.rs:113-119 | the filter returns the whole list if and only if every record is selected |
| PackedStore.Data.GetWorkersSelected | src/worker.rs:113-119 | a record is in the result if and only if it is stored and selected; the result is the order-preserving filter |
| PackedStore.Data.RemoveWorkerById | src/worker.rs:120-125 | removes exactly the first record with the id and returns it; the others keep their relative order; with no match: `None` and nothing changes; the counter is not decreased; under `Valid`, no record with that id remains and `Valid` is kept |
| PackedStore.RemovedIsGone | src/worker.rs:120-125 | when ids are distinct, removing the first match leaves no record with that id |
| PackedStore.RemovePreservesIds | src/worker.rs:120-125 | removing one record keeps every id issued by the counter, and keeps ids distinct |
| PackedStore.Data.AddNewEmployer | src/worker.rs:126-134 | the employer counter goes up by 1 and an employer with that id is appended; workers and the worker counter are unchanged; `Valid` is kept |
| PackedStore.Data.GetEmployers | src/worker.rs:135-137 | every employer, in order |
| PackedStore.EmployerPosition | src/worker.rs:138-145 | the first employer with the id, or `None` exactly when there is none |
| PackedStore.Data.GetEmployerMutById | src/worker.rs:138-145 | the loop returns the position of the first employer with the id |
| RecordStore.DefaultWorker | rust/src/api/worker.rs:129-145 | the default record has every text field empty and is not selected; its fresh id is a parameter |
| RecordStore.NewWorker | rust/src/api/worker.rs:147-173 | the record carries the given field values under the fresh id |
| RecordStore.Cloned | rust/src/api/worker.rs:175-178 | the copy equals the original |
| RecordStore.SetSelected | rust/src/api/worker.rs:180-185 | the copy has `isSelected == to` and differs from the original in nothing else |
| RecordStore.FileName | rust/src/api/worker.rs:191-192 | a record's file name is 37 characters long and ends in ".json"; it depends on the id alone |
| RecordStore.HexRoundTrip | rust/src/api/worker.rs:191-192 | the hex digits of an id read back as that id |
| RecordStore.FileNameInjective | rust/src/api/worker.rs:191-207 | `save` and `delete` use the same file for one id, and different ids get different files |
| RecordStore.FileSystem.Save | rust/src/api/worker.rs:191-203 | on success the record's file holds the record and no other file changes; on failure no other file changes, and the record's file is left as it was, truncated or partly written, or holding the whole record, because the `BufWriter` retries a failed `flush` when it is dropped |
| RecordStore.FileSystem.Delete | rust/src/api/worker.rs:204-207 | on success exactly the record's file is gone; on failure nothing changes; deleting a file that is not there fails |
| RecordStore.Position | rust/src/api/worker.rs:68-76 | the first record with the id, or `None` exactly when there is none |
| RecordStore.Db.FindWorker | rust/src/api/worker.rs:68-69 | the scan over `&mut self.workers` stops at `Position` |
| RecordStore.Db.Open | rust/src/api/worker.rs:38-54 | on success: every directory entry was either read or skipped as a failed entry; each file read held a record; the result is sorted by name and is a permutation of the records read; a read or parse failure aborts the load |
| RecordStore.NameLeTotal | rust/src/api/worker.rs:51 | `String::cmp` order is total |
| RecordStore.NameLeTransitive | rust/src/api/worker.rs:51 | `String::cmp` order is transitive |
| RecordStore.InsertByName | rust/src/api/worker.rs:51 | inserting into a sorted list gives a sorted list holding one more copy of the record |
| RecordStore.SortByName | rust/src/api/worker.rs:51 | the sort returns a list sorted by name that is a permutation of its input |
| RecordStore.Loaded | rust/src/api/worker.rs:41-49 | the records of the files read, one per file, in reading order |
| RecordStore.ReloadFindsSaved | rust/src/api/worker.rs:38-54 | save and reload: when the list agrees with the directory, every list record whose file was not skipped is among the records `open` loads |
| RecordStore.ReloadIsPermutation | rust/src/api/worker.rs:38-54 | when the list agrees with the directory, every file belongs to a list record and nothing is skipped, `open` loads exactly the list's records, up to order |
| RecordStore.Db.AddNewWorker | rust/src/api/worker.rs:55-59 | the save comes first; after a failure the list is unchanged; after a success the record is appended as given, with its id not reassigned, and a lookup by that id finds it when the id was new; when the id was new and list and directory agreed before, a success keeps them in agreement |
| RecordStore.AppendSynced | rust/src/api/worker.rs:55-59 | saving a record with a new id and appending it keeps list and directory in agreement |
| RecordStore.AppendDuplicateBreaksSync | rust/src/api/worker.rs:55-59 | `add_new_worker` does not check for a listed id: adding a record whose id is already listed leaves two records on one file, so list and directory no longer agree |
| RecordStore.Db.RemoveWorker | rust/src/api/worker.rs:60-66 | the delete comes first; after a failure the list and the files are unchanged; after a success the record's file is gone and every record with the argument's id is dropped, and only its id matters; a success keeps list and directory in agreement |
| RecordStore.Retain | rust/src/api/worker.rs:64 | `retain` keeps exactly the records with another id |
| RecordStore.RetainAppend | rust/src/api/worker.rs:64 | `retain` distributes over concatenation, so survivors keep their relative order |
| RecordStore.RetainAbsent | rust/src/api/worker.rs:64 | `retain` changes nothing when no record has the id |
| RecordStore.RetainDistinct | rust/src/api/worker.rs:64 | `retain` keeps ids distinct |
| RecordStore.RetainSynced | rust/src/api/worker.rs:60-66 | deleting a file and retaining keeps list and directory in agreement |
| RecordStore.Db.UpdateWorker | rust/src/api/worker.rs:67-76 | with no match: `Err("Worker not found by ID")`, no save, nothing changes; with a match: a save of `newWorker`, and the first match is replaced only if the save succeeded; after a failure the list is unchanged; a success keeps list and directory in agreement |
| RecordStore.ReplaceSynced | rust/src/api/worker.rs:67-76 | saving a record over the one with its id keeps list and directory in agreement |
| RecordStore.Db.SetWorkerSelectedById | rust/src/api/worker.rs:77-90 | with a match: only the first match's flag changes, in memory, whatever the save does, and the changed record is returned; with no match: `None`, no save, nothing changes; if list and directory agreed before, they agree afterwards exactly when the save left that record in its file |
| RecordStore.SaveSynced | rust/src/api/worker.rs:77-90 | if list and directory agreed before, then after a save whose outcome is ignored they agree if and only if the record's file holds the new record |
| RecordStore.SelectedAppend | rust/src/api/worker.rs:94-100 | the selection filter keeps list order |
| RecordStore.Selected | rust/src/api/worker.rs:94-100 | the filter keeps exactly the selected records |
| RecordStore.Db.GetById | rust/src/api/worker.rs:91-93 | the first record with the id: every record before it has another id; `None` exactly when there is none; with distinct ids it is the record with that id |
| RecordStore.Db.GetWorkersSelected | rust/src/api/worker.rs:94-100 | exactly the selected records, in list order |
| ExportXml.Decimal | rust/src/xml.rs:7 | `to_string` gives a non-empty string of decimal digits, and it starts with '0' only for 0 |
| ExportXml.DecimalRoundTrip | rust/src/xml.rs:7 | the digits of `n` denote `n` |
| ExportXml.Padded | rust/src/xml.rs:6-12 | `pad(i, size)` is `max(size, digits(i))` long: zeros followed by the digits of `i`; nothing is cut off |
| ExportXml.Pad | rust/src/xml.rs:6-12 | the prepend-"0" loop computes `Padded` |
| ExportXml.LeadingZeros | rust/src/xml.rs:6-12 | leading zeros do not change the value |
| ExportXml.PaddedDenotes | rust/src/xml.rs:6-12 | a padded number is all digits and denotes the number |
| ExportXml.PaddedInjective | rust/src/xml.rs:6-12 | padding to one width is injective: equal results if and only if the numbers are equal |
| ExportXml.DecimalLength | rust/src/xml.rs:6-12 | a number below `10^k` has at most `max(k, 1)` digits, so `pad` to width `k` adds only zeros |
| ExportXml.PaddedFour | rust/src/xml.rs:32 | positions below 10000 pad to exactly four digits |
| ExportXml.SuffixFacts | rust/src/xml.rs:29-67 | each of the eight suffixes starts with a letter, and they differ pairwise |
| ExportXml.WorkerFields | rust/src/xml.rs:29-67 | each worker contributes exactly eight fields |
| ExportXml.WorkerFieldCode | rust/src/xml.rs:29-67 | field `s` of the worker at position `i` has code `"0B" + pad(i+1, 4) + Suffixes[s]` |
| ExportXml.WorkerFieldTexts | rust/src/xml.rs:33-66 | the eight texts are: name, tax number and TAJ as they are, then "U", "03", the decimal `i+1`, "1", and the date |
| ExportXml.Blocks | rust/src/xml.rs:29-68 | `n` workers give `8n` fields |
| ExportXml.Fields | rust/src/xml.rs:16-68 | `mezok` has exactly `3 + 8n` fields: the three header fields, then the workers' fields in input order |
| ExportXml.BlockAt | rust/src/xml.rs:29-68 | the eight fields at offset `8i` of the worker part are the `i`-th worker's |
| ExportXml.FieldsBlockAt | rust/src/xml.rs:29-68 | the eight fields at offset `3 + 8i` of `mezok` are the `i`-th worker's |
| ExportXml.WorkerTexts | rust/src/xml.rs:33-66 | the fields of worker `i` in `mezok` carry its name, tax number and TAJ unpadded, then "U", "03", `i+1`, "1" and the date |
| ExportXml.FieldCodeAt | rust/src/xml.rs:29-67 | field `k` past the header is field `(k-3) mod 8` of worker `(k-3) div 8`, and has that field's code |
| ExportXml.DigitsThenOther | rust/src/xml.rs:32 | in a code, the padded position ends exactly where the suffix begins |
| ExportXml.WorkerCodeKey | rust/src/xml.rs:29-67 | a worker code decodes to its position and suffix index |
| ExportXml.HeaderCodeKey | rust/src/xml.rs:16-26 | the three header codes decode to `(0, 0)`, `(0, 1)` and `(0, 2)`; worker positions start at 1, so no worker code decodes to these |
| ExportXml.FieldKey | rust/src/xml.rs:16-67 | the code of field `k` decodes to `(0, k)` in the header and to `(i + 1, s)` for field `s` of worker `i` |
| ExportXml.CodesDistinct | rust/src/xml.rs:16-67 | no two fields of `mezok` share an `eazon` code |
| ExportXml.OnlyThreeFieldsMatter | rust/src/xml.rs:29-67 | two worker lists that agree on name, tax number and TAJ give the same fields |
| ExportXml.Mezos | rust/src/xml.rs:17-67 | one `mezo` element per field |
| ExportXml.MezosAppend | rust/src/xml.rs:17-67 | the elements of two field lists are the elements of each, one after the other, as `add_elements` appends them |
| ExportXml.FieldsSnoc | rust/src/xml.rs:29-68 | rendering one more worker appends exactly that worker's eight fields |
| ExportXml.WorkerMezos | rust/src/xml.rs:30-67 | the elements one loop iteration builds are the rendering of that worker's fields |
| ExportXml.PaddedTwo | rust/src/xml.rs:82 | the `%y` year of the form id is exactly two digits, and they denote the year modulo 100 |
| ExportXml.FormHeader | rust/src/xml.rs:79-86 | the form header holds, in order: the two-digit year followed by "T1042E", version "1.0", `adozo` with `adoszam` 23127182215, and `megjegyzes` "Bejelentés" |
| ExportXml.RenderXml | rust/src/xml.rs:5-99 | the loop builds exactly `Rendered`: the prolog, then the root `nyomtatvanyok` in the ÁNYK namespace, holding one `nyomtatvany` with the form header and then `mezok` |
| ExportXml.RenderedMezok | rust/src/xml.rs:28-68 | the rendered `mezok` holds `3 + 8n` elements |

## Left out

- The GTK desktop UI and the Flutter bridge (`src/main.rs`, `src/model.rs`, `src/style.rs`, `src/icon.rs`, `rust/src/api/simple.rs`) are UI glue. They are not part of this model.
  - This includes the process-wide singletons.
  - It includes the export file's timestamped name.
  - It includes the lowercase sort of `simple.rs`, which depends on Unicode case mapping.
- The `Pack` persistence of the packed store (`storaget`) is not modelled. The store is a value in memory.
- Real I/O is not modelled: `get_workers_dir`, `read_dir`, `File::create`, `write_all`, `flush` and `remove_file`.
  - They are replaced by a map from file name to content.
  - Every step may fail. A failure's error message is arbitrary.
  - A failed save leaves the record's file unchanged, truncated or partly written (`Garbled`), or holding the whole record. The last case arises when `flush` fails and the retried flush on drop succeeds. So after a failed `add_new_worker` or `update_worker` the directory may hold the new record while the list does not, and the next `open` loads it.
- JSON serialisation is not modelled. A file holds either a record (`Record(w)`) or content that does not parse (`Garbled`).
- `Db.Open` visits the directory entries in an arbitrary order.
  - A directory entry that `read_dir` reports as an error is skipped.
  - A listing failure, an open or read failure, or a file that does not parse gives `Err`.
  - The directory is assumed not to change during the load.
- `Uuid::new_v4` is not modelled. `DefaultWorker` and `NewWorker` take the fresh id as a parameter, so uniqueness of drawn ids is not assumed anywhere.
- The simple UUID form is taken as 32 lower-case hex digits of the 128-bit value.
- `Utc::now()` is not modelled. The date is one parameter, `Date`.
  - The source reads the clock `3n + 1` times for `n` workers: for the year, the month and the day of each worker's report date, and once more for the form id.
  - The model therefore does not capture a render that straddles midnight. In such a render, two workers of one export, or the parts of one worker's date, can come from different days.
  - The two-digit year of `%y` is `year mod 100`, zero-padded.
- The XML byte serialisation (`XMLElement::to_string`, escaping, attribute formatting) is a foreign library. The model stops at the element tree and the prolog string.
- `has_valid_birthdate` is not modelled. It delegates to chrono's `%Y-%m-%d` parser.
- `PackedStore.Data.AddNewWorker`: does not model `u32` overflow of the worker counter. It requires the counter to be below `0xFFFF_FFFF`; in the source, `+=` would panic or wrap at that point.
- `PackedStore.Data.AddNewEmployer`: does not model `u32` overflow of the employer counter, for the same reason.
- `Worker::new` of `src/worker.rs` is the `PackedStore.Worker` datatype constructor itself, so it has no member of its own.
- A returned `&mut Worker` or `&Worker` is modelled as a position or a copy. Aliasing through the borrow is not modelled.
- `RecordStore.SortByName`: the order among records with equal names is not stated. `sort_by` is stable; the model proves only that the result is sorted and a permutation.
- `RecordStore.Db.UpdateWorker`: a save that succeeds stores `newWorker` under its id. The record it replaces carries the same id, so the agreement lemma covers it. The model does not state what happens to files when ids repeat in the list.
