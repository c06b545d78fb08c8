# Screen recorder: recording session and bounded recording store

This project models, in Dafny, the core of a browser screen recorder. There
are two parts.

- **`ScreenRecorder`** (script.js) is the recording session. It holds the
  recording and paused flags and the encoder with its stream. It keeps the
  buffer of non-empty media chunks and assembles them into a blob when the
  encoder stops. It also keeps the in-memory list of saved recordings and
  copies its last ten entries to browser storage under the
  `screenRecordings` key.
- **`StorageManager`** (storage-manager.js) is the bounded store under the
  same key. A save appends the new record, sorts the list newest-first, keeps
  the first ten records, then walks the list from the front and keeps records
  while the running byte total stays within 50 MiB. It stops at the first
  record that would overflow. It also provides lookup, delete, clear,
  integer statistics, a pre-flight space check and an age sweep.

Files:

- `records.dfy` (module `Records`): the record, the storage slot, the byte
  sum, filtering, lookup and the stable newest-first sort.
- `storage_manager.dfy` (module `StorageManagement`): the eviction policy
  written as functions, its properties, and the `StorageManager` class.
- `formatting.dfy` (module `Formatting`): the `HH:MM:SS` clock and the
  file-name date stamp.
- `screen_recorder.dfy` (module `Recorder`): the capture constraints, the
  encoder format choice, the `ScreenRecorder` class, and a comparison of the
  two truncation rules.

The browser is not modelled. Each answer it gives becomes a parameter:

- whether the user granted capture (`displayMedia`);
- which encoder formats are supported (`isTypeSupported`);
- the payload the file reader produced;
- the current time;
- whether storage accepted a write (`accepted`);
- whether the user confirmed a deletion (`confirmed`).

Browser storage is a `Slot`: it holds nothing, an unparsable value, or a
parsed list. Both readers treat the first two as an empty list. Dates are
integer millisecond timestamps. Comparing them is what the comparator
`new Date(b.date) - new Date(a.date)` does with the ISO strings.

Two behaviours come from the code itself:

- The storage manager's delete writes and reports success even when no
  record has the id.
- `startRecording` does not check whether a session is already running.

Both truncation rules are modelled as written, and they differ:

- `saveRecordingsToStorage` keeps the **last** ten entries in insertion
  order.
- `enforceLimits` keeps the **first** ten of the newest-first list.

`Recorder.TruncationRulesAgreeWhenChronological` proves that they keep the
same records, in reverse order, when entries were added in date order.

## Model

| member | source | states |
|---|---|---|
| Records.ReadSlot | storage-manager.js:59-67 | a parsed list reads as itself; a missing or unparsable value reads as the empty list |
| Records.TotalSize | storage-manager.js:125 | the byte total of no records is zero and is never below the size of any one record |
| Records.TotalSizeAppend | storage-manager.js:125 | the byte total of two lists joined is the sum of their totals |
| Records.TotalSizePrefixMonotone | storage-manager.js:107-117 | a longer prefix never has a smaller byte total (sizes are non-negative) |
| Records.Filter | storage-manager.js:79 | the filter never lengthens the list, and a record is in the result exactly when it was in the list and passes the test |
| Records.FilterAppend | storage-manager.js:79 | filtering a joined list is joining the filtered parts, so the filter keeps the relative order of the records it keeps |
| Records.FilterKeepsNewestFirst | storage-manager.js:79 | filtering a newest-first list leaves it newest-first |
| Records.FilterKeepsAll | storage-manager.js:200-205 | the filter keeps the whole list exactly when every record passes, which is exactly when the length is unchanged (the age sweep's "did anything go" test) |
| Records.FilterTotalSize | script.js:592-600 | filtering never increases the byte total |
| Records.WithoutId | storage-manager.js:79 | deleting an id never lengthens the list, and a record survives exactly when it was in the list and has another id |
| Records.WithoutIdRemovesExactly | storage-manager.js:76-86 | deleting an id removes every record with that id and keeps every other record; deleting it twice is the same as deleting it once; deleting an absent id changes nothing |
| Records.FindById | storage-manager.js:70-73 | lookup returns nothing exactly when no record has the id; otherwise it returns the first record with that id |
| Records.InsertPermutes | storage-manager.js:21 | placing a record into a list adds exactly that record |
| Records.InsertSorted | storage-manager.js:21 | placing a record into a newest-first list keeps it newest-first |
| Records.SortNewestFirst | storage-manager.js:21 | the sort's result is newest-first and a permutation of its input |
| Records.InsertStable | storage-manager.js:21 | placing a record keeps the relative order of records that share a date |
| Records.SortStable | script.js:491-493 | the sort is stable: records with the same date keep their relative order |
| Records.SortOfSortedIsIdentity | storage-manager.js:21 | sorting a list that is already newest-first leaves it unchanged |
| Records.SortAppendNewest | storage-manager.js:17-21 | appending a record newer than all the others and sorting puts it first and leaves the rest unchanged |
| StorageManagement.TruncateCount | storage-manager.js:102-104 | the count cut keeps the first `maxCount` records, or all of them when there are fewer |
| StorageManagement.FitBudget | storage-manager.js:107-117 | the byte walk returns a prefix of its input |
| StorageManagement.FitBudgetStep | storage-manager.js:110-116 | one step of the walk takes the head when it fits and ends the walk when it does not |
| StorageManagement.WalkTakes | storage-manager.js:111-113 | when record `i` fits, the loop's kept list grows by it, its total by its size, and the rest of the walk continues from `i + 1` |
| StorageManagement.WalkStops | storage-manager.js:114-116 | when record `i` does not fit, the records kept so far are the whole result of the walk |
| StorageManagement.Limited | storage-manager.js:100-120 | the eviction policy keeps at most `maxCount` records, no more than its input, and at most `maxBytes` bytes |
| StorageManagement.FitBudgetPrefix | storage-manager.js:107-117 | the byte walk returns a prefix within budget; if it stops early, the next record would have overflowed the budget |
| StorageManagement.LimitedBounds | storage-manager.js:100-120 | the limits keep at most 10 records and at most the byte budget, and what they keep is a prefix of the input |
| StorageManagement.LimitedIsLongestFittingPrefix | storage-manager.js:110-116 | a prefix of the count-truncated list survives exactly when its byte total fits, so every record after the first overflowing one is dropped, however small |
| StorageManagement.LimitedDropsOversized | storage-manager.js:111 | no surviving record is larger than the whole budget, even when it is the newest |
| StorageManagement.LimitedIdentity | storage-manager.js:100-120 | the limits leave a list unchanged exactly when it is already within both of them; applying them twice is the same as applying them once |
| StorageManagement.FitsUnchanged | storage-manager.js:107-117 | the byte walk keeps every record of a list whose total fits the budget |
| StorageManagement.LimitedKeepsOrder | storage-manager.js:21-24 | cutting a newest-first list keeps it newest-first |
| StorageManagement.SavedListIsValid | storage-manager.js:12-27 | the list a save writes is newest-first, within both limits, and contains only old records and the new one |
| StorageManagement.PrefixSubMultiset | storage-manager.js:103 | a prefix contains only records of the whole list |
| StorageManagement.SaveOfNewest | storage-manager.js:17-24 | saving a record newer than all stored ones puts it first and then applies the limits; a newest record larger than the budget leaves an empty list |
| StorageManagement.SaveIntoEmpty | storage-manager.js:12-27 | saving a record that fits into an empty store stores just that record |
| StorageManagement.SaveSecond | storage-manager.js:12-27 | saving a newer record next to one older record, both fitting, stores the two newest-first |
| StorageManagement.SaveOntoTwo | storage-manager.js:100-104 | with a count limit of 2, a third, newer save evicts the oldest record |
| StorageManagement.CountEvictionScenario | storage-manager.js:100-104 | with a count limit of 2, saving A, B, C in date order leaves [C, B] |
| StorageManagement.BudgetEvictionScenario | storage-manager.js:106-117 | with a budget of 1500 bytes, saving A then B (1000 bytes each) leaves [B] |
| StorageManagement.CountKind | storage-manager.js:126-127 | the number of records with a type tag is the length of the list filtered by that tag |
| StorageManagement.KindCountsBounded | storage-manager.js:126-127 | videos plus images never outnumber the records, and they equal the count when every tag is video or image |
| StorageManagement.StorageManager.constructor | storage-manager.js:5-9 | the store starts on whatever storage holds |
| StorageManagement.StorageManager.GetAllRecordings | storage-manager.js:59-67 | the stored list when storage holds a parsed list, and the empty list when the key is missing or does not parse |
| StorageManagement.StorageManager.GetRecording | storage-manager.js:70-73 | a found record is stored and has the id; nothing is found exactly when no stored record has the id |
| StorageManagement.StorageManager.EnforceLimits | storage-manager.js:100-120 | the loop returns exactly the eviction policy `Limited(recordings, 10, 50 MiB)` |
| StorageManagement.StorageManager.SaveRecording | storage-manager.js:12-34 | a failed read or a rejected write fails and leaves storage unchanged; otherwise storage holds the old list plus the new record, sorted and limited, which is newest-first and within both limits with non-negative remaining space, and the new record is returned |
| StorageManagement.StorageManager.DeleteRecording | storage-manager.js:76-86 | an accepted write stores the list without the id, so lookup then finds nothing, and reports true; a rejected write changes nothing and reports false; either way the stored list stays newest-first if it was, and its count and byte total never grow |
| StorageManagement.StorageManager.ClearAllRecordings | storage-manager.js:89-97 | an accepted removal empties the key and the statistics count zero records; a rejected one changes nothing |
| StorageManagement.StorageManager.GetStorageStats | storage-manager.js:123-139 | the count and byte total are those of the stored list; total plus remaining space is the 50 MiB budget; videos plus images never exceed the count |
| StorageManagement.StorageManager.CanStoreRecording | storage-manager.js:154-157 | true exactly when the stored total plus the new size fits the budget |
| StorageManagement.StorageManager.AutoCleanup | storage-manager.js:194-212 | storage is rewritten with the records newer than the cutoff exactly when some record is at or before the cutoff and the write is accepted; otherwise it is unchanged; after a rewrite every stored record is newer than the cutoff; the stored list stays newest-first if it was, and its count and byte total never grow |
| Formatting.Digits | script.js:409 | the decimal rendering is non-empty and all digits, one digit exactly below 10 and two exactly from 10 to 99 |
| Formatting.DigitsRoundTrip | script.js:409 | reading the rendering back gives the number |
| Formatting.LeadingZero | script.js:409 | a leading zero does not change a decimal value |
| Formatting.PadStart2 | script.js:409 | padding makes a string at least two characters long, keeps its decimal value, and keeps a digit string a digit string |
| Formatting.PadStart2Layout | script.js:409 | padding only puts zeros in front: the original string is the tail of the result |
| Formatting.ClockOf | script.js:405-408 | minutes and seconds are below 60, and hours, minutes and seconds together are the elapsed whole seconds |
| Formatting.FormatTime | script.js:404-411 | the clock string is at least `HH:MM:SS` and exactly that when the hours are below 100; every character except the last two colons is a digit; the part before those colons reads as the hours, and the two-digit fields between and after them read as the minutes and seconds, both below 60 |
| Formatting.FormatTimeRoundTrip | script.js:404-411 | parsing the clock string back gives the elapsed whole seconds |
| Formatting.RenderedShape | script.js:410 | the rendered clock is at least eight characters, exactly eight below 100 hours, with its last two colons in place and digits everywhere else |
| Formatting.RenderedValues | script.js:410 | the three fields of the rendered clock read back as the clock's hours, minutes and seconds |
| Formatting.PaddedField | script.js:409 | a padded field is all digits, reads back as its number, and is two characters long below 100 |
| Formatting.FieldSlices | script.js:410 | in `h:mm:ss` the hours, minutes and seconds sit before, between and after the last two colons |
| Formatting.ClockLayout | script.js:410 | `h:mm:ss` has its colons in place and is digits everywhere else when its fields are digits |
| Formatting.ReplaceColons | script.js:415 | every colon becomes a hyphen and every other character is kept |
| Formatting.FormatDate | script.js:414-416 | the stamp is the first 19 characters of the ISO time with every colon made a hyphen, so it contains no colon |
| Recorder.GetScreenConstraints | script.js:145-173 | audio is always off and the frame rate passes through; width and height are set exactly for the tiers 1080p, 720p and 480p, with the tier's widths and the height named in the tier |
| Recorder.GetSupportedMimeType | script.js:328-343 | the result is the first supported format in preference order, or `video/webm` when none is supported |
| Recorder.FallbackUnsupported | script.js:328-343 | when no preference is supported, the fallback format is not supported either |
| Recorder.ChunksSizePositive | script.js:198-202 | a non-empty buffer of non-empty chunks has a non-zero size |
| Recorder.KeepLast | script.js:453 | `slice(-n)` keeps the last n entries, or all of them when there are fewer, and they are a suffix of the list |
| Recorder.Reverse | script.js:491-493 | helper for `SortChronological` (not itself in the source): reversal keeps the length and mirrors the positions |
| Recorder.InsertOldest | script.js:491-493 | a record older than all the others is placed last |
| Recorder.SortChronological | script.js:491-493 | sorting a list that is in date order reverses it |
| Recorder.TruncateReversed | script.js:453 | the first n entries of a reversed list are the last n entries, reversed |
| Recorder.TruncationRulesAgreeWhenChronological | script.js:450-459 | for a list in date order, the store's first ten of the newest-first list are the recorder's last ten, reversed |
| Recorder.ScreenRecorder.constructor | script.js:462-473 | the session starts idle with an empty buffer, and the list is the stored one or empty when storage holds nothing usable |
| Recorder.ScreenRecorder.StartRecording | script.js:178-232 | a denied capture changes nothing; if no format is supported the stream is taken but recording fails; otherwise the buffer is emptied and recording starts with an active encoder on the granted stream in the first supported format |
| Recorder.ScreenRecorder.StopRecording | script.js:235-261 | stops exactly when an encoder exists and recording is on, making the encoder inactive and dropping the stream; afterwards neither recording nor paused; otherwise nothing changes |
| Recorder.StopTwice | script.js:235-261 | of two stops in a row, the second never stops anything |
| Recorder.ScreenRecorder.TogglePause | script.js:264-276 | does nothing unless recording; otherwise flips the paused flag and suspends or resumes the encoder to match |
| Recorder.ScreenRecorder.OnDataAvailable | script.js:198-202 | a non-empty chunk is appended after the kept ones and an empty one is dropped |
| Recorder.ScreenRecorder.SaveRecording | script.js:346-371 | no blob exactly when the buffer is empty; otherwise a non-empty blob of all the chunks in order, in the first supported format or the fallback, named `recording-<stamp>.webm` |
| Recorder.ScreenRecorder.SaveToLocalStorage | script.js:428-447 | the new record is appended, the usage total grows by the blob's size, and storage then holds the last ten entries |
| Recorder.ScreenRecorder.SaveRecordingsToStorage | script.js:450-459 | an accepted write stores the last ten entries in insertion order, so never more than ten; a rejected one changes nothing |
| Recorder.ScreenRecorder.DeleteRecording | script.js:592-600 | without confirmation nothing changes; with it the list loses every entry with the id, usage never grows, and the last ten are written |
| Recorder.ScreenRecorder.ClearAllRecordings | script.js:603-611 | without confirmation nothing changes; with it the list is empty, usage is zero, and the empty list is written |
| Recorder.ScreenRecorder.GetStorageUsage | script.js:614-621 | the usage is the byte total and the count of the in-memory list |
| Recorder.ScreenRecorder.DisplayOrder | script.js:476-500 | entries are shown newest-first, as a permutation of the in-memory list |

## Left out

- Converting a blob to a data URL (`FileReader`): the payload and whether the read succeeded are parameters.
- Record ids and creation times from `Date.now()`, `Math.random()` and `new Date()`: these are parameters.
- The age sweep's one-week-ago cutoff: this comes from the clock and is a parameter.
- `formatFileSize` and the `size`, `formattedSize`, `usagePercentage` and `formattedRemainingSpace` fields: these are floating-point formatting. Only the integer fields are modelled.
- `isStorageAvailable` and `exportRecordings`: storage probing, file download and DOM access only.
- A stored value that parses to something other than an array of records: this is not modelled. Storage holds nothing, an unparsable value, or a list.
- `takeScreenshot`: canvas drawing and image encoding.
- Timers, preview wiring, the stream-ended hook, notifications, themes, settings, keyboard shortcuts, device enumeration, playback and download: these are browser UI. browser-check.js and server.py are not part of this model.
- Formatting.FormatTime: takes the elapsed time as a non-negative integer. A negative elapsed time, possible only if the clock goes backwards, is not modelled.
- Recorder.ScreenRecorder.StartRecording: a failure after the encoder is built (in `start`) is not modelled; only a refused capture and an unsupported format fail.
- Recorder.ScreenRecorder.SaveRecording: the automatic download is not modelled. The method returns the blob and file name that `saveToLocalStorage` is then given.
- Recorder.ScreenRecorder.SaveToLocalStorage: the asynchronous gap before the reader calls back is not modelled; the method runs as the callback.
