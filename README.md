# immudb sorted sets, modelled in Dafny

This project models the sorted-set layer of immudb (`pkg/database/sorted_set.go`) and proves properties of it.

- **ZAdd** validates that a member key exists, either in a pinned transaction or as the current value under exactly that key. It then commits one pair: the composite set key, mapped to a reference to the member. It returns the new transaction id and the accumulated hash.
- **ZScan** picks a start key, reads index entries from a snapshot reader, and processes each entry in turn:
  - decodes the entry's value pointer;
  - reads the stored reference from the value log;
  - resolves the reference, pinned or current;
  - filters the result by the Min/Max score range;
  - stops at the limit.
- **SafeZAdd** is not implemented and always fails.

The project also models the typed SQL values of `pkg/api/schema`: the `Equal` comparison and the `RawValue` unwrapping, as `TestRowComparison` fixes them.

Modules:

- `Wrappers`: `Option` and `Result`.
- `ByteCodec`: bytes, big-endian integers and prefixes.
- `ValuePointers`: the 4+8+32-byte value pointer of the index, and Go's `int64(uint64)` conversion.
- `Store`: an abstract store.
  - It exposes what the sorted-set code calls: `Get`, `ReadTx`, `ReadValue`, `Commit`, and a stateful `Reader` over a snapshot.
  - It keeps a map of current items and a map from transaction id to write set.
- `Common`: the byte layouts of `pkg/common`.
  - They are uninterpreted functions in a `Codecs` value.
  - Their round-trip laws are stated as labelled hypotheses and never assumed globally.
- `SortedSetSpec`: the specification functions and the lemmas about them.
  - `SortedSetKeyVal` models `getSortedSetKeyVal`.
  - `StartKey` gives the start key.
  - `ResolveEntry` gives what one scanned entry resolves to.
  - `ScanResolutions` gives the result of a scan over the entries' resolutions.
  - `Kept` and `Take` give a reference definition of a scan: filter, then truncate.
- `SortedSet`: the database object and its methods, each proved against `SortedSetSpec`.
  - The class `DB` has `Commit`, `ZAdd`, `ZScan` and `SafeZAdd`.
  - ZScan's loop is `ReadItems`, and the loop body is `ResolveIndexEntry`.
- `SortedSetAsWritten`: ZScan's loop body exactly as the code writes it, next to the corrected behaviour that the rest of the model uses (see Findings).
- `RowValue`: `SQLValue`, `Equal`, `RawValue`.

Behaviour of the code that the model keeps as written:

- The reader is opened with `AscOrder` set to the request's `Reverse` flag, verbatim (`ReaderSpec.ascOrder == o.reverse`).
- References are resolved against the live store (`d.Get`, `d.st.ReadTx`), not the snapshot. In the model, the `StoreView` of the database is read at the time of the scan.
- With no pin, a `Get` that returns an item under a different key is rejected with `ErrIndexKeyMismatch`. No pin is stored in the key or in the reference.
- A `StoreView` may map a key to an item under another key (as `Get` does when it follows a reference), and the lemmas about `Get` and `SortedSetKeyVal` hold for any view. The `DB` class, however, only ever writes `Item(k, v, id)` under `k`, so a `DB` built by `Commit` and `ZAdd` alone never reaches the unpinned `ErrIndexKeyMismatch` branch; only an arbitrary `StoreView` does. References stored by `ZAdd` are not followed by `Get` in this model.

## Model

| member | source | states |
|---|---|---|
| ByteCodec.DecodeEncodeBE | pkg/database/sorted_set.go:99-100 | decoding the `width`-byte big-endian encoding of any `n < 256^width` gives back `n` |
| ByteCodec.EncodeDecodeBE | pkg/database/sorted_set.go:99-100 | every byte string is the big-endian encoding, at its own width, of the number it decodes to |
| ByteCodec.DecodeBE | pkg/database/sorted_set.go:99-100 | the number an `n`-byte big-endian field denotes is below 256^n, so a 4-byte length fits 32 bits and an 8-byte offset 64 bits |
| ByteCodec.HasPrefixMeaning | pkg/database/sorted_set.go:112 | `bytes.HasPrefix(s, p)` holds exactly of strings that are `p` followed by something: `p + t` has prefix `p`, and a string with prefix `p` is `p` plus its rest |
| ValuePointers.DecodePointer | pkg/database/sorted_set.go:99-103 | decoding fails (Go's index-out-of-range panic) exactly when fewer than 12 bytes are present; otherwise the length fits 32 bits, the offset 64 bits and the hash is 32 bytes |
| ValuePointers.CopyHash | pkg/database/sorted_set.go:102-103 | the hash is 32 bytes: the value's bytes from offset 12 on, truncated or zero-padded as `copy` into a zeroed array leaves them |
| ValuePointers.DecodeEncodePointer | pkg/database/sorted_set.go:99-103 | every well-formed pointer survives encoding then decoding |
| ValuePointers.EncodeDecodePointer | pkg/database/sorted_set.go:99-103 | every 44-byte value is the encoding of the pointer it decodes to |
| ValuePointers.AsInt64 | pkg/database/sorted_set.go:106 | `int64(vOff)` is the signed 64-bit value congruent to the offset: unchanged below 2^63, minus 2^64 from 2^63 on |
| Store.Get | pkg/database/sorted_set.go:196-199 | succeeds exactly when the key has a current item, and returns that item (whose key may differ from the one asked for) |
| Store.ReadTx | pkg/database/sorted_set.go:181-183 | succeeds exactly when the transaction exists, and returns its write set |
| Store.ReadValue | pkg/database/sorted_set.go:185-187 | succeeds exactly when the write set holds the key, and returns its value |
| Store.WriteSetOf | pkg/database/sorted_set.go:26 | a commit's write set holds exactly the keys of the committed pairs |
| Store.WriteSetOfLastWins | pkg/database/sorted_set.go:26 | the value a write set holds under a key is that of the last pair written under it |
| Store.CommitView | pkg/database/sorted_set.go:26 | a commit records its write set under its id; every written key now reads as `Item(k, ws[k], id)`, and every other key keeps its item |
| Store.CommitOne | pkg/database/sorted_set.go:26 | committing one pair records that pair alone and makes it its key's current item, at the new id |
| Store.Reader.Read | pkg/database/sorted_set.go:91-97 | each read yields the next entry of the stream and consumes it; once the stream is exhausted, every read returns the stream's stop error |
| SortedSetSpec.SortedSetKeyVal | pkg/database/sorted_set.go:174-213 | a pinned member: a missing tx gives the ReadTx error, and a key absent from that tx gives `ErrIndexKeyMismatch` (both skipped when `skipPersistenceCheck`). An unpinned member: a missing key gives the Get error, and a current item under another key gives `ErrIndexKeyMismatch`. Once the target validates, a nil `Score` is a nil-pointer panic. Success happens exactly when the target validates and a score is given, and the pair is then (`BuildSetKey(key, set, score, pin)`, `WrapIndexReference(key, pin)`), with the pin as supplied |
| SortedSetSpec.EffectiveLimit | pkg/database/sorted_set.go:84-88 | a limit of 0 means `MaxUint64`; any other limit is kept; the result is between 1 and `MaxUint64` |
| SortedSetSpec.StartKey | pkg/database/sorted_set.go:49-64 | the client's offset, when given, overrides both bounds; otherwise an ascending scan starts at Min's score key (or the wrapped set) whatever Max is, and a descending scan at Max's (or the wrapped set) whatever Min is |
| SortedSetSpec.InRange | pkg/database/sorted_set.go:144-150 | the guard keeps exactly the scores in the closed interval [Min, Max], an end that is not given imposing nothing |
| SortedSetSpec.Resolve | pkg/database/sorted_set.go:114-132 | flag 1 succeeds exactly when the pinned tx exists and wrote the key, and yields {refKey, that value, refIndex}; a missing tx gives `ErrTxNotFound`. Any other flag succeeds exactly when `Get(refKey)` does, and yields its item |
| SortedSetSpec.ResolveEntryMeaning | pkg/database/sorted_set.go:99-142 | a short pointer panics; a failed reference read aborts with its error; an entry is outside the set exactly when its pointer decodes, the read succeeds and its key lacks the separator; an entry that has the separator and reads cleanly is resolved exactly when its reference resolves, and otherwise fails with the resolution's error; a resolved item carries the entry's raw key as `CurrentOffset`, the entry's index, the score read from the key, and the item the reference resolves to |
| SortedSetSpec.ResolveEntry | pkg/database/sorted_set.go:99-142 | only an entry whose key carries the sorted-set separator resolves, and its item has that key as its cursor and the entry's index |
| SortedSetSpec.ResolutionAt | pkg/database/sorted_set.go:90-142 | the `k`th resolution of a stream is that of its `k`th entry |
| SortedSetSpec.ResolutionsResolve | pkg/database/sorted_set.go:90-142 | the resolutions of a stream are how its entries resolve, position by position |
| SortedSetSpec.ScanResolutions | pkg/database/sorted_set.go:90-160 | a successful scan never returns more items than the budget, and every returned score lies in [Min, Max] where those are given |
| SortedSetSpec.ScanStep | pkg/database/sorted_set.go:112-155 | one entry's effect on the rest of the scan: a failure aborts, an entry that is not kept is skipped without using budget, and a kept entry is taken, ending the scan when the budget reaches 1 |
| SortedSetSpec.ScanAdvance | pkg/database/sorted_set.go:90-155 | the same step, seen from a loop that has already collected `items` |
| SortedSetSpec.ScanExhausted | pkg/database/sorted_set.go:91-97 | at the end of the stream, `ErrNoMoreEntries` returns the items collected so far, and any other reader error aborts with that error |
| SortedSetSpec.ScanIsTakeOfKept | pkg/database/sorted_set.go:144-155 | a successful scan returns exactly the first `limit` kept items (resolved, in range), in yield order |
| SortedSetSpec.ScanCompletes | pkg/database/sorted_set.go:90-94 | with no failing entry and a normal end of stream, the scan succeeds with the first `limit` kept items |
| SortedSetSpec.ScanReachesStreamEnd | pkg/database/sorted_set.go:90-97 | with no failing entry and the page not full, the scan reaches the reader's end: `ErrNoMoreEntries` returns every kept item, and any other reader error aborts the scan with that error and no items |
| SortedSetSpec.ScanAbortsAtFirstFailure | pkg/database/sorted_set.go:118-131 | the first failing entry, if reached before the limit, aborts the scan with its error, whatever follows |
| SortedSetSpec.ScanFailureCause | pkg/database/sorted_set.go:95-97 | a failed scan failed with some entry's error, or with a reader error other than `ErrNoMoreEntries` |
| SortedSetSpec.FullPageIgnoresRest | pkg/database/sorted_set.go:152-155 | once the limit is reached, later entries and the way the stream ends make no difference |
| SortedSetSpec.KeptProvenance | pkg/database/sorted_set.go:144-153 | every kept item is the resolution of some entry and lies in range |
| SortedSetSpec.KeptCursorsOrdered | pkg/database/sorted_set.go:135-142 | kept items keep the order of the positions they come from |
| SortedSetSpec.KeptPreservesOrder | pkg/database/sorted_set.go:135-142 | if the reader yields keys in some order, the kept items' (resolved and in range) `CurrentOffset`s come in that order |
| SortedSetSpec.ScanPreservesOrder | pkg/database/sorted_set.go:90-155 | if the reader yields keys in some order, the items of a successful scan have their `CurrentOffset`s in that order |
| SortedSetSpec.PinnedResolutionIgnoresLaterCommits | pkg/database/sorted_set.go:117-125 | a pinned reference resolves to the same item after any later commit |
| SortedSetSpec.UnpinnedResolutionFollowsLatest | pkg/database/sorted_set.go:126-131 | an unpinned reference resolves to the value most recently committed under its key |
| SortedSetSpec.ValidatedReferenceResolves | pkg/database/sorted_set.go:174-213 | assuming the reference layout round-trips, ZAdd's validation accepts a member with a score exactly when the stored reference would resolve to an item under the member's own key; a pinned member resolves to the value its tx wrote |
| SortedSetSpec.ValidationSurvivesCommit | pkg/database/sorted_set.go:19-37 | a member that validates still validates, with the same key/value pair, after any commit at a new transaction id, such as the one ZAdd makes |
| SortedSetSpec.AddedMemberResolves | pkg/database/sorted_set.go:207-210 | if the reference layout round-trips, composite keys carry the separator and the score reads back from the added key, an index entry for an added member whose pointer reads back the stored reference resolves to that member's item, with the score it was added with |
| SortedSet.ResolveIndexEntry | pkg/database/sorted_set.go:99-142 | the loop body up to the range guard computes the entry's resolution |
| SortedSet.ReadItems | pkg/database/sorted_set.go:81-160 | the loop returns the scan of the reader's entries from its current position: the error at the first failure, otherwise the kept items up to the limit, followed by the reader's end (`ErrNoMoreEntries` gives success) |
| SortedSet.DB.Commit | pkg/database/sorted_set.go:26 | a successful commit takes the next id, above every existing one, applies `CommitView` and extends the accumulated hash; a failure changes nothing |
| SortedSet.DB.ZAdd | pkg/database/sorted_set.go:19-37 | validates with the persistence check on; a validation error is returned and changes nothing; a commit error is wrapped and changes nothing; success commits exactly the one pair and returns the new tx id (above every earlier id) and hash |
| SortedSet.DB.ZScan | pkg/database/sorted_set.go:40-163 | the start key is the client's offset if given, else Min when ascending, else Max when descending, else the wrapped set; snapshot and reader errors are returned; the result is the scan of the reader's stream with the effective limit |
| SortedSetSpec.ZScanSpec | pkg/database/sorted_set.go:40-163 | snapshot and reader errors are returned unchanged; a successful page holds at most `limit` items (any number for 0), each within [Min, Max] |
| SortedSet.DB.SafeZAdd | pkg/database/sorted_set.go:166-169 | always fails with "not supported" |
| SortedSetAsWritten.StepAsWritten | pkg/database/sorted_set.go:99-155 | as written, one pass appends a nil item exactly when the pointer decodes, the key lacks the separator and neither Min nor Max is given; an item it appends is in range and has the entry's key and index |
| SortedSetAsWritten.AsWrittenAgreesWithCorrected | pkg/database/sorted_set.go:99-155 | where the key has the separator and the read succeeds, the loop body as written does what the corrected one does |
| SortedSetAsWritten.NilItemAppendedWithoutBounds | pkg/database/sorted_set.go:112-155 | as written, with no Min or Max, an entry whose key lacks the separator appends a nil item; corrected, it is skipped |
| SortedSetAsWritten.NilItemDereferencedWithBound | pkg/database/sorted_set.go:144-150 | as written, with Min or Max, such an entry dereferences the nil item; corrected, it is skipped |
| SortedSetAsWritten.IntegrityErrorIgnored | pkg/database/sorted_set.go:105-106 | as written, a `ReadValueAt` error has no effect at all; corrected, it aborts the scan |
| SortedSetAsWritten.NilItemExample | pkg/database/sorted_set.go:62-64 | with a client offset "a", the entry with key "a" yields a nil item as written, and is outside the set when corrected |
| SortedSetAsWritten.ScanSteps | pkg/database/sorted_set.go:90-160 | the loop as written never returns more items than the limit |
| SortedSetAsWritten.ScanStepsOfCorrected | pkg/database/sorted_set.go:90-160 | run over the corrected steps, the loop as written returns the corrected scan, with every item present |
| SortedSetAsWritten.AsWrittenScanAgrees | pkg/database/sorted_set.go:90-160 | where every key has the separator and every read succeeds, the whole scan as written equals the corrected scan |
| RowValue.Equal | pkg/api/schema/row_value_test.go:36-81 | errors (`ErrNotComparableValues`) exactly for two non-null values of different variants; otherwise true exactly when the values are equal, so Null equals only Null and is never an error |
| RowValue.EqualSymmetric | pkg/api/schema/row_value_test.go:40-44 | comparing in either direction gives the same result, errors included |
| RowValue.RawValue | pkg/api/schema/row_value_test.go:83-102 | nil exactly for a nil value or Null; otherwise the payload, which wraps back into the same value |
| RowValue.RawValueOfFromRaw | pkg/api/schema/row_value_test.go:89-102 | every payload is the raw value of the value it wraps into |
| RowValue.RowComparisonCases | pkg/api/schema/row_value_test.go:25-103 | every comparison and unwrapping the test asserts holds of the model |

## Left out

- Store internals are not modelled: the B-tree, the value log's layout, `Snapshot`, `Reader`, `ReadTx`, `ReadValue`, `ReadValueAt` and `d.Get` are abstract maps, streams and parameters. What a snapshot reader yields is a given stream. `ReadValueAt` is a function parameter (`ValueLog`), and a commit's failure is a parameter.
- SHA-256 content verification is not modelled. The hash is only carried to `ReadValueAt`, and an integrity failure is any error that call reports.
- The accumulated hash (`alh`) is a function parameter (`accumulate`); its digest is not modelled.
- Snapshot isolation, the `defer Close` of snapshot and reader, and concurrency on the shared `d.tx` buffer are not modelled.
- The B-tree's key order and prefix filtering are not modelled. The order lemma holds for whatever order the reader yields.
- The `pkg/common` byte layouts are uninterpreted. Their laws appear only as hypotheses: `ReferenceRoundTrips`, `SetKeysCarrySeparator`, and, for the one key `AddedMemberResolves` is about, that the score reads back from it. A score round-trip for every real score is not stated, since no encoding of the reals into byte strings can be one-to-one. Order preservation of the score encoding is not claimed.
- Scores are real numbers. IEEE-754 NaN, infinities and signed zero are not modelled, so nothing is said about a NaN score slipping through the range guard.
- The set/offset validation at lines 41-47 is commented out in the code and is not modelled.
- The caller that passes `skipPersistenceCheck == true` (batched operations) is not part of this model. `SortedSetKeyVal` models both branches.
- The text of the wrapped commit error (`fmt.Errorf`) is reduced to `CommitFailed(cause)`. `SafeZAdd`'s proof type is not modelled, since it is never produced.
- Go panics (a pointer shorter than 12 bytes, a nil `zitem`, a nil `ZAddOptions.Score`) are modelled as `Panic` error values, not as aborting the process.
- SortedSet.DB.ZAdd: `Root` holds only the index and the hash; the `Payload` wrapper of `schema.Root` is not modelled.
- RowValue.Equal: only `TestRowComparison` fixes its behaviour. Null against a non-null value is modelled as "not equal, no error", though the test checks only `equals == false` there. A nil blob and an empty blob are the same value here.
- RowValue.RawValue: `N` is modelled as `uint64`, following the test's `uint64(1)`; the Go type of the other payloads is only their variant here.

## Findings

| source | as written | input that shows it | evidently intended | confidence | as-written member | corrected member |
|---|---|---|---|---|---|---|
| pkg/database/sorted_set.go:105-106 | the error returned by `ReadValueAt` is assigned to `err` and never checked, so the reference is decoded from whatever the buffer holds | an index entry whose value fails the value log's hash check, so `ReadValueAt` returns an error | return that error and stop the scan | medium, not executed | SortedSetAsWritten.IntegrityErrorIgnored | SortedSetSpec.ResolveEntryMeaning |
| pkg/database/sorted_set.go:112-155 | when the entry's key lacks the sorted-set separator, `item` and `zitem` stay nil. With Min or Max given, the guard dereferences the nil `zitem`; otherwise a nil item is appended | `ZScan` with `Offset = "a"`, no Min and no Max, over a store holding the key "a": the reader's prefix is "a", and the entry yields a nil item | skip entries outside the sorted-set keyspace | medium, not executed | SortedSetAsWritten.NilItemExample | SortedSetSpec.ResolveEntryMeaning |
