/**
 * The database object of pkg/database/sorted_set.go: the store state that
 * ZAdd changes, and the ZAdd, ZScan and SafeZAdd operations on it.
 */
module SortedSet {
  import opened Wrappers
  import opened ByteCodec
  import opened ValuePointers
  import opened Store
  import opened Common
  import opened SortedSetSpec

  /** `schema.SafeZAddOptions`: a ZAdd request plus the root the client last verified. */
  datatype SafeZAddOptions = SafeZAddOptions(zAdd: ZAddOptions, rootIndex: nat)

  /**
   * The body of ZScan's loop up to the range guard, for entry `n` of a stream
   * whose entries resolve as `rs`: decodes the entry's value pointer, reads
   * the reference it points at and resolves it against the live store. Unlike
   * the code as written, a `ReadValueAt` error is returned and an entry whose
   * key lacks the separator comes back as `NotInSet` (see SortedSetAsWritten).
   */
  method ResolveIndexEntry(ctx: ScanContext, e: Entry, ghost es: seq<Entry>, ghost rs: seq<Resolution>, ghost n: nat) returns (res: Resolution)
    requires ResolvedAs(ctx, es, rs) && n < |es| && e == es[n]
    ensures res == rs[n]
  {
    assert ResolveEntry(ctx, es[n]) == rs[n];
    var decoded := DecodePointer(e.pointer);
    if decoded.None? {
      return Failed(Panic("index out of range decoding the value pointer"));
    }
    var p := decoded.value;
    var refVal := ctx.valueLog(p.length, AsInt64(p.offset), p.hash);
    if refVal.err.Some? {
      return Failed(refVal.err.value);
    }
    if !HasPrefix(e.key, ctx.codecs.separator) {
      return NotInSet;
    }

    var ref := ctx.codecs.unwrapIndexReference(refVal.data);
    var item: Item;
    if ref.flag == 1 {
      var tx := ReadTx(ctx.view, ref.index);
      if tx.Failure? {
        return Failed(tx.error);
      }
      var val := ReadValue(tx.value, ref.key);
      if val.Failure? {
        return Failed(val.error);
      }
      item := Item(ref.key, val.value, ref.index);
    } else {
      var got := Get(ctx.view, ref.key);
      if got.Failure? {
        return Failed(got.error);
      }
      item := got.value;
    }
    res := Resolved(ZItem(item, ctx.codecs.setKeyScore(e.key, ctx.opts.setName), e.key, e.index));
  }

  /**
   * ZScan's loop: reads entries until the reader is exhausted, an entry
   * fails, or `limit` items are collected; entries outside the set or the
   * score range are skipped without counting. `rs` is how the reader's
   * entries resolve (a ghost view of what the loop body will compute).
   */
  method ReadItems(reader: Reader, ctx: ScanContext, limit: nat, ghost rs: seq<Resolution>) returns (r: Result<seq<ZItem>, Error>)
    requires limit >= 1 && ResolvedAs(ctx, reader.remaining, rs)
    modifies reader
    ensures r == ScanResolutions(ctx.opts, rs, reader.stop, limit)
  {
    var items: seq<ZItem> := [];
    var i: nat := 0;

    var o := ctx.opts;
    ghost var es := reader.remaining;
    ghost var stop := reader.stop;
    ghost var n := 0;
    ghost var total := ScanResolutions(o, rs, stop, limit);
    assert rs[n..] == rs;
    PrefixedNothing(total);
    while true
      invariant n <= |es| && reader.remaining == es[n..]
      invariant i == |items| < limit
      invariant total == Prefixed(items, ScanResolutions(o, rs[n..], stop, limit - i))
      decreases |reader.remaining|
    {
      var read := reader.Read();
      if read.Failure? {
        ScanExhausted(o, rs, stop, limit, items);
        if read.error == ErrNoMoreEntries {
          break;
        }
        return Failure(read.error);
      }
      var e := read.value;
      assert e == es[n];
      var res := ResolveIndexEntry(ctx, e, es, rs, n);
      assert res == rs[n];
      ScanAdvance(o, rs, stop, limit, n, items);
      n := n + 1;

      if res.Failed? {
        return Failure(res.error);
      }
      if res.NotInSet? {
        continue;
      }
      var zitem := res.zitem;
      // the range guard
      if o.min.Some? && zitem.score < o.min.value {
        continue;
      }
      if o.max.Some? && zitem.score > o.max.value {
        continue;
      }
      items := items + [zitem];
      i := i + 1;
      if i == limit {
        break;
      }
    }
    assert total == Success(items);
    r := Success(items);
  }

  class DB {
    /** What `db.Get` returns for each key. */
    var current: map<Bytes, Item>
    /** The write set of every committed transaction, by id. */
    var txs: map<nat, WriteSet>
    /** The id of the latest commit (0 before the first). */
    var lastTx: nat
    /** The accumulated linear hash (`alh`) after the latest commit. */
    var alh: Bytes
    /** The byte layouts of `pkg/common`. */
    const codecs: Codecs
    /** How the store folds a commit into the accumulated hash (its digest is not modelled). */
    const accumulate: (Bytes, nat, seq<KV>) -> Bytes

    ghost predicate Valid()
      reads this
    {
      && (forall id :: id in txs ==> 1 <= id <= lastTx)
      && (forall k :: k in current ==> current[k].index in txs)
    }

    function View(): StoreView
      reads this
    {
      StoreView(current, txs)
    }

    /** An empty store. */
    constructor (codecs: Codecs, accumulate: (Bytes, nat, seq<KV>) -> Bytes, genesis: Bytes)
      ensures Valid()
      ensures current == map[] && txs == map[] && lastTx == 0 && alh == genesis
      ensures this.codecs == codecs && this.accumulate == accumulate
    {
      this.current := map[];
      this.txs := map[];
      this.lastTx := 0;
      this.alh := genesis;
      this.codecs := codecs;
      this.accumulate := accumulate;
    }

    /**
     * `store.Commit`: appends one transaction writing `kvs`, or fails with
     * `fault` (the store's own failure, which this model takes as given) and
     * changes nothing. A new transaction gets an id above every earlier one.
     */
    method Commit(kvs: seq<KV>, fault: Option<Error>) returns (r: Result<(nat, Bytes), Error>)
      requires Valid()
      modifies this
      ensures Valid()
      ensures fault.Some? ==> r == Failure(fault.value) && unchanged(this)
      ensures fault.None? ==>
        && lastTx == old(lastTx) + 1
        && (forall id :: id in old(txs) ==> id < lastTx)
        && View() == CommitView(old(View()), lastTx, kvs)
        && alh == accumulate(old(alh), lastTx, kvs)
        && r == Success((lastTx, alh))
    {
      if fault.Some? {
        return Failure(fault.value);
      }
      var id := lastTx + 1;
      var ws := WriteSetOf(kvs);
      ghost var before := current;
      current := current + map k | k in ws :: Item(k, ws[k], id);
      txs := txs[id := ws];
      lastTx := id;
      forall k | k in current ensures current[k].index in txs {
        if k !in ws {
          assert current[k] == before[k];
        }
      }
      alh := accumulate(alh, id, kvs);
      r := Success((id, alh));
    }

    /**
     * ZAdd: validates the member (always with the persistence check), then
     * commits exactly one pair, composite key to reference, and returns the new
     * transaction id and accumulated hash. A commit failure is wrapped.
     */
    method ZAdd(o: ZAddOptions, commitFault: Option<Error>) returns (r: Result<Root, Error>)
      requires Valid()
      modifies this
      ensures Valid()
      ensures var kv := SortedSetKeyVal(old(View()), codecs, o, false);
        && (kv.Failure? ==> r == Failure(kv.error) && unchanged(this))
        && (kv.Success? && commitFault.Some? ==> r == Failure(CommitFailed(commitFault.value)) && unchanged(this))
        && (kv.Success? && commitFault.None? ==>
              && r == Success(Root(lastTx, alh))
              && lastTx == old(lastTx) + 1
              && txs == old(txs)[lastTx := map[kv.value.key := kv.value.value]]
              && current == old(current)[kv.value.key := Item(kv.value.key, kv.value.value, lastTx)]
              && alh == accumulate(old(alh), lastTx, [kv.value]))
      ensures r.Success? ==> forall id :: id in old(txs) ==> id < r.value.index
    {
      var kv := SortedSetKeyVal(View(), codecs, o, false);
      if kv.Failure? {
        return Failure(kv.error);
      }
      CommitOne(View(), lastTx + 1, kv.value);
      var committed := Commit([kv.value], commitFault);
      if committed.Failure? {
        return Failure(CommitFailed(committed.error));
      }
      r := Success(Root(committed.value.0, committed.value.1));
    }

    /**
     * ZScan: picks the start key, opens a reader on the snapshot and collects
     * the items (`ReadItems`). `snap` is what `Snapshot()` gives, `log` what
     * `ReadValueAt` reads.
     */
    method ZScan(o: ZScanOptions, snap: Result<Snapshot, Error>, log: ValueLog) returns (r: Result<seq<ZItem>, Error>)
      ensures r == ZScanSpec(View(), codecs, o, snap, log)
    {
      var offsetKey := codecs.wrapSeparatorToSet(o.setName);
      if o.min.Some? && !o.reverse {
        offsetKey := codecs.appendScoreToSet(o.setName, o.min.value);
      }
      if o.max.Some? && o.reverse {
        offsetKey := codecs.appendScoreToSet(o.setName, o.max.value);
      }
      if |o.offset| > 0 {
        offsetKey := o.offset;
      }
      assert offsetKey == StartKey(codecs, o);

      if snap.Failure? {
        return Failure(snap.error);
      }
      var readerOrErr := snap.value.reader(ReaderSpec(true, offsetKey, o.reverse));
      if readerOrErr.Failure? {
        return Failure(readerOrErr.error);
      }
      var reader := new Reader(readerOrErr.value);

      var limit: nat := o.limit;
      if limit == 0 {
        limit := MaxUint64;
      }
      var ctx := ScanContext(View(), codecs, o, log);
      ResolutionsResolve(ctx, reader.remaining);
      r := ReadItems(reader, ctx, limit, Resolutions(ctx, reader.remaining));
    }

    /** SafeZAdd is declared but not implemented: it always fails. */
    method SafeZAdd(o: SafeZAddOptions) returns (r: Result<(), Error>)
      ensures r == Failure(NotSupported("SafeZAdd"))
    {
      r := Failure(NotSupported("SafeZAdd"));
    }
  }
}
