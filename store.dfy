/**
 * The slice of the append-only store (`embedded/store`), its B-tree index
 * (`embedded/tbtree`) and `db.Get` that the sorted-set layer consumes. Their
 * code is not part of this model: the store's state is abstracted to two maps,
 * and the index reader to the finite sequence of entries it yields.
 */
module Store {
  import opened Wrappers
  import opened ByteCodec

  /** The errors the sorted-set layer produces or passes on. */
  datatype Error =
    | ErrNoMoreEntries              // tbtree: the reader is exhausted (not a failure)
    | ErrIndexKeyMismatch           // database: the referenced key does not match
    | ErrTxNotFound(id: nat)        // store.ReadTx: no such transaction
    | ErrKeyNotFound                // store.ReadValue / db.Get: no such key
    | CommitFailed(cause: Error)    // "unexpected error %v during Reference"
    | NotSupported(operation: string)
    | Panic(reason: string)         // a Go runtime panic, surfaced as a value

  /** `schema.Item`: a key, its value and the id of the transaction that wrote it. */
  datatype Item = Item(key: Bytes, value: Bytes, index: nat)

  datatype KV = KV(key: Bytes, value: Bytes)

  /** The key/value pairs one transaction wrote. */
  type WriteSet = map<Bytes, Bytes>

  /**
   * What the sorted-set layer can observe of the store: `current[k]` is what
   * `db.Get(k)` returns (its key may differ from `k` when `Get` follows a
   * reference), and `txs[id]` is the write set `ReadTx(id)` loads.
   */
  datatype StoreView = StoreView(current: map<Bytes, Item>, txs: map<nat, WriteSet>)

  /** `db.Get`: the current item for `key`. */
  function Get(view: StoreView, key: Bytes): (r: Result<Item, Error>)
    ensures r.Success? <==> key in view.current
    ensures r.Success? ==> r.value == view.current[key]
  {
    if key in view.current then Success(view.current[key]) else Failure(ErrKeyNotFound)
  }

  /** `store.ReadTx`: loads the write set of transaction `id`. */
  function ReadTx(view: StoreView, id: nat): (r: Result<WriteSet, Error>)
    ensures r.Success? <==> id in view.txs
    ensures r.Success? ==> r.value == view.txs[id]
  {
    if id in view.txs then Success(view.txs[id]) else Failure(ErrTxNotFound(id))
  }

  /** `store.ReadValue`: the value a loaded transaction wrote for `key`. */
  function ReadValue(ws: WriteSet, key: Bytes): (r: Result<Bytes, Error>)
    ensures r.Success? <==> key in ws
    ensures r.Success? ==> r.value == ws[key]
  {
    if key in ws then Success(ws[key]) else Failure(ErrKeyNotFound)
  }

  /** The write set of a commit of `kvs`; a later pair for the same key wins. */
  function WriteSetOf(kvs: seq<KV>): (ws: WriteSet)
    ensures forall k :: k in ws <==> exists j :: 0 <= j < |kvs| && kvs[j].key == k
  {
    if kvs == [] then map[]
    else
      var init := kvs[..|kvs| - 1];
      var ws := WriteSetOf(init);
      var last := kvs[|kvs| - 1];
      assert forall k :: k in ws ==> exists j :: 0 <= j < |kvs| && kvs[j].key == k by {
        forall k | k in ws ensures exists j :: 0 <= j < |kvs| && kvs[j].key == k {
          var j :| 0 <= j < |init| && init[j].key == k;
          assert kvs[j].key == k;
        }
      }
      ws[last.key := last.value]
  }

  /** The last pair written under a key gives that key's value in the write set. */
  lemma {:induction false} WriteSetOfLastWins(kvs: seq<KV>, j: nat)
    requires j < |kvs|
    requires forall j' :: j < j' < |kvs| ==> kvs[j'].key != kvs[j].key
    ensures kvs[j].key in WriteSetOf(kvs) && WriteSetOf(kvs)[kvs[j].key] == kvs[j].value
    decreases |kvs|
  {
    var init := kvs[..|kvs| - 1];
    if j < |kvs| - 1 {
      assert kvs[|kvs| - 1].key != kvs[j].key;
      forall j' | j < j' < |init| ensures init[j'].key != init[j].key {
        assert init[j'] == kvs[j'];
      }
      WriteSetOfLastWins(init, j);
      assert init[j] == kvs[j];
    }
  }

  /** The view after transaction `id` commits `kvs`: every written key now reads as the new item. */
  function CommitView(view: StoreView, id: nat, kvs: seq<KV>): (v: StoreView)
    ensures v.txs == view.txs[id := WriteSetOf(kvs)]
    ensures v.current.Keys == view.current.Keys + WriteSetOf(kvs).Keys
    // a written key reads as the new item at `id`; any other key keeps its item
    ensures forall k :: k in v.current ==>
      v.current[k] == if k in WriteSetOf(kvs) then Item(k, WriteSetOf(kvs)[k], id) else view.current[k]
  {
    var ws := WriteSetOf(kvs);
    StoreView(view.current + map k | k in ws :: Item(k, ws[k], id), view.txs[id := ws])
  }

  /** Committing a single pair writes that pair alone and makes it the key's current item. */
  lemma CommitOne(view: StoreView, id: nat, kv: KV)
    ensures CommitView(view, id, [kv]) ==
      StoreView(view.current[kv.key := Item(kv.key, kv.value, id)], view.txs[id := map[kv.key := kv.value]])
  {
    assert WriteSetOf([kv]) == map[kv.key := kv.value];
  }

  /** One entry the index reader yields: a key, its value pointer, and the entry's index. */
  datatype Entry = Entry(key: Bytes, pointer: Bytes, index: nat)

  /**
   * Everything a reader will yield: its entries in order, then `stop` from every
   * further `Read` (`ErrNoMoreEntries` when the range is exhausted, any other
   * error when iteration fails).
   */
  datatype Stream = Stream(entries: seq<Entry>, stop: Error)

  /** `tbtree.ReaderSpec`. */
  datatype ReaderSpec = ReaderSpec(isPrefix: bool, initialKey: Bytes, ascOrder: bool)

  /** A snapshot of the index: opening a reader on it yields a stream or fails. */
  datatype Snapshot = Snapshot(reader: ReaderSpec -> Result<Stream, Error>)

  /** What `store.ReadValueAt` leaves in the buffer and the error it returns. */
  datatype ReadAt = ReadAt(data: Bytes, err: Option<Error>)

  /** `store.ReadValueAt(buffer of length, offset, hash)`. */
  type ValueLog = (nat, int, Bytes) -> ReadAt

  /** The stateful reader `snapshot.Reader` hands out. */
  class Reader {
    var remaining: seq<Entry>
    const stop: Error

    constructor (s: Stream)
      ensures remaining == s.entries && stop == s.stop
    {
      remaining := s.entries;
      stop := s.stop;
    }

    /** `reader.Read()`: the next entry, or the stop error once the entries are used up. */
    method Read() returns (r: Result<Entry, Error>)
      modifies this
      ensures old(remaining) == [] ==> r == Failure(stop) && remaining == []
      ensures old(remaining) != [] ==> r == Success(old(remaining)[0]) && remaining == old(remaining)[1..]
    {
      if remaining == [] {
        r := Failure(stop);
      } else {
        r := Success(remaining[0]);
        remaining := remaining[1..];
      }
    }
  }
}
