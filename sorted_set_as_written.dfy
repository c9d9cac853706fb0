/**
 * ZScan's loop body exactly as pkg/database/sorted_set.go writes it (lines
 * 99-155), next to the corrected behaviour of SortedSetSpec.ResolveEntry that
 * the rest of the model uses. Two things differ:
 *
 *  - the error `ReadValueAt` returns is assigned and never looked at, so a
 *    reference read that fails its integrity check is still decoded and
 *    resolved from whatever the buffer holds;
 *  - for an entry whose key lacks the sorted-set separator `item` stays nil,
 *    so `zitem` stays nil: with a Min or Max filter the guard dereferences it
 *    (a nil-pointer panic), and without one the nil item is appended.
 *
 * An entry whose key lacks the separator does reach the loop: the reader's
 * prefix is the start key, and a client-supplied `Offset` becomes the start
 * key unchanged.
 */
module SortedSetAsWritten {
  import opened Wrappers
  import opened ByteCodec
  import opened ValuePointers
  import opened Store
  import opened Common
  import opened SortedSetSpec

  /** What one pass of the loop does: return an error, `continue`, or append (a possibly nil) item. */
  datatype Step = Abort(error: Error) | Skip | Append(zitem: Option<ZItem>)

  /** One pass of the loop as written. */
  function StepAsWritten(ctx: ScanContext, e: Entry): (step: Step)
    // a nil item comes only from a key outside the sorted-set keyspace, and only without bounds
    ensures step.Append? && step.zitem.None? <==>
      DecodePointer(e.pointer).Some? && !HasPrefix(e.key, ctx.codecs.separator) &&
      ctx.opts.min.None? && ctx.opts.max.None?
    // an item that is present is in range and has the entry's key as its cursor
    ensures step.Append? && step.zitem.Some? ==>
      InRange(ctx.opts, step.zitem.value.score) && step.zitem.value.currentOffset == e.key &&
      step.zitem.value.index == e.index
  {
    match DecodePointer(e.pointer)
    case None => Abort(Panic("index out of range decoding the value pointer"))
    case Some(p) =>
      // the error of ReadValueAt is dropped here
      var read := ReadReferenceValue(ctx, p);
      if !HasPrefix(e.key, ctx.codecs.separator) then
        // item, and so zitem, stay nil
        if ctx.opts.min.Some? || ctx.opts.max.Some? then Abort(Panic("nil pointer dereference of zitem"))
        else Append(None)
      else
        match Resolve(ctx.view, ctx.codecs, read.data)
        case Failure(err) => Abort(err)
        case Success(item) =>
          var z := ZItem(item, ctx.codecs.setKeyScore(e.key, ctx.opts.setName), e.key, e.index);
          if InRange(ctx.opts, z.score) then Append(Some(z)) else Skip
  }

  /** What one pass of the corrected loop does with an entry that resolves as `r`. */
  function CorrectedStep(o: ZScanOptions, r: Resolution): Step
  {
    match r
    case Failed(err) => Abort(err)
    case NotInSet => Skip
    case Resolved(z) => if InRange(o, z.score) then Append(Some(z)) else Skip
  }

  /** The same context with a value log that reads the same bytes but reports no error. */
  function WithoutReadErrors(ctx: ScanContext): ScanContext
  {
    ctx.(valueLog := (length: nat, offset: int, hash: Bytes) => ReadAt(ctx.valueLog(length, offset, hash).data, None))
  }

  /** The entry's value pointer decodes and its reference reads back without error. */
  predicate ReadsCleanly(ctx: ScanContext, e: Entry)
  {
    DecodePointer(e.pointer).Some? && ReadReferenceValue(ctx, DecodePointer(e.pointer).value).err.None?
  }

  /**
   * Where the key carries the separator and the read succeeds, the loop as
   * written and the corrected loop do the same thing.
   */
  lemma AsWrittenAgreesWithCorrected(ctx: ScanContext, e: Entry)
    requires DecodePointer(e.pointer).None? || (ReadsCleanly(ctx, e) && HasPrefix(e.key, ctx.codecs.separator))
    ensures StepAsWritten(ctx, e) == CorrectedStep(ctx.opts, ResolveEntry(ctx, e))
  {
  }

  /**
   * Finding: with no Min and no Max, an entry outside the sorted-set keyspace
   * puts a nil item into the result, where the corrected loop skips it.
   */
  lemma NilItemAppendedWithoutBounds(ctx: ScanContext, e: Entry)
    requires ReadsCleanly(ctx, e) && !HasPrefix(e.key, ctx.codecs.separator)
    requires ctx.opts.min.None? && ctx.opts.max.None?
    ensures StepAsWritten(ctx, e) == Append(None)
    ensures ResolveEntry(ctx, e) == NotInSet && CorrectedStep(ctx.opts, ResolveEntry(ctx, e)) == Skip
  {
  }

  /**
   * Finding: with a Min or a Max, the same entry makes the guard dereference
   * the nil item, where the corrected loop skips it.
   */
  lemma NilItemDereferencedWithBound(ctx: ScanContext, e: Entry)
    requires ReadsCleanly(ctx, e) && !HasPrefix(e.key, ctx.codecs.separator)
    requires ctx.opts.min.Some? || ctx.opts.max.Some?
    ensures StepAsWritten(ctx, e).Abort? && StepAsWritten(ctx, e).error.Panic?
    ensures CorrectedStep(ctx.opts, ResolveEntry(ctx, e)) == Skip
  {
  }

  /**
   * Finding: the error `ReadValueAt` reports has no effect on the loop as
   * written, which behaves exactly as if the read had succeeded with the same
   * bytes; the corrected loop stops with that error.
   */
  lemma IntegrityErrorIgnored(ctx: ScanContext, e: Entry)
    requires DecodePointer(e.pointer).Some?
    requires ReadReferenceValue(ctx, DecodePointer(e.pointer).value).err.Some?
    ensures StepAsWritten(ctx, e) == StepAsWritten(WithoutReadErrors(ctx), e)
    ensures ResolveEntry(ctx, e) == Failed(ReadReferenceValue(ctx, DecodePointer(e.pointer).value).err.value)
  {
  }

  /** A concrete instance of the first finding: the key "a" under a client offset "a", no bounds. */
  lemma NilItemExample()
    ensures var c := Codecs([0], (s: Bytes) => [0] + s, (s: Bytes, x: Score) => [0] + s,
                            (k: Bytes, s: Bytes, x: Score, i: Option<nat>) => [0] + s + k,
                            (k: Bytes, s: Bytes) => 0.0,
                            (k: Bytes, i: Option<nat>) => k,
                            (v: Bytes) => Reference(v, 0, 0));
      var o := ZScanOptions([1], None, None, [97], 0, false);
      var ctx := ScanContext(StoreView(map[], map[]), c, o, (l: nat, off: int, h: Bytes) => ReadAt([], None));
      var e := Entry([97], Zeros(PointerSize), 1);
      StepAsWritten(ctx, e) == Append(None) && ResolveEntry(ctx, e) == NotInSet
  {
    var c := Codecs([0], (s: Bytes) => [0] + s, (s: Bytes, x: Score) => [0] + s,
                    (k: Bytes, s: Bytes, x: Score, i: Option<nat>) => [0] + s + k,
                    (k: Bytes, s: Bytes) => 0.0,
                    (k: Bytes, i: Option<nat>) => k,
                    (v: Bytes) => Reference(v, 0, 0));
    var o := ZScanOptions([1], None, None, [97], 0, false);
    var ctx := ScanContext(StoreView(map[], map[]), c, o, (l: nat, off: int, h: Bytes) => ReadAt([], None));
    var e := Entry([97], Zeros(PointerSize), 1);
    assert e.key[..1] == [97];
    NilItemAppendedWithoutBounds(ctx, e);
  }

  // ---------------------------------------------------------------- the loop as written

  /** The loop as written over the steps of its entries, with room for `budget` more items. */
  function ScanSteps(steps: seq<Step>, stop: Error, budget: nat): (r: Result<seq<Option<ZItem>>, Error>)
    requires budget >= 1
    ensures r.Success? ==> |r.value| <= budget
    decreases |steps|
  {
    if steps == [] then
      if stop == ErrNoMoreEntries then Success([]) else Failure(stop)
    else
      match steps[0]
      case Abort(err) => Failure(err)
      case Skip => ScanSteps(steps[1..], stop, budget)
      case Append(z) =>
        if budget == 1 then Success([z])
        else Prefixed([z], ScanSteps(steps[1..], stop, budget - 1))
  }

  /** The items of a result, each present. */
  function Present(r: Result<seq<ZItem>, Error>): Result<seq<Option<ZItem>>, Error>
  {
    match r
    case Success(zs) => Success(seq(|zs|, i requires 0 <= i < |zs| => Some(zs[i])))
    case Failure(err) => Failure(err)
  }

  /** The corrected steps of a stream that resolves as `rs`. */
  function CorrectedSteps(o: ZScanOptions, rs: seq<Resolution>): (steps: seq<Step>)
    ensures |steps| == |rs|
    ensures forall k :: 0 <= k < |rs| ==> steps[k] == CorrectedStep(o, rs[k])
  {
    seq(|rs|, k requires 0 <= k < |rs| => CorrectedStep(o, rs[k]))
  }

  /**
   * The loop structure is shared: run over the corrected steps, the loop as
   * written returns the corrected scan, every item present.
   */
  lemma {:induction false} ScanStepsOfCorrected(o: ZScanOptions, rs: seq<Resolution>, stop: Error, budget: nat)
    requires budget >= 1
    ensures ScanSteps(CorrectedSteps(o, rs), stop, budget) == Present(ScanResolutions(o, rs, stop, budget))
    decreases |rs|
  {
    var steps := CorrectedSteps(o, rs);
    if rs == [] {
      var none: seq<ZItem> := [];
      assert Present(Success(none)).value == [];
    } else {
      assert steps[1..] == CorrectedSteps(o, rs[1..]);
      match rs[0]
      case Failed(err) =>
      case NotInSet =>
        ScanStepsOfCorrected(o, rs[1..], stop, budget);
      case Resolved(z) =>
        if !InRange(o, z.score) {
          ScanStepsOfCorrected(o, rs[1..], stop, budget);
        } else if budget == 1 {
          assert Present(Success([z])).value == [Some(z)];
        } else {
          ScanStepsOfCorrected(o, rs[1..], stop, budget - 1);
          var rest := ScanResolutions(o, rs[1..], stop, budget - 1);
          if rest.Success? {
            assert Present(Prefixed([z], rest)).value == [Some(z)] + Present(rest).value;
          }
        }
    }
  }

  /**
   * Where every entry's key carries the separator and every read succeeds,
   * the loop as written returns exactly what the corrected loop returns.
   */
  lemma AsWrittenScanAgrees(ctx: ScanContext, es: seq<Entry>, stop: Error, budget: nat)
    requires budget >= 1
    requires forall k :: 0 <= k < |es| ==>
      (DecodePointer(es[k].pointer).None? || (ReadsCleanly(ctx, es[k]) && HasPrefix(es[k].key, ctx.codecs.separator)))
    ensures ScanSteps(seq(|es|, k requires 0 <= k < |es| => StepAsWritten(ctx, es[k])), stop, budget)
      == Present(ScanFrom(ctx, es, stop, budget))
  {
    var rs := Resolutions(ctx, es);
    var steps := seq(|es|, k requires 0 <= k < |es| => StepAsWritten(ctx, es[k]));
    forall k | 0 <= k < |es| ensures steps[k] == CorrectedSteps(ctx.opts, rs)[k] {
      ResolutionAt(ctx, es, k);
      AsWrittenAgreesWithCorrected(ctx, es[k]);
    }
    assert steps == CorrectedSteps(ctx.opts, rs);
    ScanStepsOfCorrected(ctx.opts, rs, stop, budget);
  }
}
