/**
 * The pack loop of `LogDB.update_table`: the file list is cut into packs of 50, every
 * file of a pack is extracted, and the pack's tuples go to the database in one batched
 * insert, provided no extraction in the pack raised and the tuples are not empty.
 */
module LogIngest {
  import opened Wrappers
  import opened LogRecords

  const PackSize := 50

  /** `files[i:i + 50]` for i in `range(0, len(files), 50)`. */
  function Packs<T>(files: seq<T>): (packs: seq<seq<T>>)
    ensures PackSize * (|packs| - 1) < |files| <= PackSize * |packs|
    ensures forall k :: 0 <= k < |packs| ==> 0 < |packs[k]| <= PackSize
    ensures forall k :: 0 <= k < |packs| - 1 ==> |packs[k]| == PackSize
    decreases |files|
  {
    if |files| == 0 then []
    else if |files| <= PackSize then [files]
    else [files[..PackSize]] + Packs(files[PackSize..])
  }

  function Flatten<T>(packs: seq<seq<T>>): seq<T>
  {
    if |packs| == 0 then [] else packs[0] + Flatten(packs[1..])
  }

  /** The packs together hold every file once, in order. */
  lemma {:induction false} PacksCover<T>(files: seq<T>)
    ensures Flatten(Packs(files)) == files
    decreases |files|
  {
    if |files| > PackSize {
      var rest := files[PackSize..];
      PacksCover(rest);
      assert Packs(files)[1..] == Packs(rest);
      assert files == files[..PackSize] + rest;
    } else if |files| > 0 {
      assert Flatten(Packs(files)) == files + [];
    }
  }

  /** The `k`-th pack is the slice of the list that starts at `50 * k`. */
  lemma {:induction false} PackIsSlice<T>(files: seq<T>, k: nat)
    requires k < |Packs(files)|
    ensures 50 * k < |files|
    ensures Packs(files)[k] == files[50 * k .. if 50 * k + 50 <= |files| then 50 * k + 50 else |files|]
    decreases k
  {
    if k == 0 {
      PackHead(files);
    } else {
      var rest := files[PackSize..];
      PacksTail(files);
      assert Packs(files)[k] == Packs(rest)[k - 1];
      PackIsSlice(rest, k - 1);
      var lo := 50 * (k - 1);
      var hi := if lo + 50 <= |rest| then lo + 50 else |rest|;
      SliceShift(files, lo, hi);
      assert 50 * k == lo + 50;
    }
  }

  /** The first pack is the first 50 files, or all of them. */
  lemma PackHead<T>(files: seq<T>)
    requires 0 < |Packs(files)|
    ensures Packs(files)[0] == files[0 .. if 50 <= |files| then 50 else |files|]
  {
    if |files| <= PackSize {
      assert files[0..|files|] == files;
    }
  }

  /** More than 50 files: the first 50 make a pack, and the rest are packed alike. */
  lemma PacksTail<T>(files: seq<T>)
    requires |files| > PackSize
    ensures Packs(files) == [files[..PackSize]] + Packs(files[PackSize..])
  {
  }

  /** A slice of the files after the first 50 is a slice of the files, shifted by 50. */
  lemma SliceShift<T>(files: seq<T>, lo: nat, hi: nat)
    requires PackSize <= |files| && lo <= hi <= |files| - PackSize
    ensures files[PackSize..][lo..hi] == files[lo + PackSize..hi + PackSize]
  {
  }

  /**
   * The tuples of one pack, in file order, or the first exception an extraction raised.
   * (The source collects them in completion order of its thread pool.)
   */
  function CollectPack(pack: seq<LogFile>, extract: LogFile -> Result<seq<LogRecord>, ExtractError>): (r: Result<seq<LogRecord>, ExtractError>)
    ensures r.Ok? <==> forall i :: 0 <= i < |pack| ==> extract(pack[i]).Ok?
  {
    if |pack| == 0 then Ok([])
    else match extract(pack[0])
      case Err(e) => Err(e)
      case Ok(rows) =>
        match CollectPack(pack[1..], extract)
        case Err(e) => Err(e)
        case Ok(more) =>
          assert forall i :: 1 <= i < |pack| ==> pack[i] == pack[1..][i - 1];
          Ok(rows + more)
  }

  /** The batch a pack inserts: None when an extraction raised or nothing was collected. */
  function PackInsert(pack: seq<LogFile>, extract: LogFile -> Result<seq<LogRecord>, ExtractError>): Option<seq<LogRecord>>
  {
    match CollectPack(pack, extract)
    case Err(_) => None
    case Ok(rows) => if rows == [] then None else Some(rows)
  }

  /** The batches, in order, that the packs insert. */
  function Inserts(packs: seq<seq<LogFile>>, extract: LogFile -> Result<seq<LogRecord>, ExtractError>): (r: seq<seq<LogRecord>>)
    ensures |r| <= |packs|
    ensures forall k :: 0 <= k < |r| ==> r[k] != []
  {
    if |packs| == 0 then []
    else
      (match PackInsert(packs[0], extract) case None => [] case Some(b) => [b])
      + Inserts(packs[1..], extract)
  }

  /** A pack inserts nothing when one of its files raises, and the other packs are unaffected. */
  lemma {:induction false} FailingPackSkipped(packs: seq<seq<LogFile>>, k: nat, extract: LogFile -> Result<seq<LogRecord>, ExtractError>)
    requires k < |packs|
    requires exists i :: 0 <= i < |packs[k]| && extract(packs[k][i]).Err?
    ensures Inserts(packs, extract) == Inserts(packs[..k], extract) + Inserts(packs[k + 1..], extract)
  {
    InsertsAppend(packs[..k], packs[k..], extract);
    assert packs[..k] + packs[k..] == packs;
    assert Inserts(packs[k..], extract) == Inserts(packs[k + 1..], extract) by {
      assert packs[k..][1..] == packs[k + 1..];
    }
  }

  lemma {:induction false} InsertsAppend(a: seq<seq<LogFile>>, b: seq<seq<LogFile>>, extract: LogFile -> Result<seq<LogRecord>, ExtractError>)
    ensures Inserts(a + b, extract) == Inserts(a, extract) + Inserts(b, extract)
    decreases |a|
  {
    if |a| > 0 {
      assert (a + b)[1..] == a[1..] + b;
      InsertsAppend(a[1..], b, extract);
    } else {
      assert a + b == b;
    }
  }

  /**
   * A pack every file of which extracts inserts exactly their tuples, one per file:
   * a batch of at most 50 rows.
   */
  lemma {:induction false} CleanPackInserted(pack: seq<LogFile>)
    requires 0 < |pack| <= PackSize
    requires forall i :: 0 <= i < |pack| ==> GetInfos(pack[i]).Ok?
    ensures PackInsert(pack, GetInfos).Some?
    ensures var batch := PackInsert(pack, GetInfos).value;
      |batch| == |pack| && forall i :: 0 <= i < |pack| ==> batch[i] == GetInfos(pack[i]).value[0]
  {
    forall i | 0 <= i < |pack| ensures |GetInfos(pack[i]).value| == 1 {
      OneRecord(pack[i]);
    }
    CollectOneEach(pack, GetInfos);
  }

  /** Each file's one tuple, in file order. */
  function FileTuples(pack: seq<LogFile>): (r: seq<LogRecord>)
    requires forall i :: 0 <= i < |pack| ==> GetInfos(pack[i]).Ok?
    ensures |r| == |pack|
  {
    seq(|pack|, i requires 0 <= i < |pack| => OneRecordValue(pack[i]))
  }

  function OneRecordValue(file: LogFile): LogRecord
    requires GetInfos(file).Ok?
  {
    GetInfos(file).value[0]
  }

  /**
   * The thread pool hands back a pack's results in completion order, some reordering
   * `done` of the pack. Whatever that order, a pack whose files all extract inserts one
   * batch holding each file's tuple exactly once.
   */
  lemma CleanPackAnyOrder(pack: seq<LogFile>, done: seq<LogFile>)
    requires 0 < |pack| <= PackSize
    requires forall i :: 0 <= i < |pack| ==> GetInfos(pack[i]).Ok?
    requires multiset(done) == multiset(pack)
    ensures PackInsert(done, GetInfos).Some?
    ensures multiset(PackInsert(done, GetInfos).value) == multiset(FileTuples(pack))
  {
    CleanPackInserted(pack);
    assert CollectPack(pack, GetInfos).value == FileTuples(pack);
    CollectAnyOrder(pack, done, GetInfos);
    assert |CollectPack(done, GetInfos).value| == |pack| by {
      assert |multiset(CollectPack(done, GetInfos).value)| == |multiset(FileTuples(pack))|;
    }
  }

  /** Collecting a reordering of a pack whose files all extract gives the same tuples, as a multiset. */
  lemma {:induction false} CollectAnyOrder(pack: seq<LogFile>, done: seq<LogFile>, extract: LogFile -> Result<seq<LogRecord>, ExtractError>)
    requires multiset(done) == multiset(pack)
    requires forall i :: 0 <= i < |pack| ==> extract(pack[i]).Ok?
    ensures CollectPack(done, extract).Ok?
    ensures multiset(CollectPack(done, extract).value) == multiset(CollectPack(pack, extract).value)
    decreases |pack|
  {
    if |pack| == 0 {
      assert |multiset(done)| == 0;
      assert done == [];
    } else {
      var x := pack[0];
      assert x in multiset(done);
      var j :| 0 <= j < |done| && done[j] == x;
      var before, after := done[..j], done[j + 1..];
      assert done == before + ([x] + after);
      RemoveMatched(done, j, pack);
      assert forall i :: 0 <= i < |pack| - 1 ==> extract(pack[1..][i]).Ok? by {
        assert forall i :: 0 <= i < |pack| - 1 ==> pack[1..][i] == pack[i + 1];
      }
      CollectAnyOrder(pack[1..], before + after, extract);
      CollectRemove(before, x, after, extract);
    }
  }

  /** Taking the same element out of two lists that are reorderings of each other leaves reorderings. */
  lemma RemoveMatched<T>(done: seq<T>, j: nat, pack: seq<T>)
    requires j < |done| && 0 < |pack| && done[j] == pack[0] && multiset(done) == multiset(pack)
    ensures multiset(done[..j] + done[j + 1..]) == multiset(pack[1..])
  {
    var x := pack[0];
    var rest, others := multiset(pack[1..]), multiset(done[..j] + done[j + 1..]);
    assert pack == [x] + pack[1..];
    assert done == done[..j] + ([x] + done[j + 1..]);
    assert multiset(pack) == multiset{x} + rest;
    assert multiset(done) == multiset{x} + others;
    forall y ensures rest[y] == others[y] {
      assert (multiset{x} + rest)[y] == (multiset{x} + others)[y];
    }
    assert rest == others;
  }

  /** Collecting `before + [x] + after` is collecting `before + after` with `x`'s tuples added. */
  lemma CollectRemove(before: seq<LogFile>, x: LogFile, after: seq<LogFile>, extract: LogFile -> Result<seq<LogRecord>, ExtractError>)
    requires extract(x).Ok? && CollectPack(before + after, extract).Ok?
    ensures CollectPack(before + ([x] + after), extract).Ok?
    ensures multiset(CollectPack(before + ([x] + after), extract).value) ==
      multiset(extract(x).value) + multiset(CollectPack(before + after, extract).value)
  {
    CollectAppend(before, after, extract);
    CollectAppend(before, [x] + after, extract);
    assert CollectPack([x] + after, extract) == (match CollectPack(after, extract) case Err(e) => Err(e) case Ok(y) => Ok(extract(x).value + y)) by {
      assert ([x] + after)[0] == x && ([x] + after)[1..] == after;
    }
  }

  /** An extraction that succeeds yields one tuple. */
  lemma OneRecord(file: LogFile)
    requires GetInfos(file).Ok?
    ensures |GetInfos(file).value| == 1
  {
  }

  lemma {:induction false} CollectOneEach(pack: seq<LogFile>, extract: LogFile -> Result<seq<LogRecord>, ExtractError>)
    requires forall i :: 0 <= i < |pack| ==> extract(pack[i]).Ok? && |extract(pack[i]).value| == 1
    ensures CollectPack(pack, extract).Ok?
    ensures var rows := CollectPack(pack, extract).value;
      |rows| == |pack| && forall i :: 0 <= i < |pack| ==> rows[i] == extract(pack[i]).value[0]
    decreases |pack|
  {
    if |pack| > 0 {
      assert forall i :: 1 <= i < |pack| ==> pack[i] == pack[1..][i - 1];
      CollectOneEach(pack[1..], extract);
      var rows := extract(pack[0]).value;
      var more := CollectPack(pack[1..], extract).value;
      assert CollectPack(pack, extract).value == rows + more;
      forall i | 0 <= i < |pack| ensures (rows + more)[i] == extract(pack[i]).value[0] {
        if i > 0 {
          assert (rows + more)[i] == more[i - 1];
        }
      }
    }
  }

  /** Every batch of a well-formed run has one row per file of its pack, so at most 50 rows. */
  lemma {:induction false} BatchesAtMostPackSize(packs: seq<seq<LogFile>>)
    requires forall k :: 0 <= k < |packs| ==> |packs[k]| <= PackSize
    ensures forall k :: 0 <= k < |Inserts(packs, GetInfos)| ==> |Inserts(packs, GetInfos)[k]| <= PackSize
    decreases |packs|
  {
    if |packs| > 0 {
      var rest := packs[1..];
      forall k | 0 <= k < |rest| ensures |rest[k]| <= PackSize {
        assert rest[k] == packs[k + 1];
      }
      BatchesAtMostPackSize(rest);
      PackBatchSize(packs[0]);
      var head := match PackInsert(packs[0], GetInfos) case None => [] case Some(b) => [b];
      var all := Inserts(packs, GetInfos);
      assert all == head + Inserts(rest, GetInfos);
      forall k | 0 <= k < |all| ensures |all[k]| <= PackSize {
        if k >= |head| {
          assert all[k] == Inserts(rest, GetInfos)[k - |head|];
        }
      }
    }
  }

  /** The batch of a pack, when it has one, holds one row per file. */
  lemma PackBatchSize(pack: seq<LogFile>)
    ensures PackInsert(pack, GetInfos).Some? ==> |PackInsert(pack, GetInfos).value| == |pack|
  {
    if CollectPack(pack, GetInfos).Ok? {
      forall i | 0 <= i < |pack| ensures |GetInfos(pack[i]).value| == 1 {
        OneRecord(pack[i]);
      }
      CollectOneEach(pack, GetInfos);
    }
  }

  /**
   * With `__get_infos` as written (the file read always raises TypeError) no pack ever
   * reaches its insert, whatever the file list.
   */
  lemma {:induction false} AsWrittenNothingInserted(packs: seq<seq<LogFile>>)
    requires forall k :: 0 <= k < |packs| ==> |packs[k]| > 0
    ensures Inserts(packs, GetInfosAsWritten) == []
    decreases |packs|
  {
    if |packs| > 0 {
      assert forall k :: 1 <= k < |packs| ==> packs[1..][k - 1] == packs[k];
      AsWrittenNothingInserted(packs[1..]);
      assert GetInfosAsWritten(packs[0][0]).Err?;
    }
  }

  /** `update_table` as written inserts nothing for any list of files. */
  lemma AsWrittenUpdateTableInsertsNothing(files: seq<LogFile>)
    ensures Inserts(Packs(files), GetInfosAsWritten) == []
  {
    AsWrittenNothingInserted(Packs(files));
  }

  /** Collecting two lists one after the other is collecting their concatenation. */
  lemma {:induction false} CollectAppend(a: seq<LogFile>, b: seq<LogFile>, extract: LogFile -> Result<seq<LogRecord>, ExtractError>)
    ensures CollectPack(a + b, extract) ==
      match CollectPack(a, extract)
      case Err(e) => Err(e)
      case Ok(x) => (match CollectPack(b, extract) case Err(e) => Err(e) case Ok(y) => Ok(x + y))
    decreases |a|
  {
    if |a| == 0 {
      assert a + b == b;
      match CollectPack(b, extract)
      case Err(e) =>
      case Ok(y) => assert [] + y == y;
    } else {
      assert (a + b)[0] == a[0] && (a + b)[1..] == a[1..] + b;
      CollectAppend(a[1..], b, extract);
      match extract(a[0])
      case Err(e) =>
      case Ok(rows) =>
        match CollectPack(a[1..], extract)
        case Err(e) =>
        case Ok(more) =>
          match CollectPack(b, extract)
          case Err(e) =>
          case Ok(y) =>
            assert rows + (more + y) == (rows + more) + y;
    }
  }

  /** The packs of a list that is not empty: its first 50 files, then the packs of the rest. */
  lemma PacksUnfold<T>(files: seq<T>, i: nat, hi: nat)
    requires i < |files| && hi == (if i + PackSize <= |files| then i + PackSize else |files|)
    ensures Packs(files[i..]) == [files[i..hi]] + Packs(files[hi..])
  {
    var rest := files[i..];
    if |rest| <= PackSize {
      assert rest == files[i..hi];
      assert files[hi..] == [];
    } else {
      assert rest[..PackSize] == files[i..hi];
      assert rest[PackSize..] == files[hi..];
    }
  }

  /**
   * The thread-pool block of `update_table` for one pack, run in file order: the tuples of
   * the pack, or `failed` when an extraction raised (the exception leaves the block).
   */
  method ExtractPack(pack: seq<LogFile>, extract: LogFile -> Result<seq<LogRecord>, ExtractError>)
    returns (rows: seq<LogRecord>, failed: bool)
    ensures failed <==> CollectPack(pack, extract).Err?
    ensures !failed ==> rows == CollectPack(pack, extract).value
  {
    rows, failed := [], false;
    var j := 0;
    while j < |pack|
      invariant 0 <= j <= |pack|
      invariant CollectPack(pack[..j], extract) == Ok(rows)
    {
      CollectAppend(pack[..j], [pack[j]], extract);
      assert pack[..j] + [pack[j]] == pack[..j + 1];
      assert [pack[j]][1..] == [];
      var r := extract(pack[j]);
      assert r.Ok? ==> r.value + [] == r.value;
      if r.Err? {
        failed := true;
        break;
      }
      rows := rows + r.value;
      j := j + 1;
    }
    if failed {
      CollectAppend(pack[..j + 1], pack[j + 1..], extract);
      assert pack[..j + 1] + pack[j + 1..] == pack;
    } else {
      assert pack[..j] == pack;
    }
  }

  /** One turn of the pack loop: the first pack's batch, then the batches of the remaining files. */
  lemma InsertsStep(files: seq<LogFile>, i: nat, hi: nat, extract: LogFile -> Result<seq<LogRecord>, ExtractError>)
    requires i < |files| && hi == (if i + PackSize <= |files| then i + PackSize else |files|)
    ensures Inserts(Packs(files[i..]), extract) ==
      (match PackInsert(files[i..hi], extract) case None => [] case Some(b) => [b])
      + Inserts(Packs(files[hi..]), extract)
  {
    PacksUnfold(files, i, hi);
    assert ([files[i..hi]] + Packs(files[hi..]))[1..] == Packs(files[hi..]);
  }

  lemma AppendAssoc<T>(a: seq<T>, b: seq<T>, c: seq<T>)
    ensures a + b + c == a + (b + c)
  {
  }

  /** The log table as `update_table` sees it: the batches handed to `execute_query` so far. */
  class LogTable {
    var inserted: seq<seq<LogRecord>>

    constructor ()
      ensures inserted == []
    {
      inserted := [];
    }

    /**
     * `update_table(files)`: for each pack of 50 files, one batched insert of its tuples
     * unless an extraction in the pack raised or no tuple was collected.
     */
    method UpdateTable(files: seq<LogFile>)
      modifies this
      ensures inserted == old(inserted) + Inserts(Packs(files), GetInfos)
    {
      var n := |files|;
      var i := 0;
      assert files[0..] == files;
      while i < n
        invariant 0 <= i <= n
        invariant inserted + Inserts(Packs(files[i..]), GetInfos) == old(inserted) + Inserts(Packs(files), GetInfos)
      {
        var hi := if i + PackSize <= n then i + PackSize else n;
        var pack := files[i..hi];
        InsertsStep(files, i, hi, GetInfos);
        var rows, failed := ExtractPack(pack, GetInfos);
        ghost var batch := match PackInsert(pack, GetInfos) case None => [] case Some(b) => [b];
        assert batch == if !failed && rows != [] then [rows] else [];
        ghost var before := inserted;
        if !failed && rows != [] {
          inserted := inserted + [rows];
        }
        assert inserted == before + batch;
        AppendAssoc(before, batch, Inserts(Packs(files[hi..]), GetInfos));
        i := hi;
      }
      assert files[n..] == [];
    }
  }
}
