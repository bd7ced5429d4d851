/** The log of services/dfx/dfx_log_dump.cpp: producers append entries, one thread takes them in
    batches and writes them to numbered files.

    The model keeps an entry (one formatted line) as the unit; the class keeps the text and ties it to
    the entries. `disk` is the directory the thread writes to.
 */
module DfxLogDumpModel {

  const FILE_MAX: nat := 100
  const FILE_LINE_MAX: nat := 50_000

  datatype Log = Log(
    pending: seq<string>,
    lineCount: nat,
    isExit: bool,
    isEnable: bool,
    isNewFile: bool,
    fileCount: nat,
    disk: map<nat, seq<string>>)

  function Initial(): Log {
    Log([], 0, false, false, true, 0, map[])
  }

  function Save(l: Log, entry: string): Log {
    if l.isEnable then l.(pending := l.pending + [entry], lineCount := l.lineCount + 1) else l
  }

  /** The end of the thread's locked section: what is left after it has taken the pending entries. */
  function Swap(l: Log): Log {
    l.(pending := [], lineCount := if l.lineCount >= FILE_LINE_MAX then 0 else l.lineCount)
  }

  function FileText(disk: map<nat, seq<string>>, file: nat): seq<string> {
    if file in disk then disk[file] else []
  }

  function NextFile(file: nat): nat {
    if file + 1 > FILE_MAX then 0 else file + 1
  }

  /** The unlocked part: open (truncating a new file), maybe rotate, write. `count` was read at the swap. */
  function Write(l: Log, batch: seq<string>, count: nat, isOpen: bool): Log {
    if !isOpen then l
    else
      var text := if l.isNewFile then batch else FileText(l.disk, l.fileCount) + batch;
      l.(disk := l.disk[l.fileCount := text],
         isNewFile := count >= FILE_LINE_MAX,
         fileCount := if count >= FILE_LINE_MAX then NextFile(l.fileCount) else l.fileCount)
  }

  function Flat(entries: seq<string>): string {
    if entries == [] then "" else Flat(entries[..|entries| - 1]) + entries[|entries| - 1]
  }

  lemma {:induction false} FlatConcat(a: seq<string>, b: seq<string>)
    ensures Flat(a + b) == Flat(a) + Flat(b)
  {
    if b == [] {
      assert a + b == a;
    } else {
      var n := |b| - 1;
      FlatConcat(a, b[..n]);
      assert (a + b)[..|a + b| - 1] == a + b[..n];
    }
  }

  class DfxLogDump {
    var logString: string
    var lineCount: nat
    var isExit: bool
    var isEnable: bool
    var isNewFile: bool
    var fileCount: nat
    var disk: map<nat, string>
    ghost var pending: seq<string>
    ghost var files: map<nat, seq<string>>

    ghost predicate Valid()
      reads this
    {
      && logString == Flat(pending)
      && files.Keys == disk.Keys
      && forall f :: f in files ==> disk[f] == Flat(files[f])
    }

    ghost function Model(): Log
      reads this
    {
      Log(pending, lineCount, isExit, isEnable, isNewFile, fileCount, files)
    }

    constructor ()
      ensures Valid() && Model() == Initial()
    {
      logString, lineCount, isExit, isEnable, isNewFile, fileCount, disk := "", 0, false, false, true, 0, map[];
      pending, files := [], map[];
    }

    method SaveLog(entry: string)
      requires Valid()
      modifies this
      ensures Valid() && Model() == Save(old(Model()), entry)
    {
      if !isEnable {
        return;
      }
      FlatConcat(pending, [entry]);
      assert Flat([entry]) == Flat([]) + entry;
      logString := logString + entry;
      lineCount := lineCount + 1;
      pending := pending + [entry];
    }

    method SwapBatch() returns (temp: string, count: nat)
      requires Valid()
      modifies this
      ensures Valid() && Model() == Swap(old(Model()))
      ensures temp == Flat(old(pending)) && count == old(lineCount)
    {
      count := lineCount;
      lineCount := if lineCount >= FILE_LINE_MAX then 0 else lineCount;
      temp, logString := logString, "";
      pending := [];
    }

    /** Opens the current file, truncating it if it is new, and writes the text. */
    method WriteText(temp: string, ghost batch: seq<string>)
      requires Valid() && temp == Flat(batch)
      modifies this`disk, this`files
      ensures Valid()
      ensures files == old(files)[fileCount :=
                if isNewFile then batch else FileText(old(files), fileCount) + batch]
    {
      var text := if fileCount in disk then disk[fileCount] else "";
      FlatConcat(FileText(files, fileCount), batch);
      disk := disk[fileCount := if isNewFile then temp else text + temp];
      files := files[fileCount := if isNewFile then batch else FileText(files, fileCount) + batch];
    }

    method WriteBatch(temp: string, count: nat, isOpen: bool, ghost batch: seq<string>)
      requires Valid() && temp == Flat(batch)
      modifies this
      ensures Valid() && Model() == Write(old(Model()), batch, count, isOpen)
    {
      if !isOpen {
        return;
      }
      WriteText(temp, batch);
      isNewFile := false;
      if count >= FILE_LINE_MAX {
        isNewFile := true;
        fileCount := fileCount + 1;
        fileCount := if fileCount > FILE_MAX then 0 else fileCount;
      }
    }
  }
}
