/**
 Request-body storage (common/body_storage.go) and its global counters
 (common/disk_cache_config.go, lines 91-177). Both kinds of storage refine one view: the data,
 a position and whether it is closed. Each method runs under the storage's mutex.
 */
module BodyStorage {
  import opened Octets

  datatype Error = StorageClosed | EndOfData | BadSeek | TooLarge | DiskFailed

  datatype Reply = Got(bytes: Bytes) | At(pos: int) | All(data: Bytes) | Closed | Failed(error: Error)

  datatype View = View(data: Bytes, pos: nat, closed: bool)

  datatype Op = Read(n: nat) | Seek(offset: int, whence: int) | ReadAll | Close

  // ---------- what an operation does ----------

  function Chunk(v: View, n: nat): Bytes
    requires v.pos <= |v.data|
  {
    if v.pos + n <= |v.data| then v.data[v.pos..v.pos + n] else v.data[v.pos..]
  }

  /** The position a seek asks for: 0 from the start, 1 from here, 2 from the end. */
  function Target(v: View, offset: int, whence: int): int {
    match whence
    case 0 => offset
    case 1 => v.pos + offset
    case 2 => |v.data| + offset
    case _ => -1
  }

  function Step(v: View, op: Op): View {
    if v.closed then v else
    match op
    case Read(n) => if v.pos >= |v.data| then v else v.(pos := v.pos + |Chunk(v, n)|)
    case Seek(offset, whence) => if Target(v, offset, whence) < 0 then v else v.(pos := Target(v, offset, whence))
    case ReadAll => v
    case Close => v.(closed := true)
  }

  /** What a memory storage answers. */
  function MemoryReply(v: View, op: Op): Reply {
    if op.Close? then Closed else if v.closed then Failed(StorageClosed) else
    match op
    case Read(n) => if v.pos >= |v.data| then Failed(EndOfData) else Got(Chunk(v, n))
    case Seek(offset, whence) =>
      if Target(v, offset, whence) < 0 then Failed(BadSeek) else At(Target(v, offset, whence))
    case _ => All(v.data)
  }

  /** What a disk storage answers: an empty read of a file is no bytes and no error, wherever it
      stands, and all data is what a read from the start finds. */
  function DiskReply(v: View, op: Op): Reply {
    match op
    case Close => Closed
    case Read(n) =>
      if v.closed then Failed(StorageClosed)
      else if n == 0 then Got([])
      else if v.pos < |v.data| then Got(Chunk(v, n)) else Failed(EndOfData)
    case Seek(offset, whence) =>
      if v.closed then Failed(StorageClosed)
      else if Target(v, offset, whence) >= 0 then At(Target(v, offset, whence)) else Failed(BadSeek)
    case ReadAll => if v.closed then Failed(StorageClosed) else All(Chunk(v.(pos := 0), |v.data|))
  }

  predicate EmptyReadAtEnd(v: View, op: Op) {
    !v.closed && op == Read(0) && v.pos >= |v.data|
  }

  lemma RepliesAgree(v: View, op: Op)
    ensures MemoryReply(v, op) == DiskReply(v, op) <==> !EmptyReadAtEnd(v, op)
  {
    assert op.ReadAll? ==> Chunk(v.(pos := 0), |v.data|) == v.data;
    assert op == Read(0) && v.pos < |v.data| ==> Chunk(v, 0) == [];
  }

  // ---------- where a seek goes and what a read finds ----------

  /** What a read of `n` bytes finds at position `p`, in words of the data alone. */
  predicate Finds(data: Bytes, p: nat, n: nat, r: Reply) {
    if p >= |data| then r == Failed(EndOfData) || (n == 0 && r == Got([]))
    else if |data| - p <= n then r == Got(data[p..])
    else r == Got(data[p..p + n])
  }

  predicate SeekReaches(v: View, op: Op, p: nat, n: nat) {
    var v' := Step(v, op);
    && MemoryReply(v, op) == DiskReply(v, op) == At(p)
    && v' == View(v.data, p, false)
    && Finds(v.data, p, n, MemoryReply(v', Read(n))) && Finds(v.data, p, n, DiskReply(v', Read(n)))
  }

  /** From the start, from here or from the end: the three ways to ask for a position answer with
      it, and the next read finds the bytes from there on. */
  lemma SeekThenRead(v: View, p: nat, n: nat)
    requires !v.closed
    ensures SeekReaches(v, Seek(p, 0), p, n)
    ensures SeekReaches(v, Seek(p - v.pos, 1), p, n)
    ensures SeekReaches(v, Seek(p - |v.data|, 2), p, n)
  {
    RepliesAgree(View(v.data, p, false), Read(n));
    assert p + n == |v.data| ==> v.data[p..p + n] == v.data[p..];
    assert p < |v.data| && n == 0 ==> v.data[p..p + n] == [];
  }

  /** Going back `k` from the end and reading `k` bytes gives the last `k` bytes; the end itself
      is at the length of the data. */
  lemma LastBytes(v: View, k: nat)
    requires !v.closed && 0 < k <= |v.data|
    ensures var v' := Step(v, Seek(0 - k, 2));
            MemoryReply(v', Read(k)) == DiskReply(v', Read(k)) == Got(v.data[|v.data| - k..])
    ensures MemoryReply(v, Seek(0, 2)) == DiskReply(v, Seek(0, 2)) == At(|v.data|)
  {
    SeekThenRead(v, |v.data| - k, k);
    SeekThenRead(v, |v.data|, 0);
  }

  /** A seek before the start, or from anywhere but the three places, fails and moves nothing. */
  lemma SeekFails(v: View, offset: int, whence: int)
    requires !v.closed
    requires (whence == 0 ==> offset < 0) && (whence == 1 ==> v.pos + offset < 0) && (whence == 2 ==> |v.data| + offset < 0)
    ensures MemoryReply(v, Seek(offset, whence)) == DiskReply(v, Seek(offset, whence)) == Failed(BadSeek)
    ensures Step(v, Seek(offset, whence)) == v
  {
    assert whence != 0 && whence != 1 && whence != 2 ==> Target(v, offset, whence) == -1;
  }

  // ---------- the counters ----------

  /** Subtraction that stops at zero. */
  function Less(n: int, m: nat): (r: int)
    ensures 0 <= r && n - m <= r && (r == 0 || r == n - m)
  {
    if n < m then 0 else n - m
  }

  /** The process-wide counters; decrements of the disk pair clamp at zero. */
  class Stats {
    var diskFiles: int
    var diskBytes: int
    var memoryBuffers: int
    var memoryBytes: int
    var diskHits: int
    var memoryHits: int

    method IncrementDisk(size: nat)
      modifies this`diskFiles, this`diskBytes
      ensures diskFiles == old(diskFiles) + 1 && diskBytes == old(diskBytes) + size
    {
      diskFiles := diskFiles + 1;
      diskBytes := diskBytes + size;
    }

    method DecrementDisk(size: nat)
      modifies this`diskFiles, this`diskBytes
      ensures diskFiles == Less(old(diskFiles), 1) && diskBytes == Less(old(diskBytes), size)
    {
      diskFiles := diskFiles - 1;
      if diskFiles < 0 { diskFiles := 0; }
      diskBytes := diskBytes - size;
      if diskBytes < 0 { diskBytes := 0; }
    }

    method IncrementMemory(size: nat)
      modifies this`memoryBuffers, this`memoryBytes
      ensures memoryBuffers == old(memoryBuffers) + 1 && memoryBytes == old(memoryBytes) + size
    {
      memoryBuffers, memoryBytes := memoryBuffers + 1, memoryBytes + size;
    }

    method DecrementMemory(size: nat)
      modifies this`memoryBuffers, this`memoryBytes
      ensures memoryBuffers == old(memoryBuffers) - 1 && memoryBytes == old(memoryBytes) - size
    {
      memoryBuffers, memoryBytes := memoryBuffers - 1, memoryBytes - size;
    }
  }

  // ---------- memory ----------

  class MemoryStorage {
    const data: Bytes
    const stats: Stats
    var pos: nat
    var closed: bool

    function Value(): View
      reads this
    {
      View(data, pos, closed)
    }

    /** Lines 37-45. */
    constructor (data: Bytes, stats: Stats)
      modifies stats`memoryBuffers, stats`memoryBytes
      ensures this.stats == stats && Value() == View(data, 0, false)
      ensures stats.memoryBuffers == old(stats.memoryBuffers) + 1
      ensures stats.memoryBytes == old(stats.memoryBytes) + |data|
    {
      this.data, this.stats, pos, closed := data, stats, 0, false;
      new;
      stats.IncrementMemory(|data|);
    }

    method Read(n: nat) returns (r: Reply)
      modifies this`pos
      ensures Value() == Step(old(Value()), Op.Read(n)) && r == MemoryReply(old(Value()), Op.Read(n))
    {
      if closed { return Failed(StorageClosed); }
      if pos >= |data| { return Failed(EndOfData); }
      var bytes := Chunk(Value(), n);
      pos := pos + |bytes|;
      return Got(bytes);
    }

    method Seek(offset: int, whence: int) returns (r: Reply)
      modifies this`pos
      ensures Value() == Step(old(Value()), Op.Seek(offset, whence))
      ensures r == MemoryReply(old(Value()), Op.Seek(offset, whence))
    {
      if closed { return Failed(StorageClosed); }
      var target := Target(Value(), offset, whence);
      if target < 0 { return Failed(BadSeek); }
      pos := target;
      return At(target);
    }

    method ReadAll() returns (r: Reply)
      ensures r == MemoryReply(Value(), Op.ReadAll)
    {
      if closed { return Failed(StorageClosed); }
      return All(data);
    }

    /** Lines 65-72: only the first close gives the bytes back. */
    method Close()
      modifies this`closed, stats`memoryBuffers, stats`memoryBytes
      ensures Value() == Step(old(Value()), Op.Close)
      ensures stats.memoryBuffers == old(stats.memoryBuffers) - (if old(closed) then 0 else 1)
      ensures stats.memoryBytes == old(stats.memoryBytes) - (if old(closed) then 0 else |data|)
    {
      if !closed {
        closed := true;
        stats.DecrementMemory(|data|);
      }
    }
  }

  // ---------- disk ----------

  /** An open file: its contents and the offset of the descriptor. */
  class File {
    const content: Bytes
    var offset: nat

    function Value(): View
      reads this
    {
      View(content, offset, false)
    }

    constructor (content: Bytes)
      ensures Value() == View(content, 0, false)
    {
      this.content, offset := content, 0;
    }

    method Read(n: nat) returns (r: Reply)
      modifies this
      ensures Value() == Step(old(Value()), Op.Read(n)) && r == DiskReply(old(Value()), Op.Read(n))
    {
      if n == 0 { return Got([]); }
      if offset >= |content| { return Failed(EndOfData); }
      var bytes := Chunk(Value(), n);
      offset := offset + |bytes|;
      return Got(bytes);
    }

    method Seek(to: int, whence: int) returns (r: Reply)
      modifies this
      ensures Value() == Step(old(Value()), Op.Seek(to, whence)) && r == DiskReply(old(Value()), Op.Seek(to, whence))
    {
      var target := Target(Value(), to, whence);
      if target < 0 { return Failed(BadSeek); }
      offset := target;
      return At(target);
    }
  }

  class DiskStorage {
    const file: File
    const stats: Stats
    const size: nat
    var closed: bool

    function Value(): View
      reads this, file
    {
      View(file.content, file.offset, closed)
    }

    ghost predicate Valid() {
      size == |file.content|
    }

    /** Lines 122-129 and 160-166: the storage of a file just written. */
    constructor (data: Bytes, stats: Stats)
      modifies stats`diskFiles, stats`diskBytes
      ensures Valid() && fresh(file) && this.stats == stats && Value() == View(data, 0, false)
      ensures stats.diskFiles == old(stats.diskFiles) + 1 && stats.diskBytes == old(stats.diskBytes) + |data|
    {
      this.file := new File(data);
      this.stats, size, closed := stats, |data|, false;
      new;
      stats.IncrementDisk(|data|);
    }

    method Read(n: nat) returns (r: Reply)
      requires Valid()
      modifies file
      ensures Value() == Step(old(Value()), Op.Read(n)) && r == DiskReply(old(Value()), Op.Read(n))
    {
      if closed { return Failed(StorageClosed); }
      r := file.Read(n);
    }

    method Seek(offset: int, whence: int) returns (r: Reply)
      requires Valid()
      modifies file
      ensures Value() == Step(old(Value()), Op.Seek(offset, whence))
      ensures r == DiskReply(old(Value()), Op.Seek(offset, whence))
    {
      if closed { return Failed(StorageClosed); }
      r := file.Seek(offset, whence);
    }

    /** Lines 198-230: remember the offset, read everything from the start, go back. */
    method ReadAll() returns (r: Reply)
      requires Valid()
      modifies file
      ensures Value() == old(Value()) && r == DiskReply(old(Value()), Op.ReadAll)
    {
      if closed { return Failed(StorageClosed); }
      var current := file.Seek(0, 1);
      if current.Failed? { return current; }
      var start := file.Seek(0, 0);
      if start.Failed? { return start; }
      var all := file.Read(size);
      if all.Failed? { return all; }
      var back := file.Seek(current.pos, 0);
      if back.Failed? { return back; }
      return All(all.bytes);
    }

    /** Lines 187-196. */
    method Close()
      requires Valid()
      modifies this`closed, stats`diskFiles, stats`diskBytes
      ensures Value() == Step(old(Value()), Op.Close)
      ensures stats.diskFiles == if old(closed) then old(stats.diskFiles) else Less(old(stats.diskFiles), 1)
      ensures stats.diskBytes == if old(closed) then old(stats.diskBytes) else Less(old(stats.diskBytes), size)
    {
      if !closed {
        closed := true;
        stats.DecrementDisk(size);
      }
    }
  }

  // ---------- creation ----------

  datatype Config = Config(enabled: bool, threshold: int, limit: int)

  /** Lines 170-177 of the configuration file. */
  predicate DiskAvailable(config: Config, usage: int, size: int) {
    config.enabled && usage + size <= config.limit
  }

  /** Lines 241-259. `diskOk` says whether the file could be written. */
  method CreateBodyStorage(data: Bytes, config: Config, stats: Stats, diskOk: bool)
    returns (memory: MemoryStorage?, disk: DiskStorage?)
    modifies stats
    ensures (memory == null) != (disk == null)
    ensures memory != null ==> fresh(memory) && memory.Value() == View(data, 0, false)
    ensures disk != null ==> fresh(disk) && fresh(disk.file) && disk.Valid() && disk.Value() == View(data, 0, false)
    ensures disk != null <==> config.enabled && |data| >= config.threshold && old(stats.diskBytes) + |data| <= config.limit && diskOk
    ensures disk != null && old(stats.diskBytes) <= config.limit ==> stats.diskBytes <= config.limit
    ensures stats.diskFiles == old(stats.diskFiles) + (if disk != null then 1 else 0)
    ensures stats.diskBytes == old(stats.diskBytes) + (if disk != null then |data| else 0)
    ensures stats.memoryBuffers == old(stats.memoryBuffers) + (if memory != null then 1 else 0)
    ensures stats.memoryBytes == old(stats.memoryBytes) + (if memory != null then |data| else 0)
    ensures stats.diskHits == old(stats.diskHits) && stats.memoryHits == old(stats.memoryHits)
  {
    memory, disk := null, null;
    if config.enabled && |data| >= config.threshold && DiskAvailable(config, stats.diskBytes, |data|) {
      if diskOk {
        disk := new DiskStorage(data, stats);
        return;
      }
    }
    memory := new MemoryStorage(data, stats);
  }

  datatype Created = Stored | Refused(error: Error)

  /** Lines 262-303. The reader delivers `body`; at most maxBytes + 1 bytes of it are read, so a
      storage always holds the whole body or there is an error. */
  method CreateFromReader(body: Bytes, contentLength: int, maxBytes: nat, config: Config, stats: Stats, diskOk: bool)
    returns (r: Created, memory: MemoryStorage?, disk: DiskStorage?)
    modifies stats
    ensures r.Stored? <==> (memory == null) != (disk == null)
    ensures r.Refused? ==> memory == null && disk == null
    ensures memory != null ==> fresh(memory) && memory.Value() == View(body, 0, false)
    ensures disk != null ==> fresh(disk) && fresh(disk.file) && disk.Valid() && disk.Value() == View(body, 0, false)
    ensures var declared := && config.enabled && 0 < contentLength && config.threshold <= contentLength
                            && old(stats.diskBytes) + contentLength <= config.limit;
            var fits := && config.enabled && config.threshold <= |body|
                        && old(stats.diskBytes) + |body| <= config.limit;
            && (r == Refused(DiskFailed) <==> declared && !diskOk)
            && (r == Refused(TooLarge) <==> |body| > maxBytes && (declared ==> diskOk))
            && (disk != null <==> |body| <= maxBytes && diskOk && (declared || fits))
            && (memory != null <==> |body| <= maxBytes && !declared && (fits ==> !diskOk))
    ensures |body| > maxBytes ==> r.Refused?
    ensures r == Refused(TooLarge) ==> |body| > maxBytes
    ensures stats.diskFiles == old(stats.diskFiles) + (if disk != null then 1 else 0)
    ensures stats.diskBytes == old(stats.diskBytes) + (if disk != null then |body| else 0)
    ensures stats.memoryBuffers == old(stats.memoryBuffers) + (if memory != null then 1 else 0)
    ensures stats.memoryBytes == old(stats.memoryBytes) + (if memory != null then |body| else 0)
    ensures r.Refused? && diskOk ==> r == Refused(TooLarge)
    ensures stats.diskHits + stats.memoryHits == old(stats.diskHits + stats.memoryHits) + (if r.Stored? then 1 else 0)
    ensures stats.diskHits == old(stats.diskHits) + (if disk != null then 1 else 0)
  {
    memory, disk := null, null;
    var limited := if |body| > maxBytes then body[..maxBytes + 1] else body;
    if config.enabled && contentLength > 0 && contentLength >= config.threshold
       && DiskAvailable(config, stats.diskBytes, contentLength) {
      if !diskOk { return Refused(DiskFailed), null, null; }
      if |limited| > maxBytes { return Refused(TooLarge), null, null; }
      disk := new DiskStorage(limited, stats);
      stats.diskHits := stats.diskHits + 1;
      return Stored, null, disk;
    }
    if |limited| > maxBytes { return Refused(TooLarge), null, null; }
    memory, disk := CreateBodyStorage(limited, config, stats, diskOk);
    if disk == null {
      stats.memoryHits := stats.memoryHits + 1;
    } else {
      stats.diskHits := stats.diskHits + 1;
    }
    r := Stored;
  }

  // ---------- the two kinds side by side ----------

  function Run(v: View, ops: seq<Op>): View {
    if ops == [] then v else Step(Run(v, ops[..|ops| - 1]), ops[|ops| - 1])
  }

  function MemoryReplies(v: View, ops: seq<Op>): (replies: seq<Reply>)
    ensures |replies| == |ops|
  {
    if ops == [] then []
    else MemoryReplies(v, ops[..|ops| - 1]) + [MemoryReply(Run(v, ops[..|ops| - 1]), ops[|ops| - 1])]
  }

  function DiskReplies(v: View, ops: seq<Op>): (replies: seq<Reply>)
    ensures |replies| == |ops|
  {
    if ops == [] then []
    else DiskReplies(v, ops[..|ops| - 1]) + [DiskReply(Run(v, ops[..|ops| - 1]), ops[|ops| - 1])]
  }

  /** The bytes a list of replies delivers. */
  function Delivered(replies: seq<Reply>): Bytes {
    if replies == [] then []
    else
      var r := replies[|replies| - 1];
      Delivered(replies[..|replies| - 1]) + (if r.Got? then r.bytes else [])
  }

  /** How many bytes a list of reads asks for. */
  function Asked(ops: seq<Op>): nat {
    if ops == [] then 0
    else Asked(ops[..|ops| - 1]) + (if ops[|ops| - 1].Read? then ops[|ops| - 1].n else 0)
  }

  lemma ReadAdds(data: Bytes, from: nat, v: View, n: nat)
    requires !v.closed && v.data == data && from <= v.pos <= |data|
    ensures var v' := Step(v, Read(n));
            var m, d := MemoryReply(v, Read(n)), DiskReply(v, Read(n));
            && v.pos <= v'.pos <= |data| && v'.data == data && !v'.closed
            && v'.pos == (if v.pos + n <= |data| then v.pos + n else |data|)
            && data[from..v.pos] + (if m.Got? then m.bytes else []) == data[from..v'.pos]
            && data[from..v.pos] + (if d.Got? then d.bytes else []) == data[from..v'.pos]
  {
    RepliesAgree(v, Read(n));
  }

  /** However the reads are sized, they deliver the data from where they began, every byte once
      and in order, as far as they asked for or to the end. */
  lemma {:induction false} ReadsDeliver(v: View, ops: seq<Op>)
    requires !v.closed && v.pos <= |v.data| && forall i :: 0 <= i < |ops| ==> ops[i].Read?
    ensures var end := if v.pos + Asked(ops) <= |v.data| then v.pos + Asked(ops) else |v.data|;
            && Run(v, ops) == View(v.data, end, false)
            && Delivered(MemoryReplies(v, ops)) == Delivered(DiskReplies(v, ops)) == v.data[v.pos..end]
  {
    if ops != [] {
      var n := |ops| - 1;
      var front := ops[..n];
      ReadsDeliver(v, front);
      ReadAdds(v.data, v.pos, Run(v, front), ops[n].n);
      var m, d := MemoryReplies(v, ops), DiskReplies(v, ops);
      assert m[..n] == MemoryReplies(v, front) && d[..n] == DiskReplies(v, front);
    }
  }

  /** The k-th operation of the run is an empty read at or past the end of the data. */
  ghost predicate EmptyReadAt(v: View, ops: seq<Op>, k: nat) {
    k < |ops| && EmptyReadAtEnd(Run(v, ops[..k]), ops[k])
  }

  ghost predicate HasEmptyRead(v: View, ops: seq<Op>) {
    exists k: nat :: EmptyReadAt(v, ops, k)
  }

  lemma EmptyReadPrefix(v: View, ops: seq<Op>, k: nat)
    requires ops != []
    ensures k < |ops| - 1 ==> (EmptyReadAt(v, ops, k) <==> EmptyReadAt(v, ops[..|ops| - 1], k))
  {
    if k < |ops| - 1 { assert ops[..|ops| - 1][..k] == ops[..k]; }
  }

  lemma EmptyReadLast(v: View, ops: seq<Op>)
    requires ops != []
    ensures HasEmptyRead(v, ops) <==> HasEmptyRead(v, ops[..|ops| - 1]) || EmptyReadAt(v, ops, |ops| - 1)
  {
    if HasEmptyRead(v, ops) {
      var k: nat :| EmptyReadAt(v, ops, k);
      EmptyReadPrefix(v, ops, k);
    }
    if HasEmptyRead(v, ops[..|ops| - 1]) {
      var k: nat :| EmptyReadAt(v, ops[..|ops| - 1], k);
      EmptyReadPrefix(v, ops, k);
    }
  }

  /** Memory and disk storages of the same bytes answer any sequence of operations alike, exactly
      when the sequence has no empty read at the end of the data: there memory reports the end
      and a file does not. */
  lemma {:induction false} ObservationallyEqual(v: View, ops: seq<Op>)
    ensures MemoryReplies(v, ops) == DiskReplies(v, ops) <==> !HasEmptyRead(v, ops)
  {
    if ops != [] {
      var n := |ops| - 1;
      var front := ops[..n];
      ObservationallyEqual(v, front);
      var m, d := MemoryReplies(v, ops), DiskReplies(v, ops);
      assert m[..n] == MemoryReplies(v, front) && d[..n] == DiskReplies(v, front);
      assert m[n] == MemoryReply(Run(v, front), ops[n]) && d[n] == DiskReply(Run(v, front), ops[n]);
      EmptyReadLast(v, ops);
      RepliesAgree(Run(v, front), ops[n]);
    }
  }

  /** One operation on a memory storage. */
  method OnMemory(memory: MemoryStorage, op: Op) returns (r: Reply)
    modifies memory, memory.stats
    ensures memory.Value() == Step(old(memory.Value()), op) && r == MemoryReply(old(memory.Value()), op)
  {
    match op {
      case Read(n) => r := memory.Read(n);
      case Seek(offset, whence) => r := memory.Seek(offset, whence);
      case ReadAll => r := memory.ReadAll();
      case Close =>
        memory.Close();
        r := Closed;
    }
  }

  /** One operation on a disk storage. */
  method OnDisk(disk: DiskStorage, op: Op) returns (r: Reply)
    requires disk.Valid()
    modifies disk, disk.file, disk.stats
    ensures disk.Value() == Step(old(disk.Value()), op) && r == DiskReply(old(disk.Value()), op)
  {
    match op {
      case Read(n) => r := disk.Read(n);
      case Seek(offset, whence) => r := disk.Seek(offset, whence);
      case ReadAll => r := disk.ReadAll();
      case Close =>
        disk.Close();
        r := Closed;
    }
  }

  /** A memory storage and a disk storage of the same bytes, driven side by side: they stay in
      step, and their answers are the same exactly when no read was empty at the end. */
  method DriveBoth(memory: MemoryStorage, disk: DiskStorage, ops: seq<Op>)
    returns (fromMemory: seq<Reply>, fromDisk: seq<Reply>)
    requires disk.Valid() && memory.Value() == disk.Value()
    modifies memory, memory.stats, disk, disk.file, disk.stats
    ensures memory.Value() == disk.Value() == Run(old(memory.Value()), ops)
    ensures fromMemory == fromDisk <==> !HasEmptyRead(old(memory.Value()), ops)
  {
    ghost var v := memory.Value();
    fromMemory, fromDisk := [], [];
    for i := 0 to |ops|
      invariant memory.Value() == disk.Value() == Run(v, ops[..i])
      invariant fromMemory == MemoryReplies(v, ops[..i]) && fromDisk == DiskReplies(v, ops[..i])
    {
      assert ops[..i + 1][..i] == ops[..i];
      var m := OnMemory(memory, ops[i]);
      var d := OnDisk(disk, ops[i]);
      fromMemory, fromDisk := fromMemory + [m], fromDisk + [d];
    }
    assert ops[..|ops|] == ops;
    ObservationallyEqual(v, ops);
  }

  /** After a close nothing is readable and nothing moves, however often it is closed again. */
  lemma {:induction false} ClosedForGood(v: View, ops: seq<Op>)
    requires v.closed
    ensures Run(v, ops) == v
    ensures forall k :: 0 <= k < |ops| ==>
              MemoryReplies(v, ops)[k] == if ops[k].Close? then Closed else Failed(StorageClosed)
  {
    if ops != [] { ClosedForGood(v, ops[..|ops| - 1]); }
  }

  /** Consecutive reads deliver the data in order: what was read plus what is left is the data. */
  lemma ReadsAreContiguous(v: View, n: nat)
    requires !v.closed && v.pos <= |v.data|
    ensures var v' := Step(v, Op.Read(n));
            v'.pos <= |v.data| && v.data[v.pos..] == v.data[v.pos..v'.pos] + v'.data[v'.pos..]
    ensures v.pos < |v.data| ==> MemoryReply(v, Op.Read(n)) == Got(v.data[v.pos..Step(v, Op.Read(n)).pos])
  {
  }
}
