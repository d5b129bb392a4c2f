/** Spooling a body to a temporary file, under every fault schedule of the file system and every chunking of the body. */
module BodySpool {
  import opened Bytes
  import opened AuditEvents

  const COPY_BUFFER_SIZE: nat := 32 * 1024

  // ----- Byte counters

  datatype Leg = Client | Backend
  datatype Direction = ReadBytes | WrittenBytes
  datatype ByteSeries = ByteSeries(leg: Leg, streaming: bool, direction: Direction)

  function Count(totals: map<ByteSeries, nat>, series: ByteSeries): nat {
    if series in totals then totals[series] else 0
  }

  function Added(totals: map<ByteSeries, nat>, series: ByteSeries, n: nat): map<ByteSeries, nat> {
    if n == 0 then totals else totals[series := Count(totals, series) + n]
  }

  lemma AddedTwice(totals: map<ByteSeries, nat>, series: ByteSeries, m: nat, n: nat)
    ensures Added(Added(totals, series, m), series, n) == Added(totals, series, m + n)
  {
  }

  /** The transport-bytes counter. */
  class TransportBytes {
    var totals: map<ByteSeries, nat>

    constructor ()
      ensures totals == map[]
    {
      totals := map[];
    }

    method Add(series: ByteSeries, n: int)
      modifies this
      ensures totals == if n <= 0 then old(totals) else Added(old(totals), series, n)
    {
      if n <= 0 {
        return;
      }
      totals := totals[series := Count(totals, series) + n];
    }
  }

  // ----- Bodies

  datatype ReadEnd = More | Eof | Failed
  datatype Read = Read(data: bytes, end: ReadEnd)

  /** The bytes a sequence of reads delivers, up to the first end; data may come together with the end. */
  function Content(script: seq<Read>): bytes {
    if script == [] then [] else script[0].data + if script[0].end == More then Content(script[1..]) else []
  }

  function Ending(script: seq<Read>): ReadEnd {
    if script == [] then Eof else if script[0].end == More then Ending(script[1..]) else script[0].end
  }

  /** How many reads into the copy buffer a run of `n` bytes takes. */
  function Pieces(n: nat): nat {
    if n == 0 then 0 else 1 + Pieces(n - Min(n, COPY_BUFFER_SIZE))
  }

  lemma OnePiece(n: nat)
    requires 0 < n <= 32768
    ensures Pieces(n) == 1
  {
    assert Pieces(n - Min(n, COPY_BUFFER_SIZE)) == 0;
  }

  /** The buffer takes 32768 bytes, and a longer run one more read for each further 32768. */
  lemma {:induction false} PiecesAreFull(n: nat, k: nat)
    requires 32768 * k < n <= 32768 * (k + 1)
    ensures Pieces(n) == k + 1
  {
    if k == 0 {
      OnePiece(n);
    } else {
      PiecesAreFull(n - 32768, k - 1);
    }
  }

  /** How many writes spooling takes: one for each read that brings data, up to the first end. */
  function Writes(script: seq<Read>): nat {
    if script == [] then 0 else Pieces(|script[0].data|) + if script[0].end == More then Writes(script[1..]) else 0
  }

  function Weight(script: seq<Read>): nat {
    if script == [] then 0 else 1 + |script[0].data| + Weight(script[1..])
  }

  function Flatten(chunks: seq<bytes>): bytes {
    if chunks == [] then [] else chunks[0] + Flatten(chunks[1..])
  }

  /** A reader that hands out the chunks one by one, its last one together with EOF or not. */
  function Delivery(chunks: seq<bytes>, eofWithData: bool): seq<Read> {
    if chunks == [] then [Read([], Eof)]
    else if |chunks| == 1 && eofWithData then [Read(chunks[0], Eof)]
    else [Read(chunks[0], More)] + Delivery(chunks[1..], eofWithData)
  }

  /** However a body is cut into reads, empty ones included, it is the body that is delivered. */
  lemma {:induction false} AnyChunkingDelivers(chunks: seq<bytes>, eofWithData: bool)
    ensures Content(Delivery(chunks, eofWithData)) == Flatten(chunks) && Ending(Delivery(chunks, eofWithData)) == Eof
  {
    if chunks != [] {
      AnyChunkingDelivers(chunks[1..], eofWithData);
      if !(|chunks| == 1 && eofWithData) {
        assert Delivery(chunks, eofWithData)[1..] == Delivery(chunks[1..], eofWithData);
      }
    }
  }

  /** What is left when a piece too long for the buffer is handed out in part. */
  function CutPiece(script: seq<Read>, limit: nat): seq<Read>
    requires script != [] && limit < |script[0].data|
  {
    [script[0].(data := script[0].data[limit..])] + script[1..]
  }

  lemma CutContent(data: bytes, limit: nat, later: bytes)
    requires limit <= |data|
    ensures data + later == data[..limit] + (data[limit..] + later)
  {
  }

  lemma HeadAndTail(script: seq<Read>, first: Read, tail: seq<Read>)
    requires script == [first] + tail
    ensures Content(script) == first.data + if first.end == More then Content(tail) else []
    ensures Ending(script) == if first.end == More then Ending(tail) else first.end
    ensures Weight(script) == 1 + |first.data| + Weight(tail)
    ensures Writes(script) == Pieces(|first.data|) + if first.end == More then Writes(tail) else 0
  {
    assert script[0] == first && script[1..] == tail;
  }

  lemma CutDelivers(script: seq<Read>, limit: nat)
    requires script != [] && 0 < limit < |script[0].data|
    ensures Content(script) == script[0].data[..limit] + Content(CutPiece(script, limit))
    ensures Ending(script) == Ending(CutPiece(script, limit))
    ensures Weight(CutPiece(script, limit)) < Weight(script)
    ensures limit == COPY_BUFFER_SIZE ==> Writes(script) == 1 + Writes(CutPiece(script, limit))
  {
    hide Content, Ending, Weight, Writes;
    var first, tail := script[0], script[1..];
    HeadAndTail(script, first, tail);
    HeadAndTail(CutPiece(script, limit), first.(data := first.data[limit..]), tail);
    CutContent(first.data, limit, if first.end == More then Content(tail) else []);
  }

  /** A body whose reads are counted under `series`; `script` is what the wrapped reader has yet to deliver. */
  class ObservedBody {
    const counter: TransportBytes
    const series: ByteSeries
    var script: seq<Read>
    var closed: bool

    constructor (counter: TransportBytes, series: ByteSeries, script: seq<Read>)
      ensures this.counter == counter && this.series == series && this.script == script && !closed
    {
      this.counter := counter;
      this.series := series;
      this.script := script;
      this.closed := false;
    }

    /** One read into a buffer of `limit` bytes; a longer piece is delivered over several reads. */
    method Read(limit: nat) returns (data: bytes, end: ReadEnd)
      requires limit > 0
      modifies this`script, counter
      ensures |data| <= limit
      ensures Content(old(script)) == data + if end == More then Content(script) else []
      ensures Ending(old(script)) == if end == More then Ending(script) else end
      ensures end == More ==> Weight(script) < Weight(old(script))
      ensures limit == COPY_BUFFER_SIZE ==>
                Writes(old(script)) == (if data == [] then 0 else 1) + if end == More then Writes(script) else 0
      ensures counter.totals == Added(old(counter.totals), series, |data|)
    {
      if script == [] {
        return [], Eof;
      }
      var next := script[0];
      if |next.data| <= limit {
        if limit == COPY_BUFFER_SIZE && next.data != [] {
          OnePiece(|next.data|);
        }
        data, end, script := next.data, next.end, script[1..];
      } else {
        CutDelivers(script, limit);
        data, end := next.data[..limit], More;
        script := [next.(data := next.data[limit..])] + script[1..];
      }
      counter.Add(series, |data|);
    }

    method Close()
      modifies this`closed
      ensures closed
    {
      closed := true;
    }
  }

  // ----- The file system

  type Path = nat
  type Handle = nat
  datatype OpenFile = OpenFile(path: Path, offset: nat)

  /** The directory after an attempt to remove the file at `path`. */
  function AfterRemoval(files: map<Path, bytes>, stuck: set<Path>, path: Path): map<Path, bytes> {
    if path in stuck then files else files - {path}
  }

  /**
   The temporary directory and the process's open files. Creating, writing, closing, opening and reading are numbered, and operation
   number n fails exactly when n is in `faults`; a removal fails exactly when its path is in `stuck`.
   */
  class FileSystem {
    const faults: set<nat>
    const stuck: set<Path>
    var clock: nat
    var next: nat
    var files: map<Path, bytes>
    var open: map<Handle, OpenFile>

    ghost predicate Valid()
      reads this
    {
      && (forall path :: path in files ==> path < next)
      && (forall handle :: handle in open ==> (
              && handle < next
              && open[handle].path in files
              && open[handle].offset <= |files[open[handle].path]|))
    }

    ghost predicate Faultless(from: nat, to: nat) {
      forall i :: from <= i < to ==> i !in faults
    }

    lemma FaultlessJoins(a: nat, b: nat, c: nat)
      requires a <= b <= c
      ensures Faultless(a, c) <==> Faultless(a, b) && Faultless(b, c)
    {
    }

    lemma OpenFileExists(handle: Handle)
      requires Valid() && handle in open
      ensures open[handle].path in files
    {
    }

    constructor (faults: set<nat>, stuck: set<Path>)
      ensures Valid() && clock == 0 && files == map[] && open == map[] && this.faults == faults && this.stuck == stuck
    {
      this.faults := faults;
      this.stuck := stuck;
      clock, next, files, open := 0, 0, map[], map[];
    }

    method CreateTemp() returns (ok: bool, path: Path, handle: Handle)
      requires Valid()
      modifies this
      ensures Valid() && clock == old(clock) + 1
      ensures ok == (old(clock) !in faults)
      ensures ok ==> path !in old(files) && handle !in old(open)
      ensures ok ==> files == old(files)[path := []] && open == old(open)[handle := OpenFile(path, 0)]
      ensures !ok ==> files == old(files) && open == old(open)
    {
      ok, path, handle := clock !in faults, next, next;
      clock := clock + 1;
      if ok {
        files, open, next := files[path := []], open[handle := OpenFile(path, 0)], next + 1;
      }
    }

    /** Appends; a failed write may have written any part of the chunk. */
    method Write(handle: Handle, chunk: bytes) returns (ok: bool, ghost written: bytes)
      requires Valid() && handle in open
      modifies this`clock, this`files
      ensures Valid() && clock == old(clock) + 1
      ensures ok == (old(clock) !in faults) && written <= chunk && (ok ==> written == chunk)
      ensures files == old(files)[open[handle].path := old(files)[open[handle].path] + written]
    {
      ok := clock !in faults;
      clock := clock + 1;
      var path := open[handle].path;
      var count := |chunk|;
      if !ok {
        count :| 0 <= count <= |chunk|;
      }
      written := chunk[..count];
      files := files[path := files[path] + chunk[..count]];
    }

    /** The descriptor is released whether or not close reports an error. */
    method Close(handle: Handle) returns (ok: bool)
      requires Valid() && handle in open
      modifies this`clock, this`open
      ensures Valid() && clock == old(clock) + 1
      ensures ok == (old(clock) !in faults)
      ensures open == old(open) - {handle}
    {
      ok := clock !in faults;
      clock, open := clock + 1, open - {handle};
    }

    /** A close by someone else, whose outcome nobody sees. */
    method Release(handle: Handle)
      requires Valid() && handle in open
      modifies this`open
      ensures Valid() && open == old(open) - {handle}
    {
      open := open - {handle};
    }

    method Remove(path: Path) returns (ok: bool)
      requires Valid() && path in files && forall handle :: handle in open ==> open[handle].path != path
      modifies this`files
      ensures Valid() && ok == (path !in stuck) && files == AfterRemoval(old(files), stuck, path)
    {
      ok := path !in stuck;
      if ok {
        files := files - {path};
      }
    }

    method Open(path: Path) returns (ok: bool, handle: Handle)
      requires Valid() && path in files
      modifies this`clock, this`next, this`open
      ensures Valid() && clock == old(clock) + 1
      ensures ok == (old(clock) !in faults)
      ensures ok ==> handle !in old(open) && open == old(open)[handle := OpenFile(path, 0)]
      ensures !ok ==> open == old(open)
    {
      ok, handle := clock !in faults, next;
      clock := clock + 1;
      if ok {
        open, next := open[handle := OpenFile(path, 0)], next + 1;
      }
    }

    /** Reads up to `limit` bytes at the handle's offset. */
    method Read(handle: Handle, limit: nat) returns (data: bytes, end: ReadEnd)
      requires Valid() && handle in open && limit > 0
      modifies this`clock, this`open
      ensures Valid() && clock == old(clock) + 1
      ensures var file := old(open)[handle];
              && file.offset + |data| <= |files[file.path]|
              && data == files[file.path][file.offset..file.offset + |data|]
              && open == old(open)[handle := OpenFile(file.path, file.offset + |data|)]
              && (end == Eof ==> data == [] && file.offset == |files[file.path]|)
              && (end == More ==> data != [] && |data| == Min(limit, |files[file.path]| - file.offset))
              && (end == Failed ==> data == [])
      ensures end == Failed <==> old(clock) in faults
    {
      var file := open[handle];
      var rest := files[file.path][file.offset..];
      if clock in faults {
        data, end := [], Failed;
      } else if rest == [] {
        data, end := [], Eof;
      } else {
        data, end := rest[..Min(limit, |rest|)], More;
      }
      clock := clock + 1;
      open := open[handle := OpenFile(file.path, file.offset + |data|)];
    }
  }

  // ----- The spool

  datatype SpooledBody = SpooledBody(path: Path, captured: Captured)

  /**
   The exits after the read loop: a failed copy is closed and removed, ignoring both outcomes;
   a complete copy is closed, and removed only if close fails.
   */
  method Seal(fs: FileSystem, handle: Handle, path: Path, copied: bool) returns (ok: bool)
    requires fs.Valid() && handle in fs.open && path in fs.files
    requires forall h :: h in fs.open && fs.open[h].path == path ==> h == handle
    modifies fs`clock, fs`open, fs`files
    ensures fs.Valid() && fs.open == old(fs.open) - {handle}
    ensures ok <==> copied && old(fs.clock) !in fs.faults
    ensures fs.clock == old(fs.clock) + 1
    ensures fs.files == if ok then old(fs.files) else AfterRemoval(old(fs.files), fs.stuck, path)
  {
    ok := fs.Close(handle);
    if !copied {
      var _ := fs.Remove(path);
      return false;
    }
    if !ok {
      var _ := fs.Remove(path);
    }
  }

  /** How much of `chunk` goes into the bounded capture. */
  function Captures(captured: bytes, chunk: bytes, maxCaptureBytes: int): bytes {
    if |captured| < maxCaptureBytes then captured + chunk[..Min(maxCaptureBytes - |captured|, |chunk|)] else captured
  }

  /** What the loop does with one chunk: unless it is empty, append it to the file, count it, keep what still fits. */
  method SpoolChunk(fs: FileSystem, handle: Handle, chunk: bytes, maxCaptureBytes: int, captured: bytes, size: nat)
    returns (ok: bool, captured': bytes, size': nat, ghost written: bytes)
    requires fs.Valid() && handle in fs.open
    modifies fs`clock, fs`files
    ensures fs.Valid() && fs.clock == old(fs.clock) + (if chunk == [] then 0 else 1)
    ensures ok <==> chunk == [] || old(fs.clock) !in fs.faults
    ensures var path := fs.open[handle].path; fs.files == old(fs.files)[path := old(fs.files)[path] + written]
    ensures ok ==> written == chunk && size' == size + |chunk| && captured' == Captures(captured, chunk, maxCaptureBytes)
  {
    captured', size', ok, written := captured, size, true, chunk;
    if |chunk| > 0 {
      ok, written := fs.Write(handle, chunk);
      if !ok {
        return;
      }
      size' := size' + |chunk|;
      if |captured'| < maxCaptureBytes {
        var remaining := maxCaptureBytes - |captured'|;
        if remaining > |chunk| {
          remaining := |chunk|;
        }
        captured' := captured' + chunk[..remaining];
      }
    } else {
      assert fs.files[fs.open[handle].path] + chunk == fs.files[fs.open[handle].path];
    }
  }

  /** What is still to come after a read that ended with `end`. */
  function Pending(end: ReadEnd, script: seq<Read>): bytes {
    if end == More then Content(script) else []
  }

  function PendingEnd(end: ReadEnd, script: seq<Read>): ReadEnd {
    if end == More then Ending(script) else end
  }

  function PendingWrites(end: ReadEnd, script: seq<Read>): nat {
    if end == More then Writes(script) else 0
  }

  /** The file, the count and the bounded prefix after `content` has gone through. */
  ghost predicate Spooled(content: bytes, maxCaptureBytes: int, captured: bytes, size: nat) {
    size == |content| && captured == Capture(content, maxCaptureBytes).bytes
  }

  lemma SpooledMore(total: bytes, content: bytes, chunk: bytes, rest: bytes, maxCaptureBytes: int, captured: bytes, size: nat)
    requires Spooled(content, maxCaptureBytes, captured, size)
    requires total == content + (chunk + rest)
    ensures Spooled(content + chunk, maxCaptureBytes, Captures(captured, chunk, maxCaptureBytes), size + |chunk|)
    ensures total == (content + chunk) + rest
  {
    if 0 < maxCaptureBytes {
      var kept := Min(|content + chunk|, maxCaptureBytes);
      if |content| < maxCaptureBytes {
        assert captured == content;
        assert (content + chunk)[..kept] == content + chunk[..kept - |content|];
      } else {
        assert (content + chunk)[..maxCaptureBytes] == content[..maxCaptureBytes];
      }
    }
    ConcatAssociates(content, chunk, rest);
  }

  /** The read loop: a full copy in the file, a bounded prefix, and a byte count, all at once. */
  method CopyToFile(fs: FileSystem, body: ObservedBody, handle: Handle, maxCaptureBytes: int)
    returns (ok: bool, captured: bytes, size: nat, ghost content: bytes, ghost counted: nat)
    requires fs.Valid() && handle in fs.open && fs.files[fs.open[handle].path] == []
    modifies fs`clock, fs`files, body`script, body.counter
    ensures fs.Valid()
    ensures ok <==> && fs.Faultless(old(fs.clock), old(fs.clock) + Writes(old(body.script)))
                    && Ending(old(body.script)) == Eof
    ensures ok ==> fs.clock == old(fs.clock) + Writes(old(body.script))
    ensures fs.files == old(fs.files)[fs.open[handle].path := content]
    ensures ok ==> content == Content(old(body.script)) && Spooled(content, maxCaptureBytes, captured, size)
    ensures body.counter.totals == Added(old(body.counter.totals), body.series, counted)
    ensures counted <= |Content(old(body.script))| && (ok ==> counted == |content|)
  {
    hide Content, Ending, Writes, Weight, Captures;
    captured, size, ok, content, counted := [], 0, true, [], 0;
    var end := More;
    ghost var total, path := Content(body.script), fs.open[handle].path;
    ghost var last := fs.clock + Writes(body.script);
    while ok && end == More
      invariant fs.Valid()
      invariant ok ==> fs.Faultless(old(fs.clock), fs.clock) && fs.clock + PendingWrites(end, body.script) == last
      invariant !ok ==> !fs.Faultless(old(fs.clock), last)
      invariant old(fs.clock) <= fs.clock <= last
      invariant fs.files == old(fs.files)[path := content]
      invariant Ending(old(body.script)) == PendingEnd(end, body.script)
      invariant ok ==> total == content + Pending(end, body.script) && Spooled(content, maxCaptureBytes, captured, size)
      invariant body.counter.totals == Added(old(body.counter.totals), body.series, counted)
      invariant counted + |Pending(end, body.script)| == |total| && (ok ==> counted == |content|)
      decreases ok, end == More, Weight(body.script)
    {
      var chunk;
      chunk, end := body.Read(COPY_BUFFER_SIZE);
      AddedTwice(old(body.counter.totals), body.series, counted, |chunk|);
      counted := counted + |chunk|;
      SpooledMore(total, content, chunk, Pending(end, body.script), maxCaptureBytes, captured, size);
      ghost var written;
      ok, captured, size, written := SpoolChunk(fs, handle, chunk, maxCaptureBytes, captured, size);
      content := content + written;
    }
    ok := ok && end == Eof;
  }

  /** Nothing changed from `files` to `files'` but that some new files that cannot be removed are left. */
  ghost predicate OnlyStuckLeft(files: map<Path, bytes>, stuck: set<Path>, files': map<Path, bytes>) {
    && (forall path :: path in files ==> path in files' && files'[path] == files[path])
    && (forall path :: path in files' && path !in files ==> path in stuck)
  }

  lemma NothingLeft(files: map<Path, bytes>, stuck: set<Path>)
    ensures OnlyStuckLeft(files, stuck, files)
  {
  }

  /** Where every file can be removed, none is left. */
  lemma NoneStuckNoneLeft(files: map<Path, bytes>, stuck: set<Path>, files': map<Path, bytes>)
    requires OnlyStuckLeft(files, stuck, files')
    ensures stuck == {} ==> files' == files
  {
  }

  lemma OldFilesStay(files: map<Path, bytes>, stuck: set<Path>, files': map<Path, bytes>, path: Path)
    requires OnlyStuckLeft(files, stuck, files') && path in files
    ensures path in files'
  {
  }

  lemma NewFileRemoved(files: map<Path, bytes>, stuck: set<Path>, path: Path, content: bytes)
    requires path !in files
    ensures OnlyStuckLeft(files, stuck, AfterRemoval(files[path := content], stuck, path))
  {
  }

  /** A new file that outlives some steps and is then removed leaves nothing behind but what cannot be removed. */
  lemma CleanupComposes(files: map<Path, bytes>, stuck: set<Path>, path: Path, content: bytes, files': map<Path, bytes>)
    requires path !in files
    requires OnlyStuckLeft(files[path := content], stuck, files')
    ensures OnlyStuckLeft(files, stuck, AfterRemoval(files', stuck, path))
  {
  }

  /** `spool` is a new file holding exactly `content`, with the bounded capture of it. */
  ghost predicate IsSpool(spool: SpooledBody, files: map<Path, bytes>, files': map<Path, bytes>,
                          content: bytes, maxCaptureBytes: int)
  {
    && spool.path !in files
    && files' == files[spool.path := content]
    && spool.captured == Capture(content, maxCaptureBytes)
  }

  /** The operations a spool makes when nothing fails: create, one write for each read with data, close. */
  function SpoolOperations(script: seq<Read>): nat {
    Writes(script) + 2
  }

  /** A spool started at operation `from` will succeed: none of its operations fails, nor does the body. */
  ghost predicate Spools(fs: FileSystem, from: nat, script: seq<Read>) {
    fs.Faultless(from, from + SpoolOperations(script)) && Ending(script) == Eof
  }

  /** Fills and closes the temporary file just created. */
  method FillTemp(fs: FileSystem, body: ObservedBody, handle: Handle, maxCaptureBytes: int)
    returns (r: Option<Captured>, ghost content: bytes, ghost counted: nat)
    requires fs.Valid() && handle in fs.open && fs.files[fs.open[handle].path] == []
    requires forall h :: h in fs.open && fs.open[h].path == fs.open[handle].path ==> h == handle
    modifies fs, body, body.counter
    ensures fs.Valid() && fs.open == old(fs.open) - {handle}
    ensures r.Some? <==> && fs.Faultless(old(fs.clock), old(fs.clock) + Writes(old(body.script)) + 1)
                         && Ending(old(body.script)) == Eof
    ensures r.Some? ==> fs.clock == old(fs.clock) + Writes(old(body.script)) + 1
    ensures r.Some? ==> content == Content(old(body.script)) && r.value == Capture(content, maxCaptureBytes)
    ensures body.counter.totals == Added(old(body.counter.totals), body.series, counted)
    ensures counted <= |Content(old(body.script))| && (r.Some? ==> counted == |content|)
    ensures var path := old(fs.open)[handle].path;
            var filled := old(fs.files)[path := content];
            fs.files == if r.Some? then filled else AfterRemoval(filled, fs.stuck, path)
  {
    ghost var path := fs.open[handle].path;
    var ok, captured, size;
    ok, captured, size, content, counted := CopyToFile(fs, body, handle, maxCaptureBytes);
    ok := Seal(fs, handle, fs.open[handle].path, ok);
    r := if ok then Some(Captured(captured, size, size > maxCaptureBytes)) else None;
  }

  method Cleanup(fs: FileSystem, spool: SpooledBody) returns (ok: bool)
    requires fs.Valid() && spool.path in fs.files && forall h :: h in fs.open ==> fs.open[h].path != spool.path
    modifies fs`files
    ensures fs.Valid() && (ok <==> spool.path !in fs.files)
    ensures spool.path in fs.files <==> spool.path in fs.stuck
    ensures fs.files == AfterRemoval(old(fs.files), fs.stuck, spool.path)
  {
    ok := fs.Remove(spool.path);
  }

  method SpoolBody(fs: FileSystem, body: ObservedBody, maxCaptureBytes: int) returns (r: Option<SpooledBody>, ghost counted: nat)
    requires fs.Valid()
    modifies fs, body, body.counter
    ensures fs.Valid() && fs.open == old(fs.open) && body.closed
    ensures r.Some? <==> Spools(fs, old(fs.clock), old(body.script))
    ensures r.Some? ==> fs.clock == old(fs.clock) + SpoolOperations(old(body.script))
    ensures r.Some? ==> forall h :: h in fs.open ==> fs.open[h].path != r.value.path
    ensures r.Some? ==> IsSpool(r.value, old(fs.files), fs.files, Content(old(body.script)), maxCaptureBytes)
    ensures body.counter.totals == Added(old(body.counter.totals), body.series, counted)
    ensures counted <= |Content(old(body.script))| && (r.Some? ==> counted == |Content(old(body.script))|)
    ensures r.None? ==> OnlyStuckLeft(old(fs.files), fs.stuck, fs.files)
    ensures r.None? && fs.stuck == {} ==> fs.files == old(fs.files)
  {
    r, counted := None, 0;
    var ok, path, handle := fs.CreateTemp();
    if ok {
      var captured;
      ghost var content;
      captured, content, counted := FillTemp(fs, body, handle, maxCaptureBytes);
      OverwriteTwice(old(fs.files), path, [], content);
      InsertThenRemove(old(fs.open), handle, OpenFile(path, 0));
      if captured.Some? {
        r := Some(SpooledBody(path, captured.value));
      } else {
        NewFileRemoved(old(fs.files), fs.stuck, path, content);
      }
    }
    body.Close();
  }
}
