/** How content enters the objects directory: streamed into a part file, hashed, renamed. */
module Staging {
  import opened Base
  import opened ChunkHasher

  type PartId(==, 0, !new)

  datatype ReadEnd = More | Eof | Failure

  /** One read from the source file: the bytes it delivered, and whether it was the last. */
  datatype Read = Read(bytes: Bytes, end: ReadEnd)

  datatype StageError = Canceled | ReadFailed

  /** What streaming delivers from the k-th read on; running out of reads is the end of the file. */
  function Streamed(inputs: seq<Read>, canceled: set<nat>, k: nat): Result<Bytes, StageError>
    decreases |inputs| - k
  {
    if k in canceled then Err(Canceled)
    else if k >= |inputs| || inputs[k].end == Eof then Ok(if k < |inputs| then inputs[k].bytes else [])
    else if inputs[k].end == Failure then Err(ReadFailed)
    else match Streamed(inputs, canceled, k + 1)
      case Ok(rest) => Ok(inputs[k].bytes + rest)
      case Err(e) => Err(e)
  }

  /** All the bytes the first `n` reads deliver. */
  function Delivered(inputs: seq<Read>, n: nat): Bytes
    requires n <= |inputs|
  {
    if n == 0 then [] else Delivered(inputs, n - 1) + inputs[n - 1].bytes
  }

  /** Where streaming stops: at the read that says so, or when the reads run out. */
  function LastRead(inputs: seq<Read>, k: nat): (n: nat)
    requires k <= |inputs|
    ensures k <= n <= |inputs|
    ensures forall i :: k <= i < n ==> inputs[i].end == More
    ensures n < |inputs| ==> inputs[n].end != More
    decreases |inputs| - k
  {
    if k == |inputs| || inputs[k].end != More then k else LastRead(inputs, k + 1)
  }

  lemma {:induction false} StreamedFrom(inputs: seq<Read>, canceled: set<nat>, k: nat)
    requires k <= |inputs|
    ensures var last := LastRead(inputs, k);
      match Streamed(inputs, canceled, k)
      case Ok(rest) =>
        && (forall i :: k <= i <= last ==> i !in canceled) && (last < |inputs| ==> inputs[last].end == Eof)
        && Delivered(inputs, k) + rest == Delivered(inputs, if last < |inputs| then last + 1 else last)
      case Err(Canceled) => exists i :: k <= i <= last && i in canceled
      case Err(ReadFailed) =>
        (forall i :: k <= i <= last ==> i !in canceled) && last < |inputs| && inputs[last].end == Failure
    decreases |inputs| - k
  {
    if k !in canceled && k < |inputs| && inputs[k].end == More {
      StreamedFrom(inputs, canceled, k + 1);
      if Streamed(inputs, canceled, k + 1).Ok? {
        var rest := Streamed(inputs, canceled, k + 1).value;
        assert Delivered(inputs, k) + (inputs[k].bytes + rest) == Delivered(inputs, k) + inputs[k].bytes + rest;
      }
    }
  }

  /**
   What streaming means.  It ends at the first read that is not followed by more; it succeeds
   exactly if no read up to that one was cancelled and that one did not fail, and then its
   content is all the bytes of those reads.
   */
  lemma StreamedExactly(inputs: seq<Read>, canceled: set<nat>)
    ensures var last, r := LastRead(inputs, 0), Streamed(inputs, canceled, 0);
      && (r == Err(Canceled) <==> exists i :: 0 <= i <= last && i in canceled)
      && (r == Err(ReadFailed) <==> r != Err(Canceled) && last < |inputs| && inputs[last].end == Failure)
      && (r.Ok? ==> r.value == Delivered(inputs, if last < |inputs| then last + 1 else last))
  {
    StreamedFrom(inputs, canceled, 0);
    var r := Streamed(inputs, canceled, 0);
    if r.Ok? {
      assert [] + r.value == r.value;
    }
  }

  /** The two directories of the store. */
  class Area {
    var incoming: map<PartId, Bytes>
    var objects: map<Hash, Bytes>

    constructor (objects: map<Hash, Bytes>)
      ensures incoming == map[] && this.objects == objects
    {
      incoming, this.objects := map[], objects;
    }
  }

  class StagedImport {
    const area: Area
    const hash: Hash
    const size: nat
    const chunks: seq<ChunkInfo>
    var part: Option<PartId>

    constructor (area: Area, part: PartId, hash: Hash, size: nat, chunks: seq<ChunkInfo>)
      ensures this.area == area && this.part == Some(part) && this.hash == hash && this.size == size && this.chunks == chunks
    {
      this.area, this.part, this.hash, this.size, this.chunks := area, Some(part), hash, size, chunks;
    }

    /** While staged, the part file holds content of the announced hash and size. */
    ghost predicate Valid()
      reads this, area
    {
      part.Some? ==>
        && part.value in area.incoming
        && Sha(area.incoming[part.value]) == hash && |area.incoming[part.value]| == size
    }

    /** The rename: the content appears under its own hash, and nowhere else. */
    method Commit()
      requires Valid() && part.Some?
      modifies this`part, area
      ensures Valid() && part == None
      ensures area.objects == old(area.objects)[hash := old(area.incoming[part.value])]
      ensures area.incoming == old(area.incoming) - {old(part).value}
      ensures hash in area.objects && Sha(area.objects[hash]) == hash && |area.objects[hash]| == size
    {
      area.objects := area.objects[hash := area.incoming[part.value]];
      area.incoming := area.incoming - {part.value};
      part := None;
    }

    /** Safe before and after Commit, and any number of times: only the part file ever goes. */
    method Discard()
      requires Valid()
      modifies this`part, area
      ensures Valid() && part == None && area.objects == old(area.objects)
      ensures area.incoming == if old(part).Some? then old(area.incoming) - {old(part).value} else old(area.incoming)
    {
      if part == None {
        return;
      }
      area.incoming := area.incoming - {part.value};
      part := None;
    }
  }

  /**
   Streams the source into a new part file.  However the reads split the content, success
   means the part file is the whole content, with its hash, its size and its batch manifest;
   a failed read or a cancellation leaves both directories as they were.
   */
  method Stage(area: Area, part: PartId, inputs: seq<Read>, canceled: set<nat>, chunkSize: int)
    returns (r: Result<StagedImport, StageError>)
    requires part !in area.incoming
    modifies area
    ensures area.objects == old(area.objects)
    ensures match Streamed(inputs, canceled, 0)
      case Err(e) => r == Err(e) && area.incoming == old(area.incoming)
      case Ok(content) =>
        && r.Ok? && fresh(r.value) && r.value.area == area && r.value.part == Some(part) && r.value.Valid()
        && area.incoming == old(area.incoming)[part := content]
        && r.value.hash == Sha(content) && r.value.size == |content|
        && IsManifest(r.value.chunks, content, if chunkSize <= 0 then DEFAULT_CHUNK else chunkSize)
  {
    var chunker := new Hasher(chunkSize);
    var streamed := Stream(area, part, inputs, canceled, chunker);
    if streamed.Err? {
      return Err(streamed.error);
    }
    var content := streamed.value;
    var chunks := chunker.Finish();
    var staged := new StagedImport(area, part, Sha(content), |content|, chunks);
    r := Ok(staged);
  }

  /** The read and write loop: part file, overall hash and chunk hasher take every read alike. */
  method Stream(area: Area, part: PartId, inputs: seq<Read>, canceled: set<nat>, chunker: Hasher)
    returns (r: Result<Bytes, StageError>)
    requires part !in area.incoming && chunker.Valid() && chunker.written == []
    modifies area, chunker
    ensures area.objects == old(area.objects) && r == Streamed(inputs, canceled, 0)
    ensures match r
      case Err(_) => area.incoming == old(area.incoming)
      case Ok(content) =>
        area.incoming == old(area.incoming)[part := content] && chunker.Valid() && chunker.written == content
  {
    var content: Bytes := [];           // the part file, and what the overall hash has absorbed
    area.incoming := area.incoming[part := content];
    ghost var goal := Streamed(inputs, canceled, 0);
    assert goal.Ok? ==> [] + goal.value == goal.value;
    var k := 0;
    var ended := false;
    while !ended
      invariant chunker.Valid() && chunker.written == content
      invariant area.objects == old(area.objects) && area.incoming == old(area.incoming)[part := content]
      invariant ended ==> goal == Ok(content)
      invariant !ended ==> Continues(content, Streamed(inputs, canceled, k), goal)
      decreases |inputs| - k, !ended
    {
      if k in canceled {
        Cleanup(area, part);
        return Err(Canceled);
      }
      if k >= |inputs| {
        ended := true;
        assert content + [] == content;
        break;
      }
      var read := inputs[k];
      if |read.bytes| > 0 {
        var _ := chunker.Write(read.bytes);
      } else {
        assert content + read.bytes == content;
      }
      ContinuesRead(content, inputs, canceled, k, goal);
      content := content + read.bytes;
      area.incoming := area.incoming[part := content];
      if read.end == Eof {
        ended := true;
      } else if read.end == Failure {
        Cleanup(area, part);
        return Err(ReadFailed);
      }
      k := k + 1;
    }
    r := Ok(content);
  }

  method Cleanup(area: Area, part: PartId)
    modifies area
    ensures area.objects == old(area.objects) && area.incoming == old(area.incoming) - {part}
  {
    area.incoming := area.incoming - {part};
  }

  /** With `content` written, what is still to come completes the goal. */
  ghost predicate Continues(content: Bytes, rest: Result<Bytes, StageError>, goal: Result<Bytes, StageError>) {
    match rest
    case Ok(more) => goal == Ok(content + more)
    case Err(e) => goal == Err(e)
  }

  lemma ContinuesRead(content: Bytes, inputs: seq<Read>, canceled: set<nat>, k: nat, goal: Result<Bytes, StageError>)
    requires k < |inputs| && k !in canceled && Continues(content, Streamed(inputs, canceled, k), goal)
    ensures match inputs[k].end
      case More => Continues(content + inputs[k].bytes, Streamed(inputs, canceled, k + 1), goal)
      case Eof => goal == Ok(content + inputs[k].bytes)
      case Failure => goal == Err(ReadFailed)
  {
    if inputs[k].end == More && Streamed(inputs, canceled, k + 1).Ok? {
      var rest := Streamed(inputs, canceled, k + 1).value;
      assert content + (inputs[k].bytes + rest) == content + inputs[k].bytes + rest;
    }
  }
}
