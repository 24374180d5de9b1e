/** Resumable download of a replica into a scratch file that outlives attempts. */
module Download {
  import opened Base

  const BUFFER := 1024 * 1024

  /**
   A response body: the bytes the source will hand over, how many at most in each read, and
   whether the connection then breaks.  When the reads run out the body has ended.
   */
  datatype Body = Body(stream: Bytes, sizes: seq<nat>, breaks: bool)

  datatype Response =
    | NoResponse
    | Response(status: int, advertised: Option<Hash>, rangeStart: Option<nat>, body: Body)

  /** The source's answer to a request from each offset; none where the request fails. */
  type Source = map<nat, Response>

  function Ask(source: Source, offset: nat): Response {
    if offset in source then source[offset] else NoResponse
  }

  datatype DownloadError =
    | RequestFailed | BadStatus | HashMismatch | OffsetMismatch | Canceled | ReadFailed | SizeMismatch

  /** How the copy loop ended. */
  datatype End = Ended | Broken | Stopped

  function Min(a: nat, b: nat): nat {
    if a < b then a else b
  }

  // ---- Specification ----

  /** How many bytes of the stream a copy loop appended, and how it ended. */
  datatype Copy = Copy(taken: nat, end: End)

  /** The size of the k-th read, with `taken` bytes read before and room for `room` in all. */
  function ReadSize(body: Body, k: nat, taken: nat, room: nat): (n: nat)
    requires k < |body.sizes| && taken <= room && taken <= |body.stream|
    ensures taken + n <= room && taken + n <= |body.stream|
  {
    Min(body.sizes[k], Min(Min(BUFFER, room - taken), |body.stream| - taken))
  }

  /** The copy loop from its k-th read on. */
  function Copied(body: Body, canceled: set<nat>, k: nat, taken: nat, room: nat): (r: Copy)
    requires taken <= room && taken <= |body.stream|
    ensures r.taken <= room && r.taken <= |body.stream|
    decreases |body.sizes| - k
  {
    if taken == room then Copy(taken, Ended)
    else if k in canceled then Copy(taken, Stopped)
    else if k >= |body.sizes| then Copy(taken, if body.breaks then Broken else Ended)
    else Copied(body, canceled, k + 1, taken + ReadSize(body, k, taken, room), room)
  }

  /** A file longer than the object is useless and starts over. */
  function Resumable(content: Bytes, size: nat): Bytes {
    if |content| > size then [] else content
  }

  function Outcome(end: End, length: nat, size: nat): Result<(), DownloadError> {
    match end
    case Stopped => Err(Canceled)
    case Broken => Err(ReadFailed)
    case Ended => if length == size then Ok(()) else Err(SizeMismatch)
  }

  /** Whether a response is refused before any of its body is read. */
  function Refused(offset: nat, sha: Hash, r: Response): Option<DownloadError> {
    if r.NoResponse? then Some(RequestFailed)
    else if r.status != 200 && r.status != 206 then Some(BadStatus)
    else if r.advertised.Some? && r.advertised.value != sha then Some(HashMismatch)
    else if offset > 0 && r.status == 206 && r.rangeStart != Some(offset) then Some(OffsetMismatch)
    else None
  }

  /** What of the scratch file the body continues: all of it for a partial response. */
  function Continued(kept: Bytes, r: Response): Bytes
    requires r.Response?
  {
    if |kept| > 0 && r.status == 206 then kept else []
  }

  /** The scratch file and the outcome after one attempt; `source` answers a request from an offset. */
  function Attempt(content: Bytes, size: nat, sha: Hash, source: Source, canceled: set<nat>)
    : (Bytes, Result<(), DownloadError>)
  {
    var kept := Resumable(content, size);
    if |kept| == size then (kept, Ok(()))
    else
      var r := Ask(source, |kept|);
      var refused := Refused(|kept|, sha, r);
      if refused.Some? then (kept, Err(refused.value))
      else
        Accepted(kept, size, r, canceled)
  }

  /** The scratch file and the outcome once a response is accepted. */
  function Accepted(kept: Bytes, size: nat, r: Response, canceled: set<nat>): (Bytes, Result<(), DownloadError>)
    requires |kept| <= size && r.Response?
  {
    var base := Continued(kept, r);
    var copy := Copied(r.body, canceled, 0, 0, size + 1 - |base|);
    (base + r.body.stream[..copy.taken], Outcome(copy.end, |base| + copy.taken, size))
  }

  /**
   The source serves these bytes: a full response carries them from the start, a partial one
   from the position its Content-Range names, and partial ones come only when asked for
   (section 14 of RFC 9110).  Either may be cut short anywhere.
   */
  ghost predicate Serves(source: Source, data: Bytes) {
    forall offset: nat {:trigger Ask(source, offset)} ::
      match Ask(source, offset)
      case NoResponse => true
      case Response(status, _, rangeStart, body) =>
        && (status == 200 ==> body.stream <= data)
        && (status == 206 ==> offset > 0 && rangeStart.Some? && rangeStart.value <= |data|
                              && body.stream <= data[rangeStart.value..])
  }

  /** Against any source at all: at most one byte too many is kept, and success means the exact length. */
  lemma AttemptBounded(content: Bytes, size: nat, sha: Hash, source: Source, canceled: set<nat>)
    ensures var (after, outcome) := Attempt(content, size, sha, source, canceled);
      |after| <= size + 1 && (outcome.Ok? ==> |after| == size)
  {
  }

  lemma PrefixExtends(base: Bytes, more: Bytes, data: Bytes)
    requires base <= data && more <= data[|base|..]
    ensures base + more <= data
  {
    assert data == base + data[|base|..];
  }

  /** What an accepted response carries goes on from where the file continues. */
  lemma HonestBody(content: Bytes, data: Bytes, sha: Hash, r: Response)
    requires content <= data && Refused(|content|, sha, r) == None
    requires r.status == 200 ==> r.body.stream <= data
    requires r.status == 206 ==>
      |content| > 0 && r.rangeStart.Some? && r.rangeStart.value <= |data| && r.body.stream <= data[r.rangeStart.value..]
    ensures Continued(content, r) <= data && r.body.stream <= data[|Continued(content, r)|..]
  {
    assert data[0..] == data;
  }

  /** Against an honest source one attempt keeps a prefix of the content. */
  lemma AttemptKeepsPrefix(content: Bytes, data: Bytes, sha: Hash, source: Source, canceled: set<nat>)
    requires content <= data && Serves(source, data)
    ensures var (after, outcome) := Attempt(content, |data|, sha, source, canceled);
      after <= data && (outcome.Ok? ==> after == data)
  {
    var r := Ask(source, |content|);
    if |content| < |data| && Refused(|content|, sha, r) == None {
      var base := Continued(content, r);
      HonestBody(content, data, sha, r);
      PrefixExtends(base, r.body.stream[..Copied(r.body, canceled, 0, 0, |data| + 1 - |base|).taken], data);
    }
  }

  /** One attempt among many: its source and when it is cancelled. */
  datatype Try = Try(source: Source, canceled: set<nat>)

  /** The scratch file after a series of attempts. */
  function AfterTries(content: Bytes, size: nat, sha: Hash, tries: seq<Try>): Bytes
    decreases |tries|
  {
    if tries == [] then content
    else AfterTries(Attempt(content, size, sha, tries[0].source, tries[0].canceled).0, size, sha, tries[1..])
  }

  /**
   Over any number of attempts, each interrupted or cancelled anywhere and each against a
   source of its own, the scratch file stays a prefix of the content, and an attempt that
   succeeds leaves exactly the content.  A crash inside an attempt leaves what a broken
   connection at that point leaves.
   */
  lemma {:induction false} ResumeIsExact(data: Bytes, sha: Hash, tries: seq<Try>, content: Bytes, last: Try)
    requires content <= data && Serves(last.source, data)
    requires forall t <- tries :: Serves(t.source, data)
    ensures AfterTries(content, |data|, sha, tries) <= data
    ensures var (after, outcome) := Attempt(AfterTries(content, |data|, sha, tries), |data|, sha, last.source, last.canceled);
      outcome.Ok? ==> after == data
    decreases |tries|
  {
    if tries == [] {
      AttemptKeepsPrefix(content, data, sha, last.source, last.canceled);
    } else {
      AttemptKeepsPrefix(content, data, sha, tries[0].source, tries[0].canceled);
      ResumeIsExact(data, sha, tries[1..], Attempt(content, |data|, sha, tries[0].source, tries[0].canceled).0, last);
    }
  }

  /** Progress: when what is missing arrives undisturbed, the attempt succeeds. */
  lemma UndisturbedSucceeds(content: Bytes, data: Bytes, sha: Hash, source: Source)
    requires content <= data && |content| < |data| && |content| in source && source[|content|].Response?
    requires var r := source[|content|];
      && (r.advertised == None || r.advertised == Some(sha))
      && ((r.status == 200 && r.body.stream == data)
          || (r.status == 206 && (content == [] || r.rangeStart == Some(|content|)) && r.body.stream == data[|content|..]))
      && Total(r.body.sizes, |r.body.stream|) && !r.body.breaks
    ensures Attempt(content, |data|, sha, source, {}) == (data, Ok(()))
  {
    var r := source[|content|];
    var base := if content != [] && r.status == 206 then content else [];
    assert base + r.body.stream == data by {
      assert content + data[|content|..] == data;
      assert [] + data == data;
      assert content == [] ==> data[|content|..] == data;
    }
    UndisturbedCopy(content, |data|, sha, source);
  }

  /**
   An accepted body that is not cancelled and fits is kept, all of it, whether or not the
   connection broke; what the attempt says depends on that and on the length alone.
   */
  lemma UndisturbedCopy(content: Bytes, size: nat, sha: Hash, source: Source)
    requires |content| < size && |content| in source && source[|content|].Response?
    requires var r := source[|content|];
      && (r.status == 200 || (r.status == 206 && (content == [] || r.rangeStart == Some(|content|))))
      && (r.advertised == None || r.advertised == Some(sha))
      && (if r.status == 206 then |content| else 0) + |r.body.stream| <= size
      && Total(r.body.sizes, |r.body.stream|)
    ensures var r := source[|content|];
      var after := (if r.status == 206 then content else []) + r.body.stream;
      Attempt(content, size, sha, source, {}) ==
        (after, if r.body.breaks then Err(ReadFailed) else if |after| == size then Ok(()) else Err(SizeMismatch))
  {
    var r := source[|content|];
    CopiesAll(r.body, 0, 0, size + 1 - |Continued(content, r)|);
    assert r.body.stream[..|r.body.stream|] == r.body.stream;
  }

  /**
   What an attempt refuses, and what it does not need.  A complete file succeeds without a
   request; otherwise a missing response, another status, another advertised hash and a
   partial response from elsewhere each give their own error, in that order, and keep the
   file as it is, or empty if it was too long; nothing else is refused.
   */
  lemma RefusedExactly(content: Bytes, size: nat, sha: Hash, source: Source, canceled: set<nat>)
    ensures var (after, outcome) := Attempt(content, size, sha, source, canceled);
      var kept := if |content| > size then [] else content;
      if |kept| == size then after == kept && outcome == Ok(())
      else if |kept| !in source || source[|kept|] == NoResponse then after == kept && outcome == Err(RequestFailed)
      else
        var r := source[|kept|];
        if r.status !in {200, 206} then after == kept && outcome == Err(BadStatus)
        else if r.advertised.Some? && r.advertised != Some(sha) then after == kept && outcome == Err(HashMismatch)
        else if kept != [] && r.status == 206 && r.rangeStart != Some(|kept|) then after == kept && outcome == Err(OffsetMismatch)
        else outcome.Ok? || outcome.error in {DownloadError.Canceled, ReadFailed, SizeMismatch}
  {
  }

  /** An attempt cancelled at some read, the one that would find the end included, does not succeed. */
  lemma CanceledNeverSucceeds(content: Bytes, size: nat, sha: Hash, source: Source, canceled: set<nat>, c: nat)
    requires |content| != size && size > 0 && c in canceled
    requires forall offset <- source :: source[offset].Response? ==> c <= |source[offset].body.sizes|
    ensures var (after, outcome) := Attempt(content, size, sha, source, canceled);
      outcome.Err? && (outcome.error == SizeMismatch ==> |after| == size + 1)
  {
    var kept := if |content| > size then [] else content;
    var r := Ask(source, |kept|);
    if Refused(|kept|, sha, r) == None {
      CanceledStops(r.body, canceled, 0, 0, size + 1 - |Continued(kept, r)|, c);
    }
  }

  lemma {:induction false} CanceledStops(body: Body, canceled: set<nat>, k: nat, taken: nat, room: nat, c: nat)
    requires taken <= room && taken <= |body.stream| && c in canceled && k <= c <= |body.sizes|
    ensures var copy := Copied(body, canceled, k, taken, room); copy.end == Stopped || copy.taken == room
    decreases |body.sizes| - k
  {
    if taken < room && k !in canceled {
      CanceledStops(body, canceled, k + 1, taken + ReadSize(body, k, taken, room), room, c);
    }
  }

  /** The reads are ample: one byte at a time would do. */
  predicate Total(sizes: seq<nat>, n: nat) {
    |sizes| >= n && forall i :: 0 <= i < |sizes| ==> sizes[i] > 0
  }

  /** With one byte at a time or more, the reads take the whole stream. */
  lemma {:induction false} CopiesAll(body: Body, k: nat, taken: nat, room: nat)
    requires taken <= |body.stream| < room && |body.stream| - taken <= |body.sizes| - k
    requires forall i :: 0 <= i < |body.sizes| ==> body.sizes[i] > 0
    ensures Copied(body, {}, k, taken, room) == Copy(|body.stream|, if body.breaks then Broken else Ended)
    decreases |body.sizes| - k
  {
    if k < |body.sizes| {
      CopiesAll(body, k + 1, taken + ReadSize(body, k, taken, room), room);
    }
  }

  /** An open scratch file. */
  class PartFile {
    var content: Bytes
    var pos: nat

    constructor (bytes: Bytes)
      ensures content == bytes && pos == 0
    {
      content, pos := bytes, 0;
    }

    method Truncate()
      modifies this
      ensures content == [] && pos == old(pos)
    {
      content := [];
    }

    method Seek(offset: nat)
      modifies this
      ensures pos == offset && content == old(content)
    {
      pos := offset;
    }

    /** A write at the end of the file, the only kind the download makes. */
    method Write(bytes: Bytes)
      requires pos == |content|
      modifies this
      ensures content == old(content) + bytes && pos == |content|
    {
      content := content + bytes;
      pos := |content|;
    }
  }

  /** downloadReplica. */
  method DownloadReplica(dst: PartFile, size: nat, sha: Hash, source: Source, canceled: set<nat>)
    returns (outcome: Result<(), DownloadError>)
    modifies dst
    ensures (dst.content, outcome) == Attempt(old(dst.content), size, sha, source, canceled)
  {
    var offset := |dst.content|;
    if offset > size {
      dst.Truncate();
      offset := 0;
    }
    if offset == size {
      return Ok(());
    }
    var resp := Ask(source, offset);
    var refused := CheckResponse(offset, sha, resp);
    if refused.Some? {
      return Err(refused.value);
    }
    outcome := TakeBody(dst, size, resp, canceled);
  }

  /** Start over unless the response is partial, then copy and check the length. */
  method TakeBody(dst: PartFile, size: nat, resp: Response, canceled: set<nat>) returns (outcome: Result<(), DownloadError>)
    requires |dst.content| <= size && resp.Response?
    modifies dst
    ensures (dst.content, outcome) == Accepted(old(dst.content), size, resp, canceled)
  {
    var offset := |dst.content|;
    if !(offset > 0 && resp.status == 206) {
      dst.Truncate();
      offset := 0;
    }
    dst.Seek(offset);
    assert dst.content == Continued(old(dst.content), resp);
    var end, written := CopyBody(dst, size, offset, resp.body, canceled);
    outcome := Outcome(end, offset + written, size);
  }

  /** The checks made on the response headers, in the program's order. */
  method CheckResponse(offset: nat, sha: Hash, resp: Response) returns (refused: Option<DownloadError>)
    ensures refused == Refused(offset, sha, resp)
  {
    if resp.NoResponse? {
      return Some(RequestFailed);
    }
    if resp.status != 200 && resp.status != 206 {
      return Some(BadStatus);
    }
    if resp.advertised.Some? && resp.advertised.value != sha {
      return Some(HashMismatch);
    }
    if offset > 0 && resp.status == 206 && resp.rangeStart != Some(offset) {
      return Some(OffsetMismatch);
    }
    refused := None;
  }

  /** The read and write loop: never takes more than one byte beyond the size. */
  method CopyBody(dst: PartFile, size: nat, offset: nat, body: Body, canceled: set<nat>)
    returns (end: End, written: nat)
    requires offset == |dst.content| == dst.pos && offset <= size
    modifies dst
    ensures Copied(body, canceled, 0, 0, size + 1 - offset) == Copy(written, end) && written <= |body.stream|
    ensures dst.content == old(dst.content) + body.stream[..written]
  {
    var remaining := size - offset;
    var k := 0;
    written := 0;
    end := Ended;
    while written <= remaining
      invariant written <= remaining + 1 && written <= |body.stream| && k <= |body.sizes|
      invariant dst.content == old(dst.content) + body.stream[..written] && dst.pos == |dst.content|
      invariant Copied(body, canceled, k, written, remaining + 1) == Copied(body, canceled, 0, 0, remaining + 1)
      decreases |body.sizes| - k, if written <= remaining then 1 else 0
    {
      if k in canceled {
        end := Stopped;
        break;
      }
      if k >= |body.sizes| {
        end := if body.breaks then Broken else Ended;
        break;
      }
      var n := ReadSize(body, k, written, remaining + 1);
      NextPiece(old(dst.content), body.stream, written, n);
      if n > 0 {
        dst.Write(body.stream[written..written + n]);
        written := written + n;
      }
      k := k + 1;
    }
  }

  lemma NextPiece(base: Bytes, stream: Bytes, written: nat, n: nat)
    requires written + n <= |stream|
    ensures base + stream[..written] + stream[written..written + n] == base + stream[..written + n]
  {
  }
}
