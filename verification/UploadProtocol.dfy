/** Chunked binary transfer (pcbridge/files.py): a file is read as base64 chunks and written
    back through a staging file, each chunk and the whole checked against SHA-256.

    SHA-256 is a parameter; all that is used of it is that it prints 64 hex digits. */
module UploadProtocol {
  import opened Wrappers
  import opened Utf8
  import opened Base64
  import opened Strings
  import Paging

  type Sha = seq<Byte> -> string

  // ---------------------------------------------------------------- digests

  predicate IsDigest(s: string) {
    |s| == 64 && AllHex(s)
  }

  ghost predicate PrintsDigests(sha: Sha) {
    forall bs: seq<Byte> :: IsDigest(sha(bs))
  }

  function FullHash(s: string): Option<string> {
    var want := Lower(Strip(s));
    if IsDigest(want) then Some(want) else None
  }

  lemma DigestIsNormal(s: string)
    requires AllHex(s)
    ensures Lower(Strip(s)) == s
  {
    assert s != [] ==> IsHex(s[0]) && IsHex(s[|s| - 1]);
  }

  // ----------------------------------------------------------------- upload

  datatype Disk = Disk(stage: Option<seq<Byte>>, target: Option<seq<Byte>>)

  datatype Call = Call(
    data: seq<Byte>,
    offset: int,
    chunkSha: string,
    finalSha: Option<string>,
    expected: Option<string>,
    createOnly: bool)

  datatype Error =
    | NegativeOffset
    | BadDigest
    | Damaged
    | OutOfOrder(next: nat)
    | Discarded
    | AlreadyExists
    | BadExpected
    | Conflict

  datatype Uploaded = Uploaded(staged: nat, sha: Option<string>)

  type Reply = Result<Uploaded, Error>

  function CheckExpected(sha: Sha, current: Option<seq<Byte>>, expected: Option<string>): Option<Error> {
    if expected.None? then None
    else
      var want := Lower(Strip(expected.value));
      if |want| < 12 || !AllHex(want) then Some(BadExpected)
      else if current.None? || !(want <= sha(current.value)) then Some(Conflict)
      else None
  }

  function Have(d: Disk): nat {
    if d.stage.Some? then |d.stage.value| else 0
  }

  /** Why a call is turned away before it touches the disk. */
  function Refusal(sha: Sha, d: Disk, c: Call): Option<Error> {
    if c.offset < 0 then Some(NegativeOffset)
    else if FullHash(c.chunkSha).None? then Some(BadDigest)
    else if FullHash(c.chunkSha) != Some(sha(c.data)) then Some(Damaged)
    else if c.finalSha.Some? && FullHash(c.finalSha.value).None? then Some(BadDigest)
    else if c.offset > 0 && (d.stage.None? || |d.stage.value| != c.offset) then Some(OutOfOrder(Have(d)))
    else None
  }

  /** The staging file with one more chunk: offset 0 starts it anew. */
  function Extended(d: Disk, c: Call): seq<Byte> {
    if c.offset == 0 || d.stage.None? then c.data else d.stage.value + c.data
  }

  /** Checking the whole and putting it in place, given what is staged. */
  function Finish(sha: Sha, d: Disk, c: Call, staged: seq<Byte>): (Disk, Reply)
    requires c.finalSha.Some?
  {
    var gone := d.(stage := None);
    if FullHash(c.finalSha.value) != Some(sha(staged)) then (gone, Err(Discarded))
    else if c.createOnly && d.target.Some? then (gone, Err(AlreadyExists))
    else match CheckExpected(sha, d.target, c.expected)
      case Some(e) => (gone, Err(e))
      case None => (Disk(None, Some(staged)), Ok(Uploaded(|staged|, Some(sha(staged)))))
  }

  function Upload(sha: Sha, d: Disk, c: Call): (Disk, Reply) {
    match Refusal(sha, d, c)
    case Some(e) => (d, Err(e))
    case None =>
      var staged := Extended(d, c);
      if c.finalSha.None? then (d.(stage := Some(staged)), Ok(Uploaded(|staged|, None)))
      else Finish(sha, d, c, staged)
  }

  // ------------------------------------------------------------------- runs

  datatype Entry = Entry(call: Call, reply: Reply)

  /** The disk after a run of calls, and what each call was told. */
  function Run(sha: Sha, d: Disk, calls: seq<Call>): (r: (Disk, seq<Entry>))
    ensures |r.1| == |calls|
  {
    if calls == [] then (d, [])
    else
      var last := |calls| - 1;
      var (before, log) := Run(sha, d, calls[..last]);
      var (after, reply) := Upload(sha, before, calls[last]);
      (after, log + [Entry(calls[last], reply)])
  }

  /** Did the call write its chunk? Its reply tells. */
  predicate Wrote(e: Entry) {
    match e.reply
    case Ok(_) => true
    case Err(why) => why.Discarded? || why.AlreadyExists? || why.BadExpected? || why.Conflict?
  }

  /** The chunks a stretch of the log wrote, joined in order. */
  function Joined(log: seq<Entry>): seq<Byte> {
    if log == [] then []
    else Joined(log[..|log| - 1]) + (if Wrote(log[|log| - 1]) then log[|log| - 1].call.data else [])
  }

  /** The staging file as the log alone tells it: nothing if no upload is open, and otherwise
      the chunks written since the last one that was written at offset 0. */
  ghost predicate Tells(log: seq<Entry>, stage: Option<seq<Byte>>) {
    if stage.None? then Closed(log) else exists i :: Opened(log, i) && stage == Some(Joined(log[i..]))
  }

  /** `i` is the last written chunk with offset 0, and no upload was finished since. */
  predicate Opened(log: seq<Entry>, i: int) {
    && 0 <= i < |log|
    && Wrote(log[i]) && log[i].call.offset == 0
    && forall j :: i <= j < |log| && Wrote(log[j]) ==> log[j].call.finalSha.None? && (j > i ==> log[j].call.offset > 0)
  }

  /** The last chunk written, if there was one, was a final one. */
  predicate Closed(log: seq<Entry>) {
    log == [] || (if Wrote(log[|log| - 1]) then log[|log| - 1].call.finalSha.Some? else Closed(log[..|log| - 1]))
  }

  lemma OpenedMore(log: seq<Entry>, i: int, e: Entry)
    requires Opened(log, i)
    requires Wrote(e) ==> e.call.finalSha.None? && e.call.offset > 0
    ensures Opened(log + [e], i)
    ensures Joined((log + [e])[i..]) == Joined(log[i..]) + (if Wrote(e) then e.call.data else [])
  {
    var more := (log + [e])[i..];
    assert more == log[i..] + [e];
    assert more[..|more| - 1] == log[i..];
  }

  lemma OpenedAnew(log: seq<Entry>, e: Entry)
    requires Wrote(e) && e.call.finalSha.None? && e.call.offset == 0
    ensures Opened(log + [e], |log|)
    ensures Joined((log + [e])[|log|..]) == e.call.data
  {
    assert (log + [e])[|log|..] == [e];
    assert Joined([e][..0]) == [];
  }

  lemma ClosedMore(log: seq<Entry>, e: Entry)
    requires if Wrote(e) then e.call.finalSha.Some? else Closed(log)
    ensures Closed(log + [e])
  {
    assert (log + [e])[..|log|] == log;
  }

  /** What a call leaves in the staging file, as its reply tells it. */
  lemma CallLeaves(sha: Sha, d: Disk, c: Call)
    ensures var (after, reply) := Upload(sha, d, c);
            var e := Entry(c, reply);
            if !Wrote(e) then after.stage == d.stage
            else if c.finalSha.Some? then after.stage.None?
            else after.stage == Some(Extended(d, c)) && (c.offset > 0 ==> d.stage.Some?)
    ensures Wrote(Entry(c, Upload(sha, d, c).1)) ==> c.offset >= 0
  {
  }

  lemma TellsAfter(d: Disk, e: Entry, log: seq<Entry>)
    requires Tells(log, d.stage) && Wrote(e) && e.call.finalSha.None? && e.call.offset >= 0
    requires e.call.offset > 0 ==> d.stage.Some?
    ensures Tells(log + [e], Some(Extended(d, e.call)))
  {
    if e.call.offset == 0 {
      OpenedAnew(log, e);
    } else {
      var i :| Opened(log, i) && d.stage == Some(Joined(log[i..]));
      OpenedMore(log, i, e);
    }
  }

  lemma TellsSame(stage: Option<seq<Byte>>, e: Entry, log: seq<Entry>)
    requires Tells(log, stage) && !Wrote(e)
    ensures Tells(log + [e], stage)
  {
    if stage.None? {
      ClosedMore(log, e);
    } else {
      var i :| Opened(log, i) && stage == Some(Joined(log[i..]));
      OpenedMore(log, i, e);
      assert Joined(log[i..]) + [] == Joined(log[i..]);
    }
  }

  lemma TellsMore(sha: Sha, d: Disk, c: Call, log: seq<Entry>)
    requires Tells(log, d.stage)
    ensures var (after, reply) := Upload(sha, d, c);
            Tells(log + [Entry(c, reply)], after.stage)
  {
    var e := Entry(c, Upload(sha, d, c).1);
    CallLeaves(sha, d, c);
    if !Wrote(e) {
      TellsSame(d.stage, e, log);
    } else if c.finalSha.Some? {
      ClosedMore(log, e);
    } else {
      TellsAfter(d, e, log);
    }
  }

  /** After every run of calls the staging file is exactly the accepted chunks since the last
      accepted offset 0, joined in order, or absent when no upload is open. */
  lemma {:induction false} StageIsTheAcceptedChunks(sha: Sha, d: Disk, calls: seq<Call>)
    requires d.stage.None?
    ensures var (after, log) := Run(sha, d, calls);
            Tells(log, after.stage)
  {
    if calls != [] {
      var last := |calls| - 1;
      StageIsTheAcceptedChunks(sha, d, calls[..last]);
      var (before, log) := Run(sha, d, calls[..last]);
      TellsMore(sha, before, calls[last], log);
    }
  }

  /** A call that wrote nothing left the disk alone. */
  lemma RefusedCallsChangeNothing(sha: Sha, d: Disk, c: Call)
    ensures var (after, reply) := Upload(sha, d, c);
            (!Wrote(Entry(c, reply)) <==> Refusal(sha, d, c).Some?)
            && (!Wrote(Entry(c, reply)) ==> after == d)
  {
  }

  /** The target is replaced by exactly the calls that report the whole file's hash; it is
      then what was staged with this chunk, has the hash the caller gave, and was the file the
      caller expected, or absent where it had to be. */
  lemma TargetOnlyChangesAtTheEnd(sha: Sha, d: Disk, c: Call)
    ensures var (after, reply) := Upload(sha, d, c);
            var done := reply.Ok? && reply.value.sha.Some?;
            && (done <==>
                 (&& Refusal(sha, d, c).None? && c.finalSha.Some?
                  && FullHash(c.finalSha.value) == Some(sha(Extended(d, c)))
                  && !(c.createOnly && d.target.Some?)
                  && CheckExpected(sha, d.target, c.expected).None?))
            && (done ==>
                 (&& after == Disk(None, Some(Extended(d, c)))
                  && FullHash(c.finalSha.value) == Some(sha(after.target.value))
                  && reply.value.staged == |after.target.value|))
            && (!done ==> after.target == d.target)
            && (c.finalSha.Some? && Refusal(sha, d, c).None? ==> after.stage.None?)
  {
  }

  // ---------------------------------------------------------------- sending

  /** Raw bytes for a budget of base64 characters. */
  function ChunkBytes(maxChars: int): (n: nat)
    ensures n >= 3 && n % 3 == 0
    ensures maxChars >= 4 ==> n / 3 * 4 <= maxChars < n / 3 * 4 + 4
    ensures maxChars < 4 ==> n == 3
  {
    Paging.Max(3, maxChars / 4 * 3)
  }

  datatype Chunk = Chunk(data: seq<Byte>, start: nat, next: Option<Paging.Cursor>)

  /** The chunk as it is shown. */
  function ChunkText(chunk: Chunk): string {
    Encode64(chunk.data)
  }

  /** One chunk of a file, from its start or from a cursor. */
  function ReadChunk(bs: seq<Byte>, snap: Paging.Snapshot, cursor: Option<Paging.Cursor>, maxChars: int): Result<Chunk, Paging.Error>
    requires snap.size == |bs|
  {
    match (if cursor.None? then Ok((0, 1)) else Paging.ParseCursor(cursor.value, snap))
    case Err(e) => Err(e)
    case Ok(at) =>
      var start := at.0;
      var data := Paging.Take(bs[start..], ChunkBytes(maxChars));
      var end := start + |data|;
      Ok(Chunk(data, start, if end < |bs| then Some(Paging.MakeCursor(snap, end, 1)) else None))
  }

  /** How a receiver reads a chunk's text. */
  function Received(text: string): seq<Byte> {
    match Decode64(text)
    case Some(bs) => bs
    case None => []
  }

  /** What the last call asks for beyond the hash. */
  datatype Terms = Terms(expected: Option<string>, createOnly: bool)

  /** The upload call for a chunk, with the bytes its text is read back as (`ChunkIsReceived`);
      the hash of the whole goes with the last one. */
  function CallFor(sha: Sha, whole: seq<Byte>, chunk: Chunk, terms: Terms): Call {
    Call(chunk.data, chunk.start, sha(chunk.data), if chunk.next.None? then Some(sha(whole)) else None, terms.expected, terms.createOnly)
  }

  /** Every chunk of a file, following the cursors, the budget chosen anew each time. */
  ghost function Chunks(bs: seq<Byte>, snap: Paging.Snapshot, cursor: Option<Paging.Cursor>, at: nat, budgets: nat -> int, i: nat): seq<Chunk>
    requires snap.size == |bs| && at <= |bs|
    requires if cursor.None? then at == 0 else cursor.value == Paging.MakeCursor(snap, at, 1)
    decreases |bs| - at
  {
    var chunk := ReadChunk(bs, snap, cursor, budgets(i)).value;
    [chunk] + (if chunk.next.None? then [] else Chunks(bs, snap, chunk.next, at + |chunk.data|, budgets, i + 1))
  }

  /** The upload calls for every chunk of a file, following the cursors in the same way. */
  ghost function Sending(
    sha: Sha, bs: seq<Byte>, snap: Paging.Snapshot, cursor: Option<Paging.Cursor>, at: nat,
    budgets: nat -> int, i: nat, terms: Terms): seq<Call>
    requires snap.size == |bs| && at <= |bs|
    requires if cursor.None? then at == 0 else cursor.value == Paging.MakeCursor(snap, at, 1)
    decreases |bs| - at
  {
    var chunk := ReadChunk(bs, snap, cursor, budgets(i)).value;
    [CallFor(sha, bs, chunk, terms)]
    + (if chunk.next.None? then [] else Sending(sha, bs, snap, chunk.next, at + |chunk.data|, budgets, i + 1, terms))
  }

  /** The calls a sender wants accepted, in order, with any number of refused calls among
      them: chunks damaged on the way, sent twice, or at another offset. */
  ghost predicate Mixed(sha: Sha, d: Disk, calls: seq<Call>, wanted: seq<Call>)
    decreases |calls|
  {
    if calls == [] then wanted == []
    else
      || (Refusal(sha, d, calls[0]).Some? && Mixed(sha, d, calls[1..], wanted))
      || (wanted != [] && calls[0] == wanted[0] && Mixed(sha, Upload(sha, d, calls[0]).0, calls[1..], wanted[1..]))
  }

  /** A run read from its first call. */
  function After(sha: Sha, d: Disk, calls: seq<Call>): Disk
    decreases |calls|
  {
    if calls == [] then d else After(sha, Upload(sha, d, calls[0]).0, calls[1..])
  }

  lemma {:induction false} AfterIsRun(sha: Sha, d: Disk, calls: seq<Call>, c: Call)
    ensures After(sha, d, calls + [c]) == Upload(sha, After(sha, d, calls), c).0
    decreases |calls|
  {
    if calls == [] {
      assert (calls + [c])[1..] == [];
    } else {
      assert (calls + [c])[1..] == calls[1..] + [c];
      AfterIsRun(sha, Upload(sha, d, calls[0]).0, calls[1..], c);
    }
  }

  /** The two readings of a run agree. */
  lemma {:induction false} RunReachesAfter(sha: Sha, d: Disk, calls: seq<Call>)
    ensures Run(sha, d, calls).0 == After(sha, d, calls)
  {
    if calls != [] {
      var last := |calls| - 1;
      RunReachesAfter(sha, d, calls[..last]);
      AfterIsRun(sha, d, calls[..last], calls[last]);
      assert calls == calls[..last] + [calls[last]];
    }
  }

  lemma SlicesJoin(bs: seq<Byte>, i: nat, j: nat)
    requires i <= j <= |bs|
    ensures bs[..i] + bs[i..j] == bs[..j]
    ensures bs[i..j] + bs[j..] == bs[i..]
  {
  }

  lemma TakeSlice(bs: seq<Byte>, at: nat, n: nat)
    requires at <= |bs|
    ensures Paging.Take(bs[at..], n) == bs[at..Paging.Min(at + n, |bs|)]
  {
  }

  /** What `ReadChunk` gives at an offset it issued a cursor for. */
  lemma ChunkThere(bs: seq<Byte>, snap: Paging.Snapshot, cursor: Option<Paging.Cursor>, at: nat, maxChars: int)
    requires snap.size == |bs| && at <= |bs|
    requires if cursor.None? then at == 0 else cursor.value == Paging.MakeCursor(snap, at, 1)
    ensures var r := ReadChunk(bs, snap, cursor, maxChars);
            && r.Ok? && r.value.start == at
            && at + |r.value.data| <= |bs| && r.value.data == bs[at..at + |r.value.data|]
            && (r.value.next.None? <==> at + |r.value.data| == |bs|)
            && (r.value.next.Some? ==> |r.value.data| == ChunkBytes(maxChars))
            && (r.value.next.Some? ==> r.value.next.value == Paging.MakeCursor(snap, at + |r.value.data|, 1))
  {
    TakeSlice(bs, at, ChunkBytes(maxChars));
  }

  /** What is shown of a chunk is read back as the chunk. */
  lemma ChunkIsReceived(chunk: Chunk)
    ensures Received(ChunkText(chunk)) == chunk.data
  {
    DecodeEncode64(chunk.data);
  }

  /** Every chunk but the last is a multiple of three bytes, and each chunk's base64 fits a
      budget of at least four characters. */
  lemma ChunkFitsItsBudget(bs: seq<Byte>, snap: Paging.Snapshot, cursor: Option<Paging.Cursor>, maxChars: int)
    requires snap.size == |bs|
    ensures var r := ReadChunk(bs, snap, cursor, maxChars);
            && (r.Ok? && r.value.next.Some? ==> |r.value.data| % 3 == 0 && |r.value.data| > 0)
            && (r.Ok? && maxChars >= 4 ==> |ChunkText(r.value)| <= maxChars)
  {
    var r := ReadChunk(bs, snap, cursor, maxChars);
    if r.Ok? {
      TextFits(r.value.data, maxChars);
    }
  }

  lemma TextFits(data: seq<Byte>, maxChars: int)
    requires |data| <= ChunkBytes(maxChars)
    ensures maxChars >= 4 ==> |Encode64(data)| <= maxChars
  {
    EncodedLength(data);
  }

  lemma FinishInPlace(sha: Sha, d: Disk, c: Call, staged: seq<Byte>)
    requires c.finalSha == Some(sha(staged)) && IsDigest(sha(staged))
    requires CheckExpected(sha, d.target, c.expected).None? && !(c.createOnly && d.target.Some?)
    ensures Finish(sha, d, c, staged).0 == Disk(None, Some(staged))
  {
    DigestIsNormal(sha(staged));
  }

  ghost predicate At(d: Disk, bs: seq<Byte>, at: nat) {
    at <= |bs| && (at > 0 ==> d.stage == Some(bs[..at]))
  }

  predicate Allowed(sha: Sha, target: Option<seq<Byte>>, terms: Terms) {
    CheckExpected(sha, target, terms.expected).None? && !(terms.createOnly && target.Some?)
  }

  /** The call that carries a file's bytes from `at` to `end`. */
  function Carrying(sha: Sha, bs: seq<Byte>, at: nat, end: nat, terms: Terms): Call
    requires at <= end <= |bs|
  {
    var data := bs[at..end];
    Call(data, at, sha(data), if end == |bs| then Some(sha(bs)) else None, terms.expected, terms.createOnly)
  }

  /** Calls that carry a file from `at` to its end, piece by piece. */
  ghost predicate CarriesRest(sha: Sha, bs: seq<Byte>, at: nat, terms: Terms, calls: seq<Call>)
    decreases |calls|
  {
    && calls != []
    && var end := at + |calls[0].data|;
    && end <= |bs|
    && calls[0] == Carrying(sha, bs, at, end, terms)
    && if end == |bs| then calls[1..] == [] else CarriesRest(sha, bs, end, terms, calls[1..])
  }

  lemma ChunkCarries(sha: Sha, bs: seq<Byte>, chunk: Chunk, end: nat, terms: Terms)
    requires chunk.start <= end <= |bs| && chunk.data == bs[chunk.start..end]
    requires chunk.next.None? <==> end == |bs|
    ensures CallFor(sha, bs, chunk, terms) == Carrying(sha, bs, chunk.start, end, terms)
  {
  }

  lemma CarriesMore(sha: Sha, bs: seq<Byte>, at: nat, end: nat, terms: Terms, calls: seq<Call>, rest: seq<Call>)
    requires at <= end <= |bs| && (if end == |bs| then rest == [] else CarriesRest(sha, bs, end, terms, rest))
    requires calls == [Carrying(sha, bs, at, end, terms)] + rest
    ensures CarriesRest(sha, bs, at, terms, calls)
  {
    assert calls[1..] == rest;
  }

  /** The first of the calls for a file, and the others. */
  lemma SendingStep(
    sha: Sha, bs: seq<Byte>, snap: Paging.Snapshot, cursor: Option<Paging.Cursor>, at: nat,
    budgets: nat -> int, i: nat, terms: Terms) returns (next: Option<Paging.Cursor>, end: nat, rest: seq<Call>)
    requires snap.size == |bs| && at <= |bs|
    requires if cursor.None? then at == 0 else cursor.value == Paging.MakeCursor(snap, at, 1)
    ensures at <= end <= |bs| && (next.None? <==> end == |bs|)
    ensures next.Some? ==> at < end && next.value == Paging.MakeCursor(snap, end, 1)
                           && rest == Sending(sha, bs, snap, next, end, budgets, i + 1, terms)
    ensures next.None? ==> rest == []
    ensures Sending(sha, bs, snap, cursor, at, budgets, i, terms) == [Carrying(sha, bs, at, end, terms)] + rest
  {
    var chunk := ReadChunk(bs, snap, cursor, budgets(i)).value;
    ChunkThere(bs, snap, cursor, at, budgets(i));
    next, end := chunk.next, at + |chunk.data|;
    ChunkCarries(sha, bs, chunk, end, terms);
    rest := if next.None? then [] else Sending(sha, bs, snap, next, end, budgets, i + 1, terms);
  }

  lemma {:induction false} SendingCarries(
    sha: Sha, bs: seq<Byte>, snap: Paging.Snapshot, cursor: Option<Paging.Cursor>, at: nat,
    budgets: nat -> int, i: nat, terms: Terms, calls: seq<Call>)
    requires snap.size == |bs| && at <= |bs|
    requires if cursor.None? then at == 0 else cursor.value == Paging.MakeCursor(snap, at, 1)
    requires calls == Sending(sha, bs, snap, cursor, at, budgets, i, terms)
    ensures CarriesRest(sha, bs, at, terms, calls)
    decreases |bs| - at
  {
    var next, end, rest := SendingStep(sha, bs, snap, cursor, at, budgets, i, terms);
    if next.Some? {
      SendingCarries(sha, bs, snap, next, end, budgets, i + 1, terms, rest);
    }
    CarriesMore(sha, bs, at, end, terms, calls, rest);
  }

  /** A carrying call moves the upload on by its piece, or finishes it; it is never refused
      while the upload stands where the piece starts. */
  lemma PieceMovesOn(sha: Sha, d: Disk, bs: seq<Byte>, at: nat, end: nat, terms: Terms)
    requires PrintsDigests(sha) && At(d, bs, at) && Allowed(sha, d.target, terms)
    requires at <= end <= |bs|
    ensures var c := Carrying(sha, bs, at, end, terms);
            && Refusal(sha, d, c).None?
            && Upload(sha, d, c).0 == if end == |bs| then Disk(None, Some(bs)) else Disk(Some(bs[..end]), d.target)
  {
    var c := Carrying(sha, bs, at, end, terms);
    DigestIsNormal(sha(c.data));
    DigestIsNormal(sha(bs));
    SlicesJoin(bs, at, end);
    assert Extended(d, c) == bs[..end];
    if end == |bs| {
      assert bs[..end] == bs;
      FinishInPlace(sha, d, c, bs);
    }
  }

  /** With an acceptable call wanted next, a mixed run starts with a refused call or with it. */
  lemma MixedStep(sha: Sha, d: Disk, calls: seq<Call>, c: Call, rest: seq<Call>)
    requires Mixed(sha, d, calls, [c] + rest) && Refusal(sha, d, c).None?
    ensures calls != []
    ensures Refusal(sha, d, calls[0]).Some? ==> Mixed(sha, d, calls[1..], [c] + rest) && Upload(sha, d, calls[0]).0 == d
    ensures Refusal(sha, d, calls[0]).None? ==> calls[0] == c && Mixed(sha, Upload(sha, d, c).0, calls[1..], rest)
  {
    assert ([c] + rest)[1..] == rest;
  }

  lemma {:induction false} MixedDelivers(sha: Sha, d: Disk, bs: seq<Byte>, at: nat, terms: Terms, calls: seq<Call>, wanted: seq<Call>)
    requires PrintsDigests(sha) && At(d, bs, at) && Allowed(sha, d.target, terms)
    requires CarriesRest(sha, bs, at, terms, wanted) && Mixed(sha, d, calls, wanted)
    ensures After(sha, d, calls).target == Some(bs)
    decreases |calls|
  {
    var end := at + |wanted[0].data|;
    PieceMovesOn(sha, d, bs, at, end, terms);
    assert wanted == [wanted[0]] + wanted[1..];
    MixedStep(sha, d, calls, wanted[0], wanted[1..]);
    if Refusal(sha, d, calls[0]).Some? {
      MixedDelivers(sha, d, bs, at, terms, calls[1..], wanted);
    } else if end == |bs| {
      OnlyRefusals(sha, Disk(None, Some(bs)), calls[1..]);
    } else {
      MixedDelivers(sha, Disk(Some(bs[..end]), d.target), bs, end, terms, calls[1..], wanted[1..]);
    }
  }

  lemma {:induction false} OnlyRefusals(sha: Sha, d: Disk, calls: seq<Call>)
    requires Mixed(sha, d, calls, [])
    ensures After(sha, d, calls) == d
    decreases |calls|
  {
    if calls != [] {
      OnlyRefusals(sha, d, calls[1..]);
    }
  }

  /** Sending the chunks a file reads as, in order, puts exactly that file in place, whatever
      stood in the staging file before and whatever calls are refused in between. */
  lemma UploadReproducesTheFile(sha: Sha, d: Disk, bs: seq<Byte>, snap: Paging.Snapshot, budgets: nat -> int, terms: Terms, calls: seq<Call>)
    requires PrintsDigests(sha) && snap.size == |bs| && Allowed(sha, d.target, terms)
    requires Mixed(sha, d, calls, Sending(sha, bs, snap, None, 0, budgets, 0, terms))
    ensures Run(sha, d, calls).0.target == Some(bs)
  {
    var wanted := Sending(sha, bs, snap, None, 0, budgets, 0, terms);
    SendingCarries(sha, bs, snap, None, 0, budgets, 0, terms, wanted);
    MixedDelivers(sha, d, bs, 0, terms, calls, wanted);
    RunReachesAfter(sha, d, calls);
  }

  function Texts(chunks: seq<Chunk>): string {
    if chunks == [] then [] else ChunkText(chunks[0]) + Texts(chunks[1..])
  }

  lemma TextsMore(chunk: Chunk, rest: seq<Chunk>)
    ensures Texts([chunk] + rest) == Encode64(chunk.data) + Texts(rest)
  {
    assert ([chunk] + rest)[1..] == rest;
  }

  lemma EncodeFrom(bs: seq<Byte>, at: nat, end: nat)
    requires at <= end <= |bs| && (end < |bs| ==> (end - at) % 3 == 0)
    ensures Encode64(bs[at..]) == Encode64(bs[at..end]) + (if end == |bs| then [] else Encode64(bs[end..]))
  {
    SlicesJoin(bs, at, end);
    if end == |bs| {
      assert bs[at..end] == bs[at..];
    } else {
      Encode64Joins(bs[at..end], bs[end..]);
    }
  }

  /** The first chunk of a file from `at` on, and the others. */
  lemma ChunksStep(bs: seq<Byte>, snap: Paging.Snapshot, cursor: Option<Paging.Cursor>, at: nat, budgets: nat -> int, i: nat)
    returns (chunk: Chunk, end: nat, rest: seq<Chunk>)
    requires snap.size == |bs| && at <= |bs|
    requires if cursor.None? then at == 0 else cursor.value == Paging.MakeCursor(snap, at, 1)
    ensures at <= end <= |bs| && chunk.data == bs[at..end] && (chunk.next.None? <==> end == |bs|)
    ensures chunk.next.Some? ==> at < end && (end - at) % 3 == 0 && chunk.next.value == Paging.MakeCursor(snap, end, 1)
                                 && rest == Chunks(bs, snap, chunk.next, end, budgets, i + 1)
    ensures chunk.next.None? ==> rest == []
    ensures Chunks(bs, snap, cursor, at, budgets, i) == [chunk] + rest
  {
    chunk := ReadChunk(bs, snap, cursor, budgets(i)).value;
    ChunkThere(bs, snap, cursor, at, budgets(i));
    end := at + |chunk.data|;
    rest := if chunk.next.None? then [] else Chunks(bs, snap, chunk.next, end, budgets, i + 1);
  }

  /** The base64 texts of the chunks, joined, are the base64 of the file. */
  lemma {:induction false} ChunkTextsJoin(bs: seq<Byte>, snap: Paging.Snapshot, cursor: Option<Paging.Cursor>, at: nat, budgets: nat -> int, i: nat)
    requires snap.size == |bs| && at <= |bs|
    requires if cursor.None? then at == 0 else cursor.value == Paging.MakeCursor(snap, at, 1)
    ensures Texts(Chunks(bs, snap, cursor, at, budgets, i)) == Encode64(bs[at..])
    decreases |bs| - at
  {
    var chunk, end, rest := ChunksStep(bs, snap, cursor, at, budgets, i);
    TextsMore(chunk, rest);
    EncodeFrom(bs, at, end);
    if chunk.next.Some? {
      ChunkTextsJoin(bs, snap, chunk.next, end, budgets, i + 1);
    }
  }
}
