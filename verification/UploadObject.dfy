/** The staging file and the target it replaces (pcbridge/files.py, `upload_chunk`). */
module UploadObject {
  import opened Wrappers
  import opened Utf8
  import opened UploadProtocol

  class UploadTarget {
    var stage: Option<seq<Byte>>
    var target: Option<seq<Byte>>

    ghost function Files(): Disk
      reads this
    {
      Disk(stage, target)
    }

    constructor (target: Option<seq<Byte>>)
      ensures Files() == Disk(None, target)
    {
      this.stage := None;
      this.target := target;
    }

    /** Puts the staged bytes in place when they are what the caller says, and discards them
        otherwise. */
    method PutInPlace(sha: Sha, c: Call) returns (reply: Reply)
      requires c.finalSha.Some? && stage.Some?
      modifies this
      ensures (Files(), reply) == Finish(sha, old(Files()), c, old(stage).value)
    {
      var staged := stage.value;
      var got := sha(staged);
      stage := None;
      if FullHash(c.finalSha.value) != Some(got) {
        return Err(Discarded);
      }
      if c.createOnly && target.Some? {
        return Err(AlreadyExists);
      }
      var wrong := CheckExpected(sha, target, c.expected);
      if wrong.Some? {
        return Err(wrong.value);
      }
      target := Some(staged);
      return Ok(Uploaded(|staged|, Some(got)));
    }

    method UploadChunk(sha: Sha, c: Call) returns (reply: Reply)
      modifies this
      ensures (Files(), reply) == Upload(sha, old(Files()), c)
    {
      var have := if stage.Some? then |stage.value| else 0;
      if c.offset < 0 {
        return Err(NegativeOffset);
      }
      var wantChunk := FullHash(c.chunkSha);
      if wantChunk.None? {
        return Err(BadDigest);
      }
      if sha(c.data) != wantChunk.value {
        return Err(Damaged);
      }
      if c.finalSha.Some? && FullHash(c.finalSha.value).None? {
        return Err(BadDigest);
      }
      if c.offset > 0 && (stage.None? || have != c.offset) {
        return Err(OutOfOrder(have));
      }
      if c.offset == 0 {
        stage := Some([]);
        assert [] + c.data == c.data;
      }
      stage := Some(stage.value + c.data);
      if c.finalSha.None? {
        return Ok(Uploaded(|stage.value|, None));
      }
      reply := PutInPlace(sha, c);
    }
  }

  /** A run of calls on the object is a run of the protocol. */
  method UploadAll(sha: Sha, t: UploadTarget, calls: seq<Call>) returns (log: seq<UploadProtocol.Entry>)
    modifies t
    ensures (t.Files(), log) == Run(sha, old(t.Files()), calls)
  {
    log := [];
    for i := 0 to |calls|
      invariant (t.Files(), log) == Run(sha, old(t.Files()), calls[..i])
    {
      var reply := t.UploadChunk(sha, calls[i]);
      log := log + [Entry(calls[i], reply)];
      assert calls[..i + 1][..i] == calls[..i];
    }
    assert calls[..|calls|] == calls;
  }
}
