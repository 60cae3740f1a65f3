/** The `LinkStore` object and the transfers it guards (pcbridge/filelinks.py). */
module LinkStoreObject {
  import opened Wrappers
  import opened Utf8
  import opened LinkProtocol

  /** The store's part of the links of a state. */
  function Remembered(s: State): map<nat, Link> {
    map k | k in s.store && k in s.links :: s.links[k]
  }

  function FindIn(m: map<nat, Link>, key: nat, d: Direction, now: real, claim: bool): map<nat, Link> {
    if key in m && m[key].direction == d then m[key := Touch(m[key], now, claim)] else m
  }

  function SweepIn(m: map<nat, Link>, now: real): map<nat, Link> {
    map k | k in m && m[k].expiresAt + REMEMBER_SECONDS >= now :: m[k]
  }

  function LiveIn(m: map<nat, Link>, now: real): set<nat> {
    set k | k in m && IsLive(m[k], now)
  }

  /** The protocol's steps seen from the store. */
  lemma StoreFollowsProtocol(s: State, key: nat, d: Direction, claim: bool)
    requires s.store <= s.links.Keys
    ensures Remembered(Found(s, key, d, claim)) == FindIn(Remembered(s), key, d, s.now, claim)
    ensures Remembered(Sweep(s)) == SweepIn(Remembered(s), s.now)
    ensures LiveIn(Remembered(s), s.now) == LiveKeys(s)
  {
  }

  class FileLink {
    const key: nat
    const direction: Direction
    const expiresAt: real
    var state: Phase
    var refused: set<Reason>

    constructor (key: nat, direction: Direction, expiresAt: real)
      ensures this.key == key && Value() == Link(direction, expiresAt, Ready, {})
    {
      this.key, this.direction, this.expiresAt := key, direction, expiresAt;
      state, refused := Ready, {};
    }

    function Value(): Link
      reads this
    {
      Link(direction, expiresAt, state, refused)
    }
  }

  class LinkStore {
    var links: map<nat, FileLink>
    var records: seq<(nat, Reason)>

    ghost predicate Valid()
      reads this
    {
      forall k :: k in links ==> links[k].key == k
    }

    function Values(): map<nat, Link>
      reads this, links.Values
    {
      map k | k in links :: links[k].Value()
    }

    constructor ()
      ensures Valid() && Values() == map[] && records == []
    {
      links, records := map[], [];
    }

    method SweepOld(now: real)
      requires Valid()
      modifies this`links
      ensures Valid() && Values() == SweepIn(old(Values()), now)
      ensures forall k :: k in links ==> k in old(links) && links[k] == old(links[k])
    {
      links := map k | k in links && links[k].expiresAt + REMEMBER_SECONDS >= now :: links[k];
    }

    /** A new link under a fresh key, unless too many are live already. */
    method Add(now: real, key: nat, d: Direction, ttl: real) returns (made: Option<FileLink>)
      requires Valid() && key !in links
      modifies this`links
      ensures Valid()
      ensures var kept := SweepIn(old(Values()), now);
              && made.Some? == (|LiveIn(kept, now)| < MAX_LIVE)
              && (made.None? ==> Values() == kept)
              && (made.Some? ==> fresh(made.value) && Values() == kept[key := Link(d, now + ttl, Ready, {})])
    {
      SweepOld(now);
      var live := set k | k in links && (links[k].state == Busy || (links[k].state == Ready && links[k].expiresAt > now));
      assert live == LiveIn(Values(), now);
      if |live| >= MAX_LIVE {
        return None;
      }
      var l := new FileLink(key, d, now + ttl);
      links := links[key := l];
      return Some(l);
    }

    /** The link if it can still be used, busy from now on if it is claimed. */
    method Find(key: nat, d: Direction, now: real, claim: bool) returns (got: Option<FileLink>)
      requires Valid()
      modifies this`records, if key in links then {links[key]} else {}
      ensures Valid() && links == old(links)
      ensures Values() == FindIn(old(Values()), key, d, now, claim)
      ensures got.Some? <==> key in links && old(links[key].direction) == d && Usable(old(links[key].Value()), now)
      ensures got.Some? ==> got.value == links[key]
      ensures var told := key in links && links[key].direction == d && Records(old(links[key].Value()), now);
              records == if told then old(records) + [(key, Refusal(old(links[key].Value()), now).value)]
                         else old(records)
    {
      ghost var before := Values();
      if key !in links || links[key].direction != d {
        return None;
      }
      var l := links[key];
      assert forall k :: k in links && k != key ==> links[k] != l;
      var why: Option<Reason> := None;
      if l.state == Spent {
        why := Some(Used);
      } else if l.state == Ready && l.expiresAt <= now {
        why := Some(Expired);
      } else if l.state == Busy {
        return None;
      } else {
        if claim {
          l.state := Busy;
        }
        return Some(l);
      }
      var first := why.value !in l.refused;
      l.refused := l.refused + {why.value};
      if first {
        records := records + [(key, why.value)];
      }
      return None;
    }

    /** A transfer broke off: usable again until it expires. */
    method Release(l: FileLink)
      modifies l`state
      ensures l.Value() == Released(old(l.Value()))
    {
      if l.state == Busy {
        l.state := Ready;
      }
    }

    method Spend(l: FileLink)
      modifies l`state
      ensures l.Value() == old(l.Value()).(state := Spent)
    {
      l.state := Spent;
    }
  }

  // ------------------------------------------------------------------ transfers

  datatype Upload =
    | Stored(file: seq<Byte>)
    | BadRequest
    | TooLarge
    | NoSpace
    | WriteError
    | Disconnected
    | Mismatch
    | Exists

  const FREE_MARGIN := 0x10000000
  const CHUNK := 0x100000

  /** What a transfer's end does to its link. */
  function OutcomeOf(u: Upload): Outcome {
    match u
    case Stored(_) => Complete
    case BadRequest => Release
    case Disconnected => Release
    case Mismatch => Release
    case _ => GiveUp
  }

  function Joined(chunks: seq<seq<Byte>>): seq<Byte> {
    if chunks == [] then [] else Joined(chunks[..|chunks| - 1]) + chunks[|chunks| - 1]
  }

  /** The announced length of a body. */
  datatype Announced = Unannounced | NotANumber | Length(n: int)

  /** The first of the transfer's calls on the file system that fails, counted from 0, and
      whether it fails because the disk is full. */
  datatype Fault = Fault(at: nat, full: bool)

  /** The limits one upload link carries and what the machine says about itself. */
  datatype Terms = Terms(
    maxBytes: nat,
    expected: Option<string>,
    overwrite: bool,
    free: Option<nat>,
    occupied: bool)

  function AnnouncedBytes(declared: Announced): int {
    if declared.Length? then declared.n else 0
  }

  /** What a request is refused for before anything is received. */
  function Refused(t: Terms, declared: Announced): Option<Upload> {
    if declared.NotANumber? then Some(BadRequest)
    else if declared.Length? && declared.n > t.maxBytes then Some(TooLarge)
    else if t.free.Some? && t.free.value < AnnouncedBytes(declared) + FREE_MARGIN then Some(NoSpace)
    else None
  }

  predicate AsAnnounced(declared: Announced, body: seq<Byte>) {
    declared.Length? ==> |body| == declared.n
  }

  predicate AsExpected(sha: seq<Byte> -> string, t: Terms, body: seq<Byte>) {
    t.expected.Some? ==> sha(body) == t.expected.value
  }

  /** What becomes of a body, if the file system does its part; `whole` says whether the client
      stayed to the end. */
  function Judge(sha: seq<Byte> -> string, t: Terms, declared: Announced, body: seq<Byte>, whole: bool): Upload {
    if Refused(t, declared).Some? then Refused(t, declared).value
    else if |body| > t.maxBytes then TooLarge
    else if !whole || !AsAnnounced(declared, body) then Disconnected
    else if !AsExpected(sha, t, body) then Mismatch
    else if t.occupied && !t.overwrite then Exists
    else Stored(body)
  }

  /** How often a full buffer is written while these chunks arrive, and what is left in it. */
  function Flushed(chunks: seq<seq<Byte>>): (nat, nat) {
    if chunks == [] then (0, 0)
    else
      var (writes, left) := Flushed(chunks[..|chunks| - 1]);
      var more := left + |chunks[|chunks| - 1]|;
      if more >= CHUNK then (writes + 1, 0) else (writes, more)
  }

  /** How many chunks fit the limit. */
  function Fitting(chunks: seq<seq<Byte>>, maxBytes: nat): (n: nat)
    ensures n <= |chunks|
  {
    if |Joined(chunks)| <= maxBytes then |chunks|
    else Fitting(chunks[..|chunks| - 1], maxBytes)
  }

  /** How many calls on the file system a transfer gets to make: it opens the file, writes out
      the buffer, and if all of a whole body arrived finishes the file and puts it in place. */
  function Calls(sha: seq<Byte> -> string, t: Terms, declared: Announced, chunks: seq<seq<Byte>>, whole: bool): nat {
    var n := Fitting(chunks, t.maxBytes);
    var (writes, left) := Flushed(chunks[..n]);
    var received := 1 + writes;
    if n < |chunks| || !whole then received
    else
      var finished := received + (if left > 0 then 1 else 0) + 1;
      if AsAnnounced(declared, Joined(chunks)) && AsExpected(sha, t, Joined(chunks)) then finished + 1 else finished
  }

  /** Does the fault come up before the transfer ends otherwise? */
  predicate Hits(fault: Option<Fault>, calls: nat) {
    fault.Some? && fault.value.at < calls
  }

  /** Failing to open the file counts as an error even if the disk is full. */
  function FaultReply(fault: Fault): Upload {
    if fault.full && fault.at > 0 then NoSpace else WriteError
  }

  function Transfer(sha: seq<Byte> -> string, t: Terms, declared: Announced, chunks: seq<seq<Byte>>, whole: bool, fault: Option<Fault>): Upload {
    if Refused(t, declared).None? && Hits(fault, Calls(sha, t, declared, chunks, whole)) then FaultReply(fault.value)
    else Judge(sha, t, declared, Joined(chunks), whole)
  }

  lemma {:induction false} JoinedGrows(chunks: seq<seq<Byte>>, i: nat)
    requires i <= |chunks|
    ensures |Joined(chunks[..i])| <= |Joined(chunks)|
  {
    if i < |chunks| {
      var init := chunks[..|chunks| - 1];
      JoinedGrows(init, i);
      assert init[..i] == chunks[..i];
    } else {
      assert chunks[..i] == chunks;
    }
  }

  /** The chunks before the one that goes past the limit are those that fit. */
  lemma {:induction false} FittingIs(chunks: seq<seq<Byte>>, maxBytes: nat, n: nat)
    requires n <= |chunks| && |Joined(chunks[..n])| <= maxBytes
    requires n < |chunks| ==> |Joined(chunks[..n + 1])| > maxBytes
    ensures Fitting(chunks, maxBytes) == n
    ensures |Joined(chunks)| > maxBytes <==> n < |chunks|
  {
    if n == |chunks| {
      assert chunks[..n] == chunks;
    } else {
      JoinedGrows(chunks, n + 1);
      var init := chunks[..|chunks| - 1];
      assert init[..n] == chunks[..n];
      if n < |init| {
        assert init[..n + 1] == chunks[..n + 1];
      }
      FittingIs(init, maxBytes, n);
    }
  }

  /** Receiving the body: it is collected in a buffer and written out a chunk at a time. Gives
      the file and the buffer after the chunks taken, and how many calls were made; `failed` is
      set if one of them met the fault. */
  method Collect(chunks: seq<seq<Byte>>, maxBytes: nat, fault: Option<Fault>)
    returns (file: seq<Byte>, buf: seq<Byte>, taken: nat, calls: nat, failed: bool)
    ensures taken <= |chunks|
    ensures failed ==> fault.Some? && fault.value.at < 1 + Flushed(chunks[..Fitting(chunks, maxBytes)]).0
    ensures !failed ==>
              && taken == Fitting(chunks, maxBytes) && calls == 1 + Flushed(chunks[..taken]).0 && |buf| == Flushed(chunks[..taken]).1
              && file + buf == Joined(chunks[..taken]) && !Hits(fault, calls)
              && (taken < |chunks| <==> |Joined(chunks)| > maxBytes)
  {
    file, buf, taken, calls, failed := [], [], 0, 1, Hits(fault, 1);
    if failed {
      return;
    }
    var got := 0;
    while taken < |chunks|
      invariant taken <= |chunks| && file + buf == Joined(chunks[..taken]) && got == |file| + |buf| <= maxBytes
      invariant calls == 1 + Flushed(chunks[..taken]).0 && |buf| == Flushed(chunks[..taken]).1 && !Hits(fault, calls) && !failed
    {
      assert chunks[..taken + 1][..taken] == chunks[..taken];
      got := got + |chunks[taken]|;
      if got > maxBytes {
        FittingIs(chunks, maxBytes, taken);
        return;
      }
      Assoc(file, buf, chunks[taken]);
      buf := buf + chunks[taken];
      taken := taken + 1;
      if |buf| >= CHUNK {
        calls := calls + 1;
        if Hits(fault, calls) {
          failed := true;
          FlushedInTime(chunks, maxBytes, taken);
          return;
        }
        file, buf := file + buf, [];
      }
    }
    FittingIs(chunks, maxBytes, taken);
  }

  lemma {:induction false} FlushedGrows(chunks: seq<seq<Byte>>, i: nat)
    requires i <= |chunks|
    ensures Flushed(chunks[..i]).0 <= Flushed(chunks).0
  {
    if i < |chunks| {
      var init := chunks[..|chunks| - 1];
      FlushedGrows(init, i);
      assert init[..i] == chunks[..i];
    } else {
      assert chunks[..i] == chunks;
    }
  }

  /** What is written out before the limit is passed counts. */
  lemma {:induction false} FlushedInTime(chunks: seq<seq<Byte>>, maxBytes: nat, n: nat)
    requires n <= |chunks| && |Joined(chunks[..n])| <= maxBytes
    ensures Flushed(chunks[..n]).0 <= Flushed(chunks[..Fitting(chunks, maxBytes)]).0
  {
    if |Joined(chunks)| <= maxBytes {
      FlushedGrows(chunks, n);
      assert chunks[..|chunks|] == chunks;
    } else {
      assert chunks[..|chunks|] == chunks;
      var init := chunks[..|chunks| - 1];
      assert init[..n] == chunks[..n];
      FlushedInTime(init, maxBytes, n);
      assert init[..Fitting(init, maxBytes)] == chunks[..Fitting(chunks, maxBytes)];
    }
  }

  /** `upload_receive` behind the claim; `whole` is false if the client goes away after the last
      of `chunks`. */
  method Receive(sha: seq<Byte> -> string, t: Terms, declared: Announced, chunks: seq<seq<Byte>>, whole: bool, fault: Option<Fault>)
    returns (u: Upload)
    ensures u == Transfer(sha, t, declared, chunks, whole, fault)
  {
    if declared.NotANumber? {
      return BadRequest;
    }
    if declared.Length? && declared.n > t.maxBytes {
      return TooLarge;
    }
    if t.free.Some? && t.free.value < AnnouncedBytes(declared) + FREE_MARGIN {
      return NoSpace;
    }
    var file, buf, taken, calls, failed := Collect(chunks, t.maxBytes, fault);
    if failed {
      return FaultReply(fault.value);
    }
    if taken < |chunks| {
      return TooLarge;
    }
    if !whole {
      return Disconnected;
    }
    assert chunks[..taken] == chunks;
    u := Conclude(sha, t, declared, chunks, fault, file, buf, calls);
  }

  /** A whole body within the limit: finish the file, check it and put it in place. */
  method Conclude(sha: seq<Byte> -> string, t: Terms, declared: Announced, chunks: seq<seq<Byte>>, fault: Option<Fault>,
                  written: seq<Byte>, buf: seq<Byte>, before: nat) returns (u: Upload)
    requires Refused(t, declared).None? && |Joined(chunks)| <= t.maxBytes && written + buf == Joined(chunks)
    requires before == 1 + Flushed(chunks).0 && |buf| == Flushed(chunks).1 && !Hits(fault, before)
    ensures u == Transfer(sha, t, declared, chunks, true, fault)
  {
    assert chunks[..|chunks|] == chunks;
    var calls := before + (if buf != [] then 1 else 0) + 1;
    if Hits(fault, calls) {
      return FaultReply(fault.value);
    }
    var file := written + buf;
    if declared.Length? && |file| != declared.n {
      return Disconnected;
    }
    if t.expected.Some? && sha(file) != t.expected.value {
      return Mismatch;
    }
    if Hits(fault, calls + 1) {
      return FaultReply(fault.value);
    }
    if t.occupied && !t.overwrite {
      return Exists;
    }
    return Stored(file);
  }

  /** A body is stored, and its link used up by it, exactly when the request is in order, the
      file system does its part, and the body arrived whole and as announced, fits the link's
      limit, has the hash the link asks for and clobbers nothing. */
  lemma StoredExactly(sha: seq<Byte> -> string, t: Terms, declared: Announced, chunks: seq<seq<Byte>>, whole: bool, fault: Option<Fault>)
    ensures var body := Joined(chunks);
            var u := Transfer(sha, t, declared, chunks, whole, fault);
            && (OutcomeOf(u) == Complete <==>
                && Refused(t, declared).None? && !Hits(fault, Calls(sha, t, declared, chunks, whole))
                && whole && |body| <= t.maxBytes && AsAnnounced(declared, body) && AsExpected(sha, t, body)
                && (t.occupied ==> t.overwrite))
            && (u.Stored? ==> u.file == body)
  {
  }

  /** The link stays claimable exactly after a length that is no number, and after a body within
      the limit that broke off, differs from its announced length or has the wrong hash, unless
      the file system failed first. */
  lemma ReleasedExactly(sha: seq<Byte> -> string, t: Terms, declared: Announced, chunks: seq<seq<Byte>>, whole: bool, fault: Option<Fault>)
    ensures var body := Joined(chunks);
            OutcomeOf(Transfer(sha, t, declared, chunks, whole, fault)) == Release <==>
            || declared.NotANumber?
            || (&& Refused(t, declared).None? && !Hits(fault, Calls(sha, t, declared, chunks, whole))
                && |body| <= t.maxBytes
                && (!whole || !AsAnnounced(declared, body) || !AsExpected(sha, t, body)))
  {
  }

  /** It is given up exactly when the body or its announced length is above the limit, space is
      short, the file system fails, or a finished body would clobber a file. */
  lemma GivenUpExactly(sha: seq<Byte> -> string, t: Terms, declared: Announced, chunks: seq<seq<Byte>>, whole: bool, fault: Option<Fault>)
    ensures var body := Joined(chunks);
            OutcomeOf(Transfer(sha, t, declared, chunks, whole, fault)) == GiveUp <==>
            !declared.NotANumber? &&
            (|| Refused(t, declared).Some?
             || Hits(fault, Calls(sha, t, declared, chunks, whole))
             || |body| > t.maxBytes
             || (whole && AsAnnounced(declared, body) && AsExpected(sha, t, body) && t.occupied && !t.overwrite))
  {
  }

  /** With a file system that does its part, how the body is cut into chunks makes no
      difference. */
  lemma ChunkingMakesNoDifference(sha: seq<Byte> -> string, t: Terms, declared: Announced, a: seq<seq<Byte>>, b: seq<seq<Byte>>, whole: bool)
    requires Joined(a) == Joined(b)
    ensures Transfer(sha, t, declared, a, whole, None) == Transfer(sha, t, declared, b, whole, None)
  {
  }
}
