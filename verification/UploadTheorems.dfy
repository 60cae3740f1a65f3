/** When a chunked upload is refused, when it is discarded and when it replaces the target
    (pcbridge/files.py, `upload_chunk`), in terms of the digests the caller wrote. */
module UploadTheorems {
  import opened Wrappers
  import opened Utf8
  import opened Strings
  import opened UploadProtocol

  // ---------------------------------------------------------- written digests

  /** A hex digit, small or capital. */
  predicate SameDigit(written: char, digit: char) {
    written == digit || ('A' <= written <= 'F' && digit as int == written as int + 32)
  }

  /** `s` is `hex` with white space around it and letters in either case. */
  predicate SpelledAt(s: string, hex: string, from: nat, to: nat) {
    && from <= to <= |s| && |hex| == to - from
    && (forall i :: 0 <= i < from ==> IsSpace(s[i]))
    && (forall i :: to <= i < |s| ==> IsSpace(s[i]))
    && (forall i :: 0 <= i < |hex| ==> SameDigit(s[from + i], hex[i]))
  }

  ghost predicate Spells(s: string, hex: string) {
    exists from: nat, to: nat :: SpelledAt(s, hex, from, to)
  }

  lemma DigitIsNoSpace(c: char, digit: char)
    requires IsHex(digit) && SameDigit(c, digit)
    ensures !IsSpace(c)
  {
  }

  lemma {:induction false} StripSpelled(s: string, hex: string, from: nat, to: nat)
    requires SpelledAt(s, hex, from, to) && AllHex(hex) && hex != []
    ensures Strip(s) == s[from..to]
    decreases |s|
  {
    DigitIsNoSpace(s[from], hex[0]);
    DigitIsNoSpace(s[to - 1], hex[|hex| - 1]);
    if from > 0 {
      var t := s[1..];
      assert forall i :: 0 <= i < |t| ==> t[i] == s[i + 1];
      StripSpelled(t, hex, from - 1, to - 1);
      assert t[from - 1..to - 1] == s[from..to];
    } else if to < |s| {
      var t := s[..|s| - 1];
      StripSpelled(t, hex, from, to);
      assert t[from..to] == s[from..to];
    } else {
      assert s[from..to] == s;
    }
  }

  lemma {:induction false} StripCuts(s: string) returns (from: nat, to: nat)
    ensures from <= to <= |s| && Strip(s) == s[from..to]
    ensures forall i :: 0 <= i < from ==> IsSpace(s[i])
    ensures forall i :: to <= i < |s| ==> IsSpace(s[i])
    decreases |s|
  {
    if s != [] && IsSpace(s[0]) {
      var t := s[1..];
      assert forall i :: 0 <= i < |t| ==> t[i] == s[i + 1];
      from, to := StripCuts(t);
      assert t[from..to] == s[from + 1..to + 1];
      from, to := from + 1, to + 1;
      assert forall i :: 1 <= i < |s| ==> s[i] == t[i - 1];
    } else if s != [] && IsSpace(s[|s| - 1]) {
      var t := s[..|s| - 1];
      from, to := StripCuts(t);
      assert t[from..to] == s[from..to];
    } else {
      from, to := 0, |s|;
      assert s[0..|s|] == s;
    }
  }

  lemma LowerSpells(s: string, hex: string)
    requires AllHex(hex)
    ensures Lower(s) == hex <==> |s| == |hex| && forall i :: 0 <= i < |hex| ==> SameDigit(s[i], hex[i])
  {
    if Lower(s) == hex {
      forall i | 0 <= i < |hex|
        ensures SameDigit(s[i], hex[i])
      {
        assert Lower(s)[i] == hex[i] && IsHex(hex[i]);
      }
    } else if |s| == |hex| && forall i :: 0 <= i < |hex| ==> SameDigit(s[i], hex[i]) {
      assert forall i :: 0 <= i < |hex| ==> Lower(s)[i] == hex[i];
    }
  }

  /** What the program reads is what was written. */
  lemma ReadsWhatIsSpelled(s: string, hex: string)
    requires AllHex(hex) && hex != []
    ensures Lower(Strip(s)) == hex <==> Spells(s, hex)
  {
    if Lower(Strip(s)) == hex {
      LowerSpells(Strip(s), hex);
      var from, to := StripCuts(s);
      assert forall i :: 0 <= i < to - from ==> s[from..to][i] == s[from + i];
      assert SpelledAt(s, hex, from, to);
    }
    if Spells(s, hex) {
      var from: nat, to: nat :| SpelledAt(s, hex, from, to);
      StripSpelled(s, hex, from, to);
      LowerSpells(s[from..to], hex);
    }
  }

  lemma FullHashSpelled(s: string, hex: string)
    requires IsDigest(hex)
    ensures FullHash(s) == Some(hex) <==> Spells(s, hex)
  {
    ReadsWhatIsSpelled(s, hex);
  }

  ghost predicate SpellsADigest(s: string) {
    exists hex: string :: IsDigest(hex) && Spells(s, hex)
  }

  lemma FullHashOrNone(s: string)
    ensures FullHash(s).Some? <==> SpellsADigest(s)
  {
    if FullHash(s).Some? {
      FullHashSpelled(s, FullHash(s).value);
    }
    if SpellsADigest(s) {
      var hex :| IsDigest(hex) && Spells(s, hex);
      FullHashSpelled(s, hex);
    }
  }

  // --------------------------------------------------------------- refusals

  /** The staging file ends where the chunk starts, or the chunk starts a new one. */
  predicate InOrder(d: Disk, c: Call) {
    c.offset == 0 || (c.offset > 0 && d.stage.Some? && |d.stage.value| == c.offset)
  }

  /** A chunk is taken exactly if its own hash is right, the hash of the whole is one if it is
      given, and it is the next one or starts anew. */
  lemma TakenExactly(sha: Sha, d: Disk, c: Call)
    requires PrintsDigests(sha)
    ensures Refusal(sha, d, c).None? <==>
            Spells(c.chunkSha, sha(c.data)) && (c.finalSha.Some? ==> SpellsADigest(c.finalSha.value)) && InOrder(d, c)
  {
    FullHashSpelled(c.chunkSha, sha(c.data));
    if c.finalSha.Some? {
      FullHashOrNone(c.finalSha.value);
    }
  }

  /** Which error a refused chunk gets. */
  lemma RefusedWith(sha: Sha, d: Disk, c: Call)
    requires PrintsDigests(sha) && Refusal(sha, d, c).Some?
    ensures Refusal(sha, d, c) == Some(NegativeOffset) <==> c.offset < 0
    ensures Refusal(sha, d, c) == Some(Damaged) <==>
            c.offset >= 0 && SpellsADigest(c.chunkSha) && !Spells(c.chunkSha, sha(c.data))
    ensures Refusal(sha, d, c) == Some(BadDigest) <==>
            c.offset >= 0 && (!SpellsADigest(c.chunkSha)
                              || (Spells(c.chunkSha, sha(c.data)) && c.finalSha.Some? && !SpellsADigest(c.finalSha.value)))
    ensures Refusal(sha, d, c).value.OutOfOrder? ==>
              Refusal(sha, d, c) == Some(OutOfOrder(if d.stage.Some? then |d.stage.value| else 0))
  {
    FullHashSpelled(c.chunkSha, sha(c.data));
    FullHashOrNone(c.chunkSha);
    if c.finalSha.Some? {
      FullHashOrNone(c.finalSha.value);
    }
  }

  // ----------------------------------------------------------- the old file

  /** At least twelve digits of the hash of the file that is there. */
  ghost predicate Names(expected: string, hash: string) {
    exists hex: string :: AllHex(hex) && |hex| >= 12 && hex <= hash && Spells(expected, hex)
  }

  ghost predicate SpellsEnough(expected: string) {
    exists hex: string :: AllHex(hex) && |hex| >= 12 && Spells(expected, hex)
  }

  /** The file the caller expects is checked exactly: too few digits or something else than
      digits is an error of its own, and a missing or different file is a conflict. */
  lemma ExpectedExactly(sha: Sha, current: Option<seq<Byte>>, expected: Option<string>)
    requires PrintsDigests(sha)
    ensures CheckExpected(sha, current, expected).None? <==>
            expected.None? || (current.Some? && Names(expected.value, sha(current.value)))
    ensures CheckExpected(sha, current, expected) == Some(BadExpected) <==> expected.Some? && !SpellsEnough(expected.value)
    ensures CheckExpected(sha, current, expected) == Some(Conflict) <==>
            expected.Some? && SpellsEnough(expected.value) && (current.None? || !Names(expected.value, sha(current.value)))
  {
    if expected.Some? {
      var want := Lower(Strip(expected.value));
      if |want| >= 12 && AllHex(want) {
        ReadsWhatIsSpelled(expected.value, want);
      }
      forall hex: string | AllHex(hex) && |hex| >= 12 && Spells(expected.value, hex)
        ensures hex == want
      {
        ReadsWhatIsSpelled(expected.value, hex);
      }
    }
  }

  /** The staging file with this chunk. */
  function Whole(d: Disk, c: Call): seq<Byte> {
    if c.offset == 0 || d.stage.None? then c.data else d.stage.value + c.data
  }

  ghost predicate MayReplace(sha: Sha, d: Disk, c: Call) {
    && (c.createOnly ==> d.target.None?)
    && (c.expected.Some? ==> d.target.Some? && Names(c.expected.value, sha(d.target.value)))
  }

  /** The target is replaced exactly by a chunk that is taken, with which the staged bytes have
      the hash the caller gives for the whole, when the file that is there is the expected one,
      or missing where it must be. It then is the staged bytes. In every other case it stays. */
  lemma ReplacedExactly(sha: Sha, d: Disk, c: Call)
    requires PrintsDigests(sha)
    ensures var (after, reply) := Upload(sha, d, c);
            var done := Spells(c.chunkSha, sha(c.data)) && InOrder(d, c)
                        && c.finalSha.Some? && Spells(c.finalSha.value, sha(Whole(d, c))) && MayReplace(sha, d, c);
            && (done ==> after == Disk(None, Some(Whole(d, c))) && reply == Ok(Uploaded(|Whole(d, c)|, Some(sha(Whole(d, c))))))
            && (!done ==> after.target == d.target && !(reply.Ok? && reply.value.sha.Some?))
  {
    TakenExactly(sha, d, c);
    ExpectedExactly(sha, d.target, c.expected);
    if c.finalSha.Some? {
      FullHashSpelled(c.finalSha.value, sha(Whole(d, c)));
      if Spells(c.finalSha.value, sha(Whole(d, c))) {
        assert SpellsADigest(c.finalSha.value);
      }
    }
  }

  /** A final chunk that is taken but does not replace the target discards the upload, with the
      error for the hash of the whole, for an existing file or for the expected one. */
  lemma DiscardedWith(sha: Sha, d: Disk, c: Call)
    requires PrintsDigests(sha) && Refusal(sha, d, c).None? && c.finalSha.Some?
    ensures var (after, reply) := Upload(sha, d, c);
            var right := Spells(c.finalSha.value, sha(Whole(d, c)));
            && after.stage.None?
            && (reply == Err(Discarded) <==> !right)
            && (reply == Err(AlreadyExists) <==> right && c.createOnly && d.target.Some?)
            && (reply == Err(BadExpected) <==>
                  right && !(c.createOnly && d.target.Some?) && c.expected.Some? && !SpellsEnough(c.expected.value))
            && (reply == Err(Conflict) <==>
                  right && !(c.createOnly && d.target.Some?) && c.expected.Some? && SpellsEnough(c.expected.value)
                  && (d.target.None? || !Names(c.expected.value, sha(d.target.value))))
  {
    FullHashSpelled(c.finalSha.value, sha(Whole(d, c)));
    ExpectedExactly(sha, d.target, c.expected);
  }

  /** A chunk that is taken and is not the last is staged behind what is there. */
  lemma StagedExactly(sha: Sha, d: Disk, c: Call)
    requires Refusal(sha, d, c).None? && c.finalSha.None?
    ensures Upload(sha, d, c) == (Disk(Some(Whole(d, c)), d.target), Ok(Uploaded(|Whole(d, c)|, None)))
  {
  }
}
