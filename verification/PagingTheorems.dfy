/** What a reader gets from `read_page` (pcbridge/files.py): where a page starts and how much of
    the file it holds, counted in newlines and characters. */
module PagingTheorems {
  import opened Wrappers
  import opened Utf8
  import opened Newlines
  import opened Paging

  // ------------------------------------------------------- where a page starts

  /** How many lines the bytes make: one for each newline and one for an unfinished end. */
  function LinesOf(bs: seq<Byte>): nat {
    if bs == [] || bs[|bs| - 1] == 10 then Count(bs, 10) else Count(bs, 10) + 1
  }

  /** Which line a request is for: the start counted from 1, or from the end if negative. */
  function LineAsked(lines: nat, startLine: Option<int>): int {
    match startLine
    case None => 1
    case Some(n) => if n == 0 then 1 else if n > 0 then n else if lines + n + 1 >= 1 then lines + n + 1 else 1
  }

  /** `line` starts at `offset`: as many newlines stand before it as lines do. */
  predicate StartsLine(bs: seq<Byte>, offset: nat, line: int) {
    && offset <= |bs| && Count(bs[..offset], 10) == line - 1
    && (offset == 0 || bs[offset - 1] == 10)
  }

  lemma NewlinesEnough(bs: seq<Byte>, line: int)
    requires 1 <= line <= LinesOf(bs) || line == 1
    ensures line - 1 <= Count(bs, 10)
  {
  }

  /** Without a cursor a page of a text file starts exactly where the line asked for starts, and
      is labelled with it; there is an error exactly if that line is past the last. */
  lemma PageStartsAtItsLine(bs: seq<Byte>, sha: string, tag: string, startLine: Option<int>)
    requires !LooksBinary(Take(bs, HEAD))
    ensures var r := Entry(bs, SnapshotOf(bs, sha, tag), startLine, None);
            var line := LineAsked(LinesOf(bs), startLine);
            && line >= 1
            && (r.Err? <==> line > 1 && line > LinesOf(bs))
            && (r.Err? ==> r == Err(PastTheEnd))
            && (r.Ok? ==> StartsLine(bs, r.value.0, line) && r.value.1 == line && !r.value.2)
  {
    var line := LineAsked(LinesOf(bs), startLine);
    var r := Entry(bs, SnapshotOf(bs, sha, tag), startLine, None);
    if r.Ok? && line > 1 {
      NewlinesEnough(bs, line);
      AfterNthCounts(bs, 10, line - 1);
    }
  }

  lemma MoreNewlines(bs: seq<Byte>, a: nat, b: nat)
    requires a < b <= |bs| && bs[b - 1] == 10
    ensures Count(bs[..a], 10) < Count(bs[..b], 10)
  {
    var mid := bs[a..b];
    assert bs[..b] == bs[..a] + mid;
    assert mid[|mid| - 1] == 10;
    CountJoins(bs[..a], mid, 10);
    CountIn(mid, 10);
  }

  /** Only one offset starts a line. */
  lemma LineStartsOnce(bs: seq<Byte>, a: nat, b: nat, line: int)
    requires StartsLine(bs, a, line) && StartsLine(bs, b, line) && a <= b
    ensures a == b
  {
    if a < b {
      MoreNewlines(bs, a, b);
    }
  }

  /** A file with a NUL byte in its first 8192 bytes, or with a known signature in front, is
      refused whatever is asked for. */
  lemma BinaryIsRefused(bs: seq<Byte>, sha: string, tag: string, startLine: Option<int>, cursor: Option<Cursor>, i: nat)
    requires i < |bs| && i < 8192 && bs[i] == 0
    ensures Entry(bs, SnapshotOf(bs, sha, tag), startLine, cursor) == Err(BinaryFile)
  {
    var head := Take(bs, HEAD);
    assert head[i] == 0;
    assert Take(head, HEAD) == head;
  }

  lemma SignatureIsRefused(bs: seq<Byte>, sha: string, tag: string, startLine: Option<int>, cursor: Option<Cursor>, i: nat)
    requires i < |SIGNATURES| && SIGNATURES[i] <= bs
    ensures Entry(bs, SnapshotOf(bs, sha, tag), startLine, cursor) == Err(BinaryFile)
  {
    SignaturesAreShort(i);
    assert SIGNATURES[i] <= Take(bs, HEAD);
  }

  lemma SignaturesAreShort(i: nat)
    requires i < |SIGNATURES|
    ensures |SIGNATURES[i]| <= HEAD
  {
  }

  // ------------------------------------------------------- how much it holds

  /** The lines a text has a part of. */
  function LinesTouched(t: Text): nat {
    if t == [] || t[|t| - 1] == NL then Count(t, NL) else Count(t, NL) + 1
  }

  /** `c` is a beginning of `t` within the budget. */
  predicate Fits(t: Text, b: Budget, c: Text) {
    && c <= t && |c| <= b.maxChars
    && (b.maxLines.Some? && b.maxLines.value > 0 ==> LinesTouched(c) <= b.maxLines.value)
  }

  /** `c` ends where a line or the whole text ends. */
  predicate OnBoundary(t: Text, c: Text) {
    c == t || (c != [] && c[|c| - 1] == NL)
  }

  lemma PartCounts(a: Text, b: Text)
    requires a <= b
    ensures Count(a, NL) <= Count(b, NL)
    ensures |a| < |b| && b[|b| - 1] == NL ==> Count(a, NL) < Count(b, NL)
  {
    var rest := b[|a|..];
    assert b == a + rest;
    CountJoins(a, rest, NL);
    CountIn(rest, NL);
    if |a| < |b| && b[|b| - 1] == NL {
      assert rest[|rest| - 1] == NL;
    }
  }

  /** The budget's own cut fits, and nothing that fits and ends on a boundary is longer. */
  lemma RawIsLongest(t: Text, b: Budget, c: Text)
    ensures Fits(t, b, RawText(t, b))
    ensures Fits(t, b, c) && OnBoundary(t, c) ==> |c| <= |RawText(t, b)|
    ensures RawText(t, b) == Take(t, b.maxChars) || (RawText(t, b) != [] && RawText(t, b)[|RawText(t, b)| - 1] == NL)
  {
    var whole := Take(t, b.maxChars);
    var raw := RawText(t, b);
    if b.maxLines.Some? && b.maxLines.value > 0 {
      var m := b.maxLines.value;
      AfterNthCounts(whole, NL, m);
      if m > Count(whole, NL) {
        assert raw == whole;
      } else if Fits(t, b, c) && OnBoundary(t, c) && |c| > |raw| {
        assert raw <= c;
        PartCounts(raw, c);
      }
    }
  }

  lemma {:induction false} BeforeLast(t: Text, i: nat)
    requires i < |t| && t[i] == NL
    ensures i < AfterLast(t, NL)
  {
    if t[|t| - 1] != NL {
      BeforeLast(t[..|t| - 1], i);
    }
  }

  /** A page within its budget holds whole lines, as many as fit; only if not even the first
      line fits does it hold as many characters of that line as fit. */
  lemma PageIsTheLongestCut(t: Text, b: Budget, c: Text)
    ensures var p := PageText(t, b);
            && Fits(t, b, p)
            && (c != [] && Fits(t, b, c) && OnBoundary(t, c) ==> |c| <= |p| && OnBoundary(t, p))
            && (!OnBoundary(t, p) ==> NL !in p && |p| == b.maxChars)
  {
    var p, raw := PageText(t, b), RawText(t, b);
    RawIsLongest(t, b, c);
    if |p| < |raw| {
      PartCounts(p, raw);
      assert p[|p| - 1] == NL;
    }
    if c != [] && Fits(t, b, c) && OnBoundary(t, c) {
      assert c <= raw;
      if |raw| < |t| {
        assert raw[|c| - 1] == NL;
        BeforeLast(raw, |c| - 1);
      }
    }
  }

  /** The page says which lines it has a part of, and that it ends inside a line exactly if it
      does and the file goes on. */
  lemma PageLabels(snap: Snapshot, offset: nat, line: int, midLine: bool, text: Text)
    ensures var p := PageAt(snap, offset, line, midLine, text);
            && p.text == text && p.start == offset && p.end == offset + |Encode(text)|
            && p.firstLine == line && p.lastLine == line - 1 + LinesTouched(text)
            && p.startsMidLine == midLine
            && (p.endsMidLine <==> text != [] && text[|text| - 1] != NL && p.next.Some?)
            && (p.next.Some? <==> p.end < snap.size)
  {
  }
}
