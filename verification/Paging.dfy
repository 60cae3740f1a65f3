/** Reading a text file page by page (pcbridge/files.py, `read_page` and below). */
module Paging {
  import opened Wrappers
  import opened Utf8
  import opened Newlines

  /** What one streaming pass over a file tells; `tag` stands for the hash of its path. */
  datatype Snapshot = Snapshot(size: nat, sha: string, lines: nat, head: seq<Byte>, tag: string)

  datatype Cursor = Cursor(offset: int, line: int, digest: string, tag: string)

  datatype Error = BinaryFile | NotUtf8 | OtherFile | Changed | BadCursor | PastTheEnd

  datatype Budget = Budget(maxChars: nat, maxLines: Option<int>)

  /** A page budget that makes progress possible. */
  type Allowance = b: Budget | b.maxChars >= 1 witness Budget(1, None)

  datatype Page = Page(
    text: Text,
    firstLine: int,
    lastLine: int,
    start: nat,
    end: nat,
    startsMidLine: bool,
    endsMidLine: bool,
    next: Option<Cursor>)

  const CHUNK := 0x100000
  const HEAD := 8192

  function Min(a: int, b: int): int {
    if a < b then a else b
  }

  function Max(a: int, b: int): int {
    if a > b then a else b
  }

  function Take<T>(s: seq<T>, n: nat): seq<T> {
    if n < |s| then s[..n] else s
  }

  function LineTotal(bs: seq<Byte>): nat {
    Count(bs, 10) + if bs != [] && bs[|bs| - 1] != 10 then 1 else 0
  }

  function SnapshotOf(bs: seq<Byte>, sha: string, tag: string): Snapshot {
    Snapshot(|bs|, sha, LineTotal(bs), Take(bs, HEAD), tag)
  }

  /** `snapshot`: size, line count and head in one pass over chunks. */
  method TakeSnapshot(bs: seq<Byte>, sha: string, tag: string) returns (snap: Snapshot)
    ensures snap == SnapshotOf(bs, sha, tag)
  {
    var newlines, size, head := 0, 0, [];
    var last: seq<Byte> := [];
    while size < |bs|
      invariant size <= |bs| && newlines == Count(bs[..size], 10) && head == Take(bs[..size], HEAD)
      invariant last == if size == 0 then [] else [bs[size - 1]]
    {
      var chunk := bs[size..Min(size + CHUNK, |bs|)];
      if |head| < HEAD {
        head := head + Take(chunk, HEAD - |head|);
      }
      CountJoins(bs[..size], chunk, 10);
      assert bs[..size + |chunk|] == bs[..size] + chunk;
      newlines := newlines + Count(chunk, 10);
      size := size + |chunk|;
      assert chunk[|chunk| - 1] == bs[size - 1];
      last := [chunk[|chunk| - 1]];
    }
    assert bs[..size] == bs;
    var lines := newlines + if size != 0 && last != [10] then 1 else 0;
    return Snapshot(size, sha, lines, head, tag);
  }

  // ------------------------------------------------------------------ cursors

  function MakeCursor(snap: Snapshot, offset: nat, line: int): Cursor {
    Cursor(offset, line, Take(snap.sha, 16), snap.tag)
  }

  /** (offset, line) of a cursor issued for this file, as it still is. */
  function ParseCursor(c: Cursor, snap: Snapshot): (r: Result<(nat, int), Error>)
    ensures r.Ok? <==> c.tag == snap.tag && c.digest == Take(snap.sha, 16) && 0 <= c.offset <= snap.size && c.line >= 1
    ensures r.Ok? ==> c == MakeCursor(snap, r.value.0, r.value.1)
  {
    if c.tag != snap.tag then Err(OtherFile)
    else if c.digest != Take(snap.sha, 16) then Err(Changed)
    else if !(0 <= c.offset <= snap.size) || c.line < 1 then Err(BadCursor)
    else Ok((c.offset, c.line))
  }

  // ------------------------------------------------------------ start of line

  /** Byte offset where 1-based `line` starts. */
  function OffsetOfLine(bs: seq<Byte>, line: int): nat {
    if line <= 1 then 0 else AfterNth(bs, 10, line - 1)
  }

  lemma SliceOfSlice(bs: seq<Byte>, from: nat, to: nat, i: nat, j: nat)
    requires from <= to <= |bs| && i <= j <= to - from
    ensures bs[from..to][i..j] == bs[from + i..from + j]
  {
    assert forall k :: 0 <= k < j - i ==> bs[from..to][i..j][k] == bs[from + i..from + j][k];
  }

  lemma ChunkAt(bs: seq<Byte>, chunk: seq<Byte>, pos: nat, end: nat, start: nat, i: nat)
    requires pos <= end <= |bs| && chunk == bs[pos..end] && start <= i < |chunk|
    ensures pos + i < |bs| && chunk[i] == bs[pos + i] && chunk[start..i] == bs[pos + start..pos + i]
  {
    SliceOfSlice(bs, pos, end, start, i);
  }

  lemma FoundBetween(bs: seq<Byte>, between: seq<Byte>, from: nat, to: nat)
    requires from <= to < |bs| && between == bs[from..to] && 10 !in between && bs[to] == 10
    ensures Count(bs[..to + 1], 10) == Count(bs[..from], 10) + 1
    ensures AfterNth(bs, 10, Count(bs[..from], 10) + 1) == to + 1
  {
    FoundNext(bs, 10, from, to);
  }

  lemma NoneInChunk(bs: seq<Byte>, chunk: seq<Byte>, pos: nat, end: nat, start: nat)
    requires pos <= end <= |bs| && chunk == bs[pos..end] && start <= |chunk| && 10 !in chunk[start..]
    ensures Count(bs[..end], 10) == Count(bs[..pos + start], 10)
  {
    SliceOfSlice(bs, pos, end, start, |chunk|);
    assert chunk[start..] == chunk[start..|chunk|];
    NoneBetween(bs, 10, pos + start, end);
  }

  /** Counts the newlines of one chunk until the wanted one. */
  method ScanChunk(bs: seq<Byte>, pos: nat, end: nat, before: nat, wanted: nat) returns (seen: nat, found: Option<nat>)
    requires pos <= end <= |bs| && before == Count(bs[..pos], 10) < wanted
    ensures found.Some? ==> found.value == AfterNth(bs, 10, wanted)
    ensures found.None? ==> seen == Count(bs[..end], 10) < wanted
  {
    seen := before;
    var chunk := bs[pos..end];
    var start := 0;
    var i := Find(chunk, 10, start);
    while i >= 0
      invariant start <= |chunk| && i == Find(chunk, 10, start)
      invariant seen == Count(bs[..pos + start], 10) < wanted
      decreases |chunk| - start
    {
      ChunkAt(bs, chunk, pos, end, start, i);
      FoundBetween(bs, chunk[start..i], pos + start, pos + i);
      seen := seen + 1;
      if seen == wanted {
        return seen, Some(pos + i + 1);
      }
      start := i + 1;
      i := Find(chunk, 10, start);
    }
    NoneInChunk(bs, chunk, pos, end, start);
    return seen, None;
  }

  /** `_offset_of_line`: the newlines are looked for chunk by chunk. */
  method SeekLine(bs: seq<Byte>, line: int) returns (offset: nat)
    ensures offset == OffsetOfLine(bs, line)
  {
    if line <= 1 {
      return 0;
    }
    var seen, pos := 0, 0;
    while pos < |bs|
      invariant pos <= |bs| && seen == Count(bs[..pos], 10) < line - 1
    {
      var end := Min(pos + CHUNK, |bs|);
      var found: Option<nat>;
      seen, found := ScanChunk(bs, pos, end, seen, line - 1);
      if found.Some? {
        return found.value;
      }
      pos := end;
    }
    assert bs[..pos] == bs;
    AfterNthCounts(bs, 10, line - 1);
    return pos;
  }

  // -------------------------------------------------------------- page text

  /** The page's own cuts, before it is ended on a line boundary. */
  function RawText(t: Text, b: Budget): (r: Text)
    ensures |r| <= |t| && r == t[..|r|]
  {
    var whole := Take(t, b.maxChars);
    if b.maxLines.Some? && b.maxLines.value > 0 then whole[..AfterNth(whole, NL, b.maxLines.value)] else whole
  }

  /** The text of a page that starts where `t` starts: the budget, then the last whole line. */
  function PageText(t: Text, b: Budget): (r: Text)
    ensures |r| <= |t| && r == t[..|r|]
  {
    var cut := RawText(t, b);
    if |cut| < |t| && cut != [] && cut[|cut| - 1] != NL && NL in cut then cut[..AfterLast(cut, NL)]
    else cut
  }

  /** What any page text of what is left must be: it advances, and it stops inside a line
      only if it holds no newline. */
  predicate IsCut(t: Text, p: Text) {
    && p <= t
    && (t != [] ==> p != [])
    && (|p| < |t| && p[|p| - 1] != NL ==> NL !in p)
  }

  lemma PageTextIsCut(t: Text, b: Allowance)
    ensures IsCut(t, PageText(t, b))
  {
    var whole := Take(t, b.maxChars);
    if b.maxLines.Some? && b.maxLines.value > 0 && whole != [] {
      assert AfterNth(whole, NL, b.maxLines.value) > 0;
    }
  }

  /** The page `read_page` makes of the text it cut at `offset`. */
  function PageAt(snap: Snapshot, offset: nat, line: int, midLine: bool, text: Text): Page {
    var end := offset + |Encode(text)|;
    var newlines := Count(text, NL);
    var whole := text != [] && text[|text| - 1] == NL;
    Page(text, line,
         if text == [] then line - 1 else line + newlines - if whole then 1 else 0,
         offset, end, midLine, text != [] && !whole && end < snap.size,
         if end < snap.size then Some(MakeCursor(snap, end, line + newlines)) else None)
  }

  lemma LongerText(t: Text, n: nat)
    requires n <= |t|
    ensures Encode(t) == Encode(t[..n]) + Encode(t[n..])
    ensures n < |t| ==> |Encode(t[..n])| < |Encode(t)|
  {
    assert t == t[..n] + t[n..];
    EncodeJoins(t[..n], t[n..]);
  }

  // ---------------------------------------------------------------- reading

  /** `_read_text`: up to `maxChars` characters of strict UTF-8 starting at `offset`. */
  method ReadText(bs: seq<Byte>, offset: nat, maxChars: nat) returns (r: Result<Text, Error>)
    requires offset <= |bs|
    ensures r.Err? ==> r.error == NotUtf8
    ensures forall t: Text :: bs[offset..] == Encode(t) ==> r == Ok(Take(t, maxChars))
  {
    var rest := bs[offset..];
    var out: Text, carry: seq<Byte>, pos := [], [], 0;
    var final := false;
    while |out| < maxChars && !final
      invariant pos <= |rest| && Decode(rest[..pos]) == Decoded(out, carry)
      invariant final ==> pos == |rest| && carry == []
      decreases !final, |rest| - pos
    {
      var want := Max(4096, (maxChars - |out|) * 4);
      var end := Min(pos + want, |rest|);
      var raw := rest[pos..end];
      DecodeMore(rest[..pos], raw);
      assert rest[..pos] + raw == rest[..end];
      var d := Decode(carry + raw);
      final := |raw| < want;
      if d.Bad? || (final && d.rest != []) {
        NotText(rest, end);
        return Err(NotUtf8);
      }
      out, carry, pos := out + d.text, d.rest, end;
    }
    ReadEnough(rest, pos, out, maxChars);
    return Ok(Take(out, maxChars));
  }

  lemma ReadEnough(bs: seq<Byte>, n: nat, out: Text, maxChars: nat)
    requires n <= |bs| && Decode(bs[..n]).Decoded? && Decode(bs[..n]).text == out
    requires |out| >= maxChars || n == |bs|
    ensures forall t: Text :: bs == Encode(t) ==> Take(out, maxChars) == Take(t, maxChars)
  {
    forall t: Text | bs == Encode(t)
      ensures Take(out, maxChars) == Take(t, maxChars)
    {
      DecodePrefix(t, n);
    }
  }

  /** A refused beginning, or an unfinished end, belongs to no text. */
  lemma NotText(bs: seq<Byte>, n: nat)
    requires n <= |bs|
    requires var d := Decode(bs[..n]); d.Bad? || (n == |bs| && d.rest != [])
    ensures forall t: Text :: bs != Encode(t)
  {
    forall t: Text
      ensures bs != Encode(t)
    {
      if bs == Encode(t) {
        DecodePrefix(t, n);
      }
    }
  }

  /** Cutting a page text after its `n`-th newline, as the loop over `find` does it. */
  method CutLines(text: Text, n: int) returns (r: Text)
    requires n > 0
    ensures r == text[..AfterNth(text, NL, n)]
  {
    var cut := -1;
    var i := 0;
    while i < n
      invariant 0 <= i <= n && -1 <= cut < |text|
      invariant Count(text[..cut + 1], NL) == i
      invariant i > 0 ==> AfterNth(text, NL, i) == cut + 1
    {
      var j := Find(text, NL, cut + 1);
      if j < 0 {
        NoneBetween(text, NL, cut + 1, |text|);
        assert text[..|text|] == text;
        AfterNthCounts(text, NL, n);
        return text;
      }
      FoundNext(text, NL, cut + 1, j);
      cut, i := j, i + 1;
    }
    return text[..cut + 1];
  }

  const SIGNATURES: seq<seq<Byte>> := [
    [0x25, 0x50, 0x44, 0x46, 0x2D],
    [0x89, 0x50, 0x4E, 0x47, 0x0D, 0x0A, 0x1A, 0x0A],
    [0xFF, 0xD8, 0xFF],
    [0x47, 0x49, 0x46, 0x38, 0x37, 0x61],
    [0x47, 0x49, 0x46, 0x38, 0x39, 0x61],
    [0x50, 0x4B, 0x03, 0x04],
    [0x1F, 0x8B],
    [0x7F, 0x45, 0x4C, 0x46],
    [0x53, 0x51, 0x4C, 0x69, 0x74, 0x65, 0x20, 0x66, 0x6F, 0x72, 0x6D, 0x61, 0x74, 0x20, 0x33, 0x00]]

  /** `sniff_binary`: a known signature, a WebP picture, or a NUL byte near the start. */
  predicate LooksBinary(head: seq<Byte>) {
    || (exists i :: 0 <= i < |SIGNATURES| && SIGNATURES[i] <= head)
    || ([0x52, 0x49, 0x46, 0x46] <= head && |head| >= 12 && head[8..12] == [0x57, 0x45, 0x42, 0x50])
    || 0 in Take(head, HEAD)
  }

  /** Where a request starts: (offset, line, inside a line). */
  function Entry(bs: seq<Byte>, snap: Snapshot, startLine: Option<int>, cursor: Option<Cursor>):
    (r: Result<(nat, int, bool), Error>)
    requires snap.size == |bs|
    ensures r.Ok? ==> r.value.0 <= |bs|
  {
    if LooksBinary(snap.head) then Err(BinaryFile)
    else match cursor
      case Some(c) =>
        (match ParseCursor(c, snap)
         case Err(e) => Err(e)
         case Ok((offset, line)) => Ok((offset, line, offset > 0 && bs[offset - 1] != 10)))
      case None =>
        var asked := if startLine.None? || startLine.value == 0 then 1 else startLine.value;
        var want := if asked < 0 then Max(1, snap.lines + asked + 1) else asked;
        if want > Max(snap.lines, 1) then Err(PastTheEnd)
        else Ok((OffsetOfLine(bs, want), want, false))
  }

  /** Where `read_page` starts. */
  method EnterPage(bs: seq<Byte>, snap: Snapshot, startLine: Option<int>, cursor: Option<Cursor>)
    returns (r: Result<(nat, int, bool), Error>)
    requires snap.size == |bs|
    ensures r == Entry(bs, snap, startLine, cursor)
  {
    if LooksBinary(snap.head) {
      return Err(BinaryFile);
    }
    if cursor.Some? {
      var at := ParseCursor(cursor.value, snap);
      if at.Err? {
        return Err(at.error);
      }
      var offset := at.value.0;
      return Ok((offset, at.value.1, offset > 0 && bs[offset - 1] != 10));
    }
    var want := if startLine.None? || startLine.value == 0 then 1 else startLine.value;
    if want < 0 {
      want := Max(1, snap.lines + want + 1);
    }
    if want > Max(snap.lines, 1) {
      return Err(PastTheEnd);
    }
    var offset := SeekLine(bs, want);
    return Ok((offset, want, false));
  }

  /** `read_page`. */
  method ReadPage(bs: seq<Byte>, sha: string, tag: string, startLine: Option<int>, cursor: Option<Cursor>, b: Budget)
    returns (r: Result<Page, Error>)
    ensures var snap := SnapshotOf(bs, sha, tag);
            match Entry(bs, snap, startLine, cursor)
            case Err(e) => r == Err(e)
            case Ok((offset, line, midLine)) =>
              && (r.Err? ==> r.error == NotUtf8)
              && forall t: Text :: bs[offset..] == Encode(t) ==> r == Ok(PageAt(snap, offset, line, midLine, PageText(t, b)))
  {
    var snap := TakeSnapshot(bs, sha, tag);
    var start := EnterPage(bs, snap, startLine, cursor);
    if start.Err? {
      return Err(start.error);
    }
    var (offset, line, midLine) := start.value;
    r := CutPage(bs, snap, offset, line, midLine, b);
  }

  lemma MoreToCome(t: Text, b: Budget, cut: Text)
    requires cut == RawText(t, b)
    ensures |Encode(cut)| < |Encode(t)| <==> |cut| < |t|
    ensures PageText(t, b) == if |cut| < |t| && cut != [] && cut[|cut| - 1] != NL && NL in cut
                              then cut[..AfterLast(cut, NL)] else cut
  {
    LongerText(t, |cut|);
  }

  /** The text of the page, and whether the file goes on behind it. */
  method CutText(bs: seq<Byte>, offset: nat, b: Budget) returns (r: Result<Text, Error>)
    requires offset <= |bs|
    ensures r.Err? ==> r.error == NotUtf8
    ensures forall t: Text :: bs[offset..] == Encode(t) ==> r == Ok(PageText(t, b))
  {
    r := ReadText(bs, offset, b.maxChars);
    if r.Err? {
      return;
    }
    var text := r.value;
    if b.maxLines.Some? && b.maxLines.value > 0 {
      text := CutLines(text, b.maxLines.value);
    }
    ghost var cut := text;
    if offset + |Encode(text)| < |bs| && text != [] && text[|text| - 1] != NL && NL in text {
      text := text[..AfterLast(text, NL)];
    }
    CutIsPageText(bs, offset, b, cut, text);
    return Ok(text);
  }

  /** The rest of `read_page`, once it knows where the page starts. */
  method CutPage(bs: seq<Byte>, snap: Snapshot, offset: nat, line: int, midLine: bool, b: Budget)
    returns (r: Result<Page, Error>)
    requires snap.size == |bs| && offset <= |bs|
    ensures r.Err? ==> r.error == NotUtf8
    ensures forall t: Text :: bs[offset..] == Encode(t) ==> r == Ok(PageAt(snap, offset, line, midLine, PageText(t, b)))
  {
    var got := CutText(bs, offset, b);
    if got.Err? {
      return Err(got.error);
    }
    var text := got.value;
    var end := offset + |Encode(text)|;
    var newlines := Count(text, NL);
    var whole := text != [] && text[|text| - 1] == NL;
    var last := if text == [] then line - 1 else line + newlines - if whole then 1 else 0;
    var next := if end < snap.size then Some(MakeCursor(snap, end, line + newlines)) else None;
    r := Ok(Page(text, line, last, offset, end, midLine, text != [] && !whole && end < snap.size, next));
    assert r == Ok(PageAt(snap, offset, line, midLine, text));
  }

  lemma CutIsPageText(bs: seq<Byte>, offset: nat, b: Budget, cut: Text, text: Text)
    requires offset <= |bs|
    requires forall t: Text :: bs[offset..] == Encode(t) ==> cut == RawText(t, b)
    requires text == if offset + |Encode(cut)| < |bs| && cut != [] && cut[|cut| - 1] != NL && NL in cut
                     then cut[..AfterLast(cut, NL)] else cut
    ensures forall t: Text :: bs[offset..] == Encode(t) ==> text == PageText(t, b)
  {
    forall t: Text | bs[offset..] == Encode(t)
      ensures text == PageText(t, b)
    {
      MoreToCome(t, b, cut);
    }
  }

  // ------------------------------------------------------- following cursors

  /** One way of choosing page texts, by page number and what is left of the file. */
  type Cutting = (nat, Text) -> Text

  ghost predicate Cuts(cut: Cutting) {
    forall i, t :: IsCut(t, cut(i, t))
  }

  /** The pages of a reader that starts at `offset` and follows each printed cursor. */
  ghost function Follow(snap: Snapshot, offset: nat, line: int, midLine: bool, t: Text, cut: Cutting, i: nat): seq<Page>
    requires Cuts(cut)
    decreases |t|
  {
    var text := cut(i, t);
    var p := PageAt(snap, offset, line, midLine, text);
    if p.next.None? || t == [] then [p]
    else
      assert IsCut(t, text);
      [p] + Follow(snap, p.next.value.offset, p.next.value.line, text[|text| - 1] != NL, t[|text|..], cut, i + 1)
  }

  function Texts(pages: seq<Page>): Text {
    if pages == [] then [] else pages[0].text + Texts(pages[1..])
  }

  /** What is promised of one page of a file with bytes `bs`. */
  ghost predicate GoodPage(bs: seq<Byte>, snap: Snapshot, p: Page) {
    && p.start <= p.end <= |bs|
    && bs[p.start..p.end] == Encode(p.text)
    && p.firstLine == 1 + Count(bs[..p.start], 10)
    && (p.endsMidLine ==> NL !in p.text)
    && (p.next.None? <==> p.end == |bs|)
    && (p.next.Some? ==>
          && p.start < p.end
          && p.next.value.line == 1 + Count(bs[..p.end], 10)
          && ParseCursor(p.next.value, snap) == Ok((p.end, p.next.value.line)))
  }

  ghost predicate Chained(pages: seq<Page>) {
    forall i :: 0 <= i < |pages| - 1 ==> pages[i].next.Some? && pages[i + 1].start == pages[i].end
  }

  lemma Slices(a: seq<Byte>, b: seq<Byte>, c: seq<Byte>)
    ensures var s := a + (b + c);
            s[..|a|] == a && s[|a|..|a| + |b|] == b && s[..|a| + |b|] == a + b && s == (a + b) + c
  {
  }

  predicate Issued(c: Cursor, snap: Snapshot, offset: nat, line: int) {
    c.offset == offset && c.line == line && c.tag == snap.tag && c.digest == Take(snap.sha, 16)
  }

  lemma PartsMakeGoodPage(bs: seq<Byte>, snap: Snapshot, before: seq<Byte>, e: seq<Byte>, r: seq<Byte>, p: Page)
    requires bs == before + (e + r) && snap.size == |bs| && e == Encode(p.text)
    requires p.start == |before| && p.end == |before| + |e| && p.firstLine == 1 + Count(before, 10)
    requires p.endsMidLine ==> NL !in p.text
    requires |r| > 0 ==> |e| > 0
    requires p.next.Some? <==> p.end < snap.size
    requires p.next.Some? ==> Issued(p.next.value, snap, p.end, 1 + Count(before + e, 10))
    ensures GoodPage(bs, snap, p)
  {
    Slices(before, e, r);
  }

  lemma NewLineNumber(before: seq<Byte>, text: Text, e: seq<Byte>)
    requires e == Encode(text)
    ensures Count(before + e, 10) == Count(before, 10) + Count(text, NL)
  {
    CountJoins(before, e, 10);
    NewlinesOfEncoding(text);
  }

  lemma PageIsGood(bs: seq<Byte>, snap: Snapshot, before: seq<Byte>, e: seq<Byte>, r: seq<Byte>, line: int,
                   midLine: bool, text: Text)
    requires bs == before + (e + r) && snap.size == |bs| && line == 1 + Count(before, 10) && e == Encode(text)
    requires |r| > 0 ==> |text| > 0 && |e| > 0 && (text[|text| - 1] != NL ==> NL !in text)
    ensures var p := PageAt(snap, |before|, line, midLine, text);
            && GoodPage(bs, snap, p) && (p.next.None? <==> |r| == 0)
  {
    NewLineNumber(before, text, e);
    var p := PageAt(snap, |before|, line, midLine, text);
    assert |bs| == |before| + |e| + |r|;
    if |r| > 0 {
      assert p.next.value.line == line + Count(text, NL);
    }
    PartsMakeGoodPage(bs, snap, before, e, r, p);
  }

  lemma NonEmptyEncoding(t: Text)
    ensures t == [] <==> Encode(t) == []
  {
  }

  ghost predicate Covers(pages: seq<Page>, bs: seq<Byte>, snap: Snapshot, offset: nat, t: Text) {
    && pages != [] && |pages| <= |t| + 1 && Texts(pages) == t
    && pages[0].start == offset && pages[|pages| - 1].next.None?
    && (forall j :: 0 <= j < |pages| ==> GoodPage(bs, snap, pages[j]))
    && Chained(pages)
  }

  lemma CoversMore(p: Page, pages: seq<Page>, bs: seq<Byte>, snap: Snapshot, t: Text, rest: Text)
    requires GoodPage(bs, snap, p) && p.next.Some? && Covers(pages, bs, snap, p.end, rest)
    requires t == p.text + rest && p.text != []
    ensures Covers([p] + pages, bs, snap, p.start, t)
  {
    assert ([p] + pages)[1..] == pages;
  }

  lemma CoversLast(p: Page, bs: seq<Byte>, snap: Snapshot, t: Text)
    requires GoodPage(bs, snap, p) && p.next.None? && t == p.text
    ensures Covers([p], bs, snap, p.start, t)
  {
    assert Texts([p]) == p.text + Texts([]);
  }

  lemma FollowPage(bs: seq<Byte>, snap: Snapshot, before: seq<Byte>, line: int, midLine: bool, t: Text, text: Text)
    requires bs == before + Encode(t) && snap.size == |bs| && line == 1 + Count(before, 10) && IsCut(t, text)
    ensures var p := PageAt(snap, |before|, line, midLine, text);
            var rest := t[|text|..];
            var after := before + Encode(text);
            && GoodPage(bs, snap, p) && (p.next.None? <==> rest == [])
            && t == text + rest && bs == after + Encode(rest)
            && (p.next.Some? ==> p.next.value.offset == p.end == |after| && p.next.value.line == 1 + Count(after, 10))
  {
    var rest := t[|text|..];
    LongerText(t, |text|);
    NonEmptyEncoding(text);
    NonEmptyEncoding(rest);
    NewLineNumber(before, text, Encode(text));
    assert t[..|text|] == text;
    PageIsGood(bs, snap, before, Encode(text), Encode(rest), line, midLine, text);
    Assoc(before, Encode(text), Encode(rest));
  }

  lemma {:induction false} FollowCovers(bs: seq<Byte>, snap: Snapshot, before: seq<Byte>, offset: nat, line: int,
                                        midLine: bool, t: Text, cut: Cutting, i: nat)
    requires bs == before + Encode(t) && snap.size == |bs| && Cuts(cut)
    requires offset == |before| && line == 1 + Count(before, 10)
    ensures Covers(Follow(snap, offset, line, midLine, t, cut, i), bs, snap, offset, t)
    decreases |t|
  {
    var text := cut(i, t);
    assert IsCut(t, text);
    var rest := t[|text|..];
    var p := PageAt(snap, offset, line, midLine, text);
    FollowPage(bs, snap, before, line, midLine, t, text);
    if p.next.Some? {
      var c, mid := p.next.value, text[|text| - 1] != NL;
      FollowCovers(bs, snap, before + Encode(text), c.offset, c.line, mid, rest, cut, i + 1);
      CoversMore(p, Follow(snap, c.offset, c.line, mid, rest, cut, i + 1), bs, snap, t, rest);
    } else {
      CoversLast(p, bs, snap, t);
    }
  }

  /** Page texts cut by budgets chosen page by page. */
  ghost function Budgets(budgets: nat -> Allowance): (cut: Cutting)
    ensures Cuts(cut)
  {
    var cut := (i: nat, t: Text) => PageText(t, budgets(i));
    assert Cuts(cut) by {
      forall i: nat, t
        ensures IsCut(t, cut(i, t))
      {
        PageTextIsCut(t, budgets(i));
      }
    }
    cut
  }

  /** Following the cursors from any line, with any budgets of at least one character, gives
      exactly the file from that line to its end, in strictly advancing pages. */
  lemma PagesCoverTheFile(whole: Text, snap: Snapshot, line: int, budgets: nat -> Allowance)
    requires snap == SnapshotOf(Encode(whole), snap.sha, snap.tag)
    requires 1 <= line <= Max(snap.lines, 1)
    ensures var rest := whole[AfterNth(whole, NL, line - 1)..];
            var offset := OffsetOfLine(Encode(whole), line);
            && Encode(whole)[offset..] == Encode(rest)
            && Covers(Follow(snap, offset, line, false, rest, Budgets(budgets), 0), Encode(whole), snap, offset, rest)
  {
    var n := AfterNth(whole, NL, line - 1);
    LineStart(whole, line);
    FollowCovers(Encode(whole), snap, Encode(whole[..n]), OffsetOfLine(Encode(whole), line), line, false,
                 whole[n..], Budgets(budgets), 0);
  }

  lemma LastByte(t: Text)
    requires t != []
    ensures Encode(t) != [] && (Encode(t)[|Encode(t)| - 1] == 10 <==> t[|t| - 1] == NL)
  {
    var c := t[|t| - 1];
    EncodeJoins(t[..|t| - 1], [c]);
    assert t == t[..|t| - 1] + [c];
    assert Encode([c]) == Enc(c) + Encode([]) == Enc(c);
    NewlineByte(c);
  }

  /** A printed cursor makes `read_page` go on where the page ended, and tells it whether
      that is inside a line: what `Follow` assumes of it. */
  lemma CursorResumes(bs: seq<Byte>, snap: Snapshot, p: Page)
    requires snap.size == |bs| && GoodPage(bs, snap, p) && p.next.Some? && !LooksBinary(snap.head)
    ensures p.text != []
    ensures Entry(bs, snap, None, p.next) == Ok((p.end, p.next.value.line, p.text[|p.text| - 1] != NL))
  {
    NonEmptyEncoding(p.text);
    LastByte(p.text);
    assert bs[p.end - 1] == bs[p.start..p.end][p.end - p.start - 1];
  }

  lemma LineStart(whole: Text, line: int)
    requires 1 <= line <= Max(LineTotal(Encode(whole)), 1)
    ensures var n := AfterNth(whole, NL, line - 1);
            && OffsetOfLine(Encode(whole), line) == |Encode(whole[..n])|
            && Count(Encode(whole[..n]), 10) == line - 1
            && Encode(whole) == Encode(whole[..n]) + Encode(whole[n..])
  {
    var n := AfterNth(whole, NL, line - 1);
    LineExists(whole, line);
    LongerText(whole, n);
    AfterNthOfEncoding(whole, line - 1);
    AfterNthCounts(whole, NL, line - 1);
    NewlinesOfEncoding(whole[..n]);
  }

  /** Every line up to the file's line total starts after that many newlines. */
  lemma LineExists(whole: Text, line: int)
    requires 1 <= line <= Max(LineTotal(Encode(whole)), 1)
    ensures line - 1 <= Count(whole, NL)
  {
    NewlinesOfEncoding(whole);
  }
}
