/** Editing a text file in memory while keeping its line endings (pcbridge/files.py). */
module Edits {
  import opened Wrappers
  import opened Utf8
  import opened Newlines
  import opened Replacing
  import Paging

  const BOM: Scalar := Three(15, 59, 63)

  datatype Edit = Edit(oldText: Text, newText: Text, replaceAll: bool)

  datatype Error =
    | NoEdits
    | FileMissing
    | Binary
    | NotUtf8
    | EmptyOldText(n: nat)
    | OldTextNotFound(n: nat)
    | OldTextAmbiguous(n: nat, found: nat)

  datatype EditResult = EditResult(before: seq<Byte>, after: seq<Byte>, replacements: nat, lines: seq<(nat, nat)>)

  // ------------------------------------------------------------ line endings

  datatype Style = CrLfOnly | LfOnly | Mixed

  function NewlineStyle(t: Text): Style {
    var crlf := Matches(t, [CR, NL]);
    var lf := Count(t, NL);
    if lf == 0 then Mixed
    else if crlf == lf then CrLfOnly
    else if crlf == 0 then LfOnly
    else Mixed
  }

  /** Line feeds to CRLF, those that are part of one left as they are. */
  function ToCrLf(t: Text): Text {
    Replaced(Replaced(t, [CR, NL], [NL]), [NL], [CR, NL])
  }

  /** Every line feed is part of a CRLF, given whether a CR stands just before the text. */
  predicate CrLfFrom(cr: bool, t: Text)
    decreases |t|
  {
    t == [] || ((t[0] == NL ==> cr) && CrLfFrom(t[0] == CR, t[1..]))
  }

  predicate EveryLfInCrLf(t: Text) {
    CrLfFrom(false, t)
  }

  predicate EndsInCr(t: Text) {
    t != [] && t[|t| - 1] == CR
  }

  predicate CrBefore(cr: bool, t: Text, i: nat)
    requires i < |t|
  {
    if i == 0 then cr else t[i - 1] == CR
  }

  /** The same, position by position. */
  lemma {:induction false} CrLfByPosition(cr: bool, t: Text)
    ensures CrLfFrom(cr, t) <==> forall i :: 0 <= i < |t| && t[i] == NL ==> CrBefore(cr, t, i)
    decreases |t|
  {
    if t != [] {
      var rest := t[1..];
      CrLfByPosition(t[0] == CR, rest);
      assert forall i :: 1 <= i < |t| ==> (CrBefore(cr, t, i) <==> CrBefore(t[0] == CR, rest, i - 1));
      assert forall i :: 1 <= i < |t| && t[i] == NL ==> rest[i - 1] == NL;
      assert forall i :: 0 <= i < |rest| && rest[i] == NL ==> t[i + 1] == NL;
    }
  }

  lemma {:induction false} CrLfJoins(cr: bool, a: Text, b: Text)
    ensures CrLfFrom(cr, a + b) <==> CrLfFrom(cr, a) && CrLfFrom(if a == [] then cr else EndsInCr(a), b)
    decreases |a|
  {
    if a == [] {
      assert a + b == b;
    } else {
      CrLfJoins(a[0] == CR, a[1..], b);
      assert (a + b)[1..] == a[1..] + b;
    }
  }

  lemma PairAhead(t: Text)
    ensures [CR, NL] <= t <==> |t| >= 2 && t[0] == CR && t[1] == NL
  {
  }

  /** A file counts as CRLF exactly when it has line feeds and all are part of a CRLF. */
  lemma StyleIsExact(t: Text)
    ensures NewlineStyle(t) == CrLfOnly <==> NL in t && EveryLfInCrLf(t)
  {
    CountIn(t, NL);
    PairsAreLineFeeds(t);
  }

  lemma {:induction false} PairsAreLineFeeds(t: Text)
    ensures Matches(t, [CR, NL]) <= Count(t, NL)
    ensures Matches(t, [CR, NL]) == Count(t, NL) <==> CrLfFrom(false, t)
    decreases |t|
  {
    if |t| < 2 {
      assert t != [] ==> t[1..] == [];
    } else {
      PairAhead(t);
      if [CR, NL] <= t {
        PairsAreLineFeeds(t[2..]);
        assert t[1..][1..] == t[2..];
        assert Count(t[1..], NL) == 1 + Count(t[2..], NL);
      } else {
        PairsAreLineFeeds(t[1..]);
        CrAhead(t);
      }
    }
  }

  lemma CrAhead(t: Text)
    requires t != [] && !([CR, NL] <= t)
    ensures CrLfFrom(t[0] == CR, t[1..]) <==> CrLfFrom(false, t[1..])
  {
    PairAhead(t);
  }

  /** Whatever mix of endings a text has, its normal form has CRLF only. */
  lemma {:induction false} NormalIsCrLf(cr: bool, t: Text)
    ensures CrLfFrom(cr, Replaced(t, [NL], [CR, NL]))
    decreases |t|
  {
    if t != [] {
      var rest := Replaced(t[1..], [NL], [CR, NL]);
      if [NL] <= t {
        NormalIsCrLf(false, t[1..]);
        CrLfJoins(cr, [CR, NL], rest);
        assert [CR, NL][1..] == [NL];
      } else {
        assert t[0] == NL ==> [NL] <= t;
        NormalIsCrLf(t[0] == CR, t[1..]);
        assert ([t[0]] + rest)[1..] == rest;
      }
    }
  }

  lemma NormalForm(t: Text)
    ensures EveryLfInCrLf(ToCrLf(t))
    ensures ToCrLf(t) == [] <==> t == []
    ensures EndsInCr(ToCrLf(t)) <==> EndsInCr(t)
  {
    var bare := Replaced(t, [CR, NL], [NL]);
    NormalIsCrLf(false, bare);
    LastStays(t, [CR, NL], [NL]);
    LastStays(bare, [NL], [CR, NL]);
  }

  // ---------------------------------------------------------------- editing

  datatype Progress = Progress(body: Text, count: nat, lines: seq<(nat, nat)>)

  /** What is looked for, and what it is replaced with, in a file of this style. */
  function Ending(style: Style, t: Text): (r: Text)
    ensures r == [] <==> t == []
  {
    NormalForm(t);
    if style == CrLfOnly then ToCrLf(t) else t
  }

  /** The body after the replacement, how many places it changed, and the lines it touched. */
  function Edited(p: Progress, part: Text, sub: Text, all: bool): Progress
    requires part != []
  {
    var first := Count(p.body[..FirstAt(p.body, part)], NL) + 1;
    Progress(
      if all then Replaced(p.body, part, sub) else ReplacedOnce(p.body, part, sub),
      p.count + (if all then Matches(p.body, part) else 1),
      p.lines + [(first, first + Count(sub, NL))])
  }

  /** The `n`-th edit. */
  function ApplyEdit(style: Style, p: Progress, e: Edit, n: nat): Result<Progress, Error> {
    if e.oldText == [] then Err(EmptyOldText(n))
    else
      var part := Ending(style, e.oldText);
      var sub := Ending(style, e.newText);
      var found := Matches(p.body, part);
      if found == 0 then Err(OldTextNotFound(n))
      else if found > 1 && !e.replaceAll then Err(OldTextAmbiguous(n, found))
      else Ok(Edited(p, part, sub, e.replaceAll))
  }

  /** All edits in order; the first that fails ends it. */
  function ApplyAll(style: Style, body: Text, edits: seq<Edit>): Result<Progress, Error> {
    if edits == [] then Ok(Progress(body, 0, []))
    else
      var last := |edits| - 1;
      match ApplyAll(style, body, edits[..last])
      case Err(e) => Err(e)
      case Ok(p) => ApplyEdit(style, p, edits[last], last + 1)
  }

  function BodyOf(t: Text): Text {
    if t != [] && t[0] == BOM then t[1..] else t
  }

  function MarkOf(t: Text): Text {
    if t != [] && t[0] == BOM then [BOM] else []
  }

  function EditFile(raw: Option<seq<Byte>>, edits: seq<Edit>): Result<EditResult, Error> {
    if edits == [] then Err(NoEdits)
    else if raw.None? then Err(FileMissing)
    else if Paging.LooksBinary(raw.value) then Err(Binary)
    else match DecodeAll(raw.value)
      case None => Err(NotUtf8)
      case Some(t) =>
        match ApplyAll(NewlineStyle(BodyOf(t)), BodyOf(t), edits)
        case Err(e) => Err(e)
        case Ok(p) => Ok(EditResult(raw.value, Encode(MarkOf(t) + p.body), p.count, p.lines))
  }

  /** One edit of the loop. */
  method EditBody(style: Style, p: Progress, e: Edit, n: nat) returns (r: Result<Progress, Error>)
    ensures r == ApplyEdit(style, p, e, n)
  {
    if e.oldText == [] {
      return Err(EmptyOldText(n));
    }
    var part, sub := e.oldText, e.newText;
    if style == CrLfOnly {
      part, sub := ToCrLf(part), ToCrLf(sub);
    }
    assert part == Ending(style, e.oldText) && sub == Ending(style, e.newText);
    var found := Matches(p.body, part);
    if found == 0 {
      return Err(OldTextNotFound(n));
    }
    if found > 1 && !e.replaceAll {
      return Err(OldTextAmbiguous(n, found));
    }
    return Ok(Edited(p, part, sub, e.replaceAll));
  }

  method ApplyEdits(raw: Option<seq<Byte>>, edits: seq<Edit>) returns (r: Result<EditResult, Error>)
    ensures r == EditFile(raw, edits)
  {
    if edits == [] {
      return Err(NoEdits);
    }
    if raw.None? {
      return Err(FileMissing);
    }
    if Paging.LooksBinary(raw.value) {
      return Err(Binary);
    }
    var text := DecodeAll(raw.value);
    if text.None? {
      return Err(NotUtf8);
    }
    var body := BodyOf(text.value);
    var edited := EditAll(NewlineStyle(body), body, edits);
    if edited.Err? {
      return Err(edited.error);
    }
    var p := edited.value;
    return Ok(EditResult(raw.value, Encode(MarkOf(text.value) + p.body), p.count, p.lines));
  }

  /** The loop over the edits. */
  method EditAll(style: Style, body: Text, edits: seq<Edit>) returns (r: Result<Progress, Error>)
    ensures r == ApplyAll(style, body, edits)
  {
    var p := Progress(body, 0, []);
    for n := 0 to |edits|
      invariant ApplyAll(style, body, edits[..n]) == Ok(p)
    {
      var next := EditBody(style, p, edits[n], n + 1);
      FailsForGood(style, body, edits, n + 1);
      assert edits[..n + 1][..n] == edits[..n];
      if next.Err? {
        return Err(next.error);
      }
      p := next.value;
    }
    assert edits[..|edits|] == edits;
    return Ok(p);
  }

  /** A failing edit makes the whole call fail, whatever comes after it. */
  lemma {:induction false} FailsForGood(style: Style, body: Text, edits: seq<Edit>, n: nat)
    requires n <= |edits|
    ensures ApplyAll(style, body, edits[..n]).Err? ==> ApplyAll(style, body, edits) == ApplyAll(style, body, edits[..n])
    decreases |edits|
  {
    if n < |edits| {
      var last := |edits| - 1;
      FailsForGood(style, body, edits[..last], n);
      assert edits[..last][..n] == edits[..n];
    } else {
      assert edits[..n] == edits;
    }
  }

  // --------------------------------------------------------------- one edit

  /** An edit succeeds exactly when its old text is found once, or at least once when all are
      to be replaced. It then puts the new text between the same pieces of the body, at every
      place the old text was found, and counts those places. */
  lemma EditReplacesWhatItCounts(style: Style, p: Progress, e: Edit, n: nat)
    ensures ApplyEdit(style, p, e, n).Ok? <==>
            e.oldText != []
            && var found := Matches(p.body, Ending(style, e.oldText));
               found == 1 || (found > 1 && e.replaceAll)
    ensures ApplyEdit(style, p, e, n).Ok? ==>
            var after := ApplyEdit(style, p, e, n).value;
            var (part, sub) := (Ending(style, e.oldText), Ending(style, e.newText));
            && p.body == Join(Pieces(p.body, part), part)
            && after.body == Join(Pieces(p.body, part), sub) == Replaced(p.body, part, sub)
            && after.count == p.count + |Pieces(p.body, part)| - 1
  {
    if ApplyEdit(style, p, e, n).Ok? {
      var (part, sub) := (Ending(style, e.oldText), Ending(style, e.newText));
      ReplacedJoinsThePieces(p.body, part, sub);
      if Matches(p.body, part) == 1 {
        OnceIsAll(p.body, part, sub);
      }
    }
  }

  /** Replacing keeps every line feed in a CRLF when the new text has none bare and it ends in a
      CR if the old text does. */
  lemma {:induction false} ReplacingKeepsCrLf(before: bool, after: bool, t: Text, part: Text, sub: Text)
    requires part != [] && (EndsInCr(part) ==> EndsInCr(sub))
    requires CrLfFrom(before, t) && EveryLfInCrLf(sub) && (before ==> after)
    ensures CrLfFrom(after, Replaced(t, part, sub))
    decreases |t|
  {
    if |t| < |part| {
      CrLfStarts(before, after, t);
    } else if part <= t {
      assert t == part + t[|part|..];
      CrLfJoins(before, part, t[|part|..]);
      CrLfStarts(false, after, sub);
      ReplacingKeepsCrLf(EndsInCr(part), if sub == [] then after else EndsInCr(sub), t[|part|..], part, sub);
      CrLfJoins(after, sub, Replaced(t[|part|..], part, sub));
    } else {
      ReplacingKeepsCrLf(t[0] == CR, t[0] == CR, t[1..], part, sub);
      assert ([t[0]] + Replaced(t[1..], part, sub))[1..] == Replaced(t[1..], part, sub);
    }
  }

  lemma CrLfStarts(before: bool, after: bool, t: Text)
    requires CrLfFrom(before, t) && (before ==> after)
    ensures CrLfFrom(after, t)
  {
  }

  /** The edits that bring in no bare line feed. */
  predicate Fitting(style: Style, e: Edit) {
    (EndsInCr(e.oldText) ==> EndsInCr(e.newText)) && (style == CrLfOnly || EveryLfInCrLf(e.newText))
  }

  lemma EditKeepsCrLf(style: Style, p: Progress, e: Edit, n: nat)
    requires EveryLfInCrLf(p.body) && Fitting(style, e) && ApplyEdit(style, p, e, n).Ok?
    ensures EveryLfInCrLf(ApplyEdit(style, p, e, n).value.body)
  {
    EditReplacesWhatItCounts(style, p, e, n);
    NormalForm(e.oldText);
    NormalForm(e.newText);
    ReplacingKeepsCrLf(false, false, p.body, Ending(style, e.oldText), Ending(style, e.newText));
  }

  // ------------------------------------------------------------- all edits

  lemma {:induction false} EditsKeepCrLf(style: Style, body: Text, edits: seq<Edit>)
    requires EveryLfInCrLf(body)
    requires forall i :: 0 <= i < |edits| ==> Fitting(style, edits[i])
    ensures ApplyAll(style, body, edits).Ok? ==> EveryLfInCrLf(ApplyAll(style, body, edits).value.body)
  {
    if edits != [] && ApplyAll(style, body, edits).Ok? {
      var last := |edits| - 1;
      EditsKeepCrLf(style, body, edits[..last]);
      EditKeepsCrLf(style, ApplyAll(style, body, edits[..last]).value, edits[last], last + 1);
    }
  }

  /** The file after the edits, as text. */
  ghost predicate EditedText(raw: seq<Byte>, edits: seq<Edit>, t: Text, body: Text) {
    && EditFile(Some(raw), edits).Ok?
    && raw == Encode(t)
    && EditFile(Some(raw), edits).value.after == Encode(MarkOf(t) + body)
    && ApplyAll(NewlineStyle(BodyOf(t)), BodyOf(t), edits).Ok?
    && body == ApplyAll(NewlineStyle(BodyOf(t)), BodyOf(t), edits).value.body
  }

  lemma EditedIsText(raw: seq<Byte>, edits: seq<Edit>)
    requires EditFile(Some(raw), edits).Ok?
    ensures exists t, body :: EditedText(raw, edits, t, body)
  {
    var t := DecodeAll(raw).value;
    DecodeAllExact(raw, t);
    assert EditedText(raw, edits, t, ApplyAll(NewlineStyle(BodyOf(t)), BodyOf(t), edits).value.body);
  }

  /** A CRLF file stays a CRLF file, and keeps its byte order mark if it had one, for all edits
      whose new texts end in a CR where their old texts do, whatever line endings the edits are
      written with. */
  lemma CrLfFilesStayCrLf(raw: seq<Byte>, edits: seq<Edit>, t: Text, body: Text)
    requires EditedText(raw, edits, t, body)
    requires NL in BodyOf(t) && EveryLfInCrLf(BodyOf(t))
    requires forall i :: 0 <= i < |edits| && EndsInCr(edits[i].oldText) ==> EndsInCr(edits[i].newText)
    ensures EveryLfInCrLf(body)
    ensures DecodeAll(EditFile(Some(raw), edits).value.after) == Some(MarkOf(t) + body)
  {
    StyleIsExact(BodyOf(t));
    EditsKeepCrLf(CrLfOnly, BodyOf(t), edits);
    DecodeAllExact(EditFile(Some(raw), edits).value.after, MarkOf(t) + body);
  }

  // ------------------------------------------------- where the promise ends

  /** The promise for one edit of a CRLF file. */
  ghost predicate NeverBares(oldText: Text, newText: Text) {
    forall p: Progress, n: nat ::
      NL in p.body && EveryLfInCrLf(p.body) && ApplyEdit(CrLfOnly, p, Edit(oldText, newText, true), n).Ok? ==>
        EveryLfInCrLf(ApplyEdit(CrLfOnly, p, Edit(oldText, newText, true), n).value.body)
  }

  lemma Ahead(x: Scalar, t: Text)
    requires t != []
    ensures [x] <= t <==> t[0] == x
  {
    assert t[..1] == [t[0]];
  }

  lemma CrIsNotNl(sub: Text)
    ensures Replaced([NL], [CR], sub) == [NL] && Matches([NL], [CR]) == 0
  {
    var t: Text := [NL];
    Ahead(CR, t);
    assert t[1..] == [];
    assert [NL] + [] == [NL];
    assert Replaced([], [CR], sub) == [];
    assert Replaced(t, [CR], sub) == [t[0]] + Replaced(t[1..], [CR], sub);
  }

  lemma CutsOffACr(oldText: Text, sub: Text)
    requires EndsInCr(oldText)
    ensures var part := ToCrLf(oldText);
            && EveryLfInCrLf(part + [NL])
            && Replaced(part + [NL], part, sub) == sub + [NL]
            && Matches(part + [NL], part) == 1
  {
    var part := ToCrLf(oldText);
    NormalForm(oldText);
    CrLfJoins(false, part, [NL]);
    assert (part + [NL])[|part|..] == [NL];
    assert part != [NL];
    assert Replaced([NL], part, sub) == [NL] && Matches([NL], part) == 0 by {
      if |part| == 1 {
        assert part == [CR];
        CrIsNotNl(sub);
      }
    }
  }

  /** A file in which cutting off the CR bares a line feed. */
  lemma BaresALineFeed(oldText: Text, newText: Text)
    requires EndsInCr(oldText) && !EndsInCr(newText)
    ensures !NeverBares(oldText, newText)
  {
    var part, sub := ToCrLf(oldText), ToCrLf(newText);
    NormalForm(oldText);
    NormalForm(newText);
    CutsOffACr(oldText, sub);
    var p := Progress(part + [NL], 0, []);
    assert ApplyEdit(CrLfOnly, p, Edit(oldText, newText, true), 1).value.body == sub + [NL];
    assert !CrLfFrom(false, [NL]);
    CrLfJoins(false, sub, [NL]);
    assert NL in p.body;
  }

  /** The line endings of all CRLF files are safe with an edit exactly when its new text ends in
      a CR or its old text does not. */
  lemma EditIsSafeExactly(oldText: Text, newText: Text)
    ensures NeverBares(oldText, newText) <==> EndsInCr(newText) || !EndsInCr(oldText)
  {
    if EndsInCr(oldText) && !EndsInCr(newText) {
      BaresALineFeed(oldText, newText);
    } else {
      forall p: Progress, n: nat
        | EveryLfInCrLf(p.body) && ApplyEdit(CrLfOnly, p, Edit(oldText, newText, true), n).Ok?
        ensures EveryLfInCrLf(ApplyEdit(CrLfOnly, p, Edit(oldText, newText, true), n).value.body)
      {
        EditKeepsCrLf(CrLfOnly, p, Edit(oldText, newText, true), n);
      }
    }
  }

  /** So they are safe with an old text, whatever the new text, exactly when the old text does
      not end in a CR. */
  lemma OldTextEndingInCrIsTheOnlyDanger(oldText: Text)
    ensures (forall newText: Text :: NeverBares(oldText, newText)) <==> !EndsInCr(oldText)
  {
    EditIsSafeExactly(oldText, []);
    forall newText: Text | !EndsInCr(oldText)
      ensures NeverBares(oldText, newText)
    {
      EditIsSafeExactly(oldText, newText);
    }
  }

  /** The promise for one edit of a file without any line feed, whose style is not CRLF. */
  ghost predicate NeverBaresOneLiners(oldText: Text, newText: Text) {
    forall p: Progress, n: nat ::
      NL !in p.body && ApplyEdit(NewlineStyle(p.body), p, Edit(oldText, newText, true), n).Ok? ==>
        EveryLfInCrLf(ApplyEdit(NewlineStyle(p.body), p, Edit(oldText, newText, true), n).value.body)
  }

  lemma {:induction false} OneLinersTakeCrLf(cr: bool, t: Text, part: Text, sub: Text)
    requires part != [] && NL !in t && EveryLfInCrLf(sub)
    ensures CrLfFrom(cr, Replaced(t, part, sub))
    decreases |t|
  {
    if |t| < |part| {
      CrLfByPosition(cr, t);
    } else if part <= t {
      var rest := Replaced(t[|part|..], part, sub);
      OneLinersTakeCrLf(if sub == [] then cr else EndsInCr(sub), t[|part|..], part, sub);
      CrLfStarts(false, cr, sub);
      CrLfJoins(cr, sub, rest);
    } else {
      OneLinersTakeCrLf(t[0] == CR, t[1..], part, sub);
      assert ([t[0]] + Replaced(t[1..], part, sub))[1..] == Replaced(t[1..], part, sub);
    }
  }

  /** In a file without line feeds the new text goes in as it is, so the result has no bare
      line feed for every such file exactly when the new text has none. */
  lemma OneLinersNeedFittingText(oldText: Text, newText: Text)
    requires oldText != [] && NL !in oldText
    ensures NeverBaresOneLiners(oldText, newText) <==> EveryLfInCrLf(newText)
  {
    var p := Progress(oldText, 0, []);
    CountIn(oldText, NL);
    assert oldText[|oldText|..] == [];
    assert newText + [] == newText;
    assert Replaced([], oldText, newText) == [] && Matches([], oldText) == 0;
    assert ApplyEdit(NewlineStyle(p.body), p, Edit(oldText, newText, true), 1).value.body == newText;
    if EveryLfInCrLf(newText) {
      forall q: Progress, n: nat
        | NL !in q.body && ApplyEdit(NewlineStyle(q.body), q, Edit(oldText, newText, true), n).Ok?
        ensures EveryLfInCrLf(ApplyEdit(NewlineStyle(q.body), q, Edit(oldText, newText, true), n).value.body)
      {
        CountIn(q.body, NL);
        OneLinersTakeCrLf(false, q.body, oldText, newText);
      }
    }
  }

  // -------------------------------------------------------- byte order mark

  lemma NormalHasNothingNew(t: Text, x: Scalar)
    requires x !in t && x != CR && x != NL
    ensures x !in ToCrLf(t)
  {
    NothingNew(t, [CR, NL], [NL], x);
    NothingNew(Replaced(t, [CR, NL], [NL]), [NL], [CR, NL], x);
  }

  lemma {:induction false} NoMarkComesIn(style: Style, body: Text, edits: seq<Edit>)
    requires BOM !in body && forall i :: 0 <= i < |edits| ==> BOM !in edits[i].newText
    ensures ApplyAll(style, body, edits).Ok? ==> BOM !in ApplyAll(style, body, edits).value.body
  {
    if edits != [] && ApplyAll(style, body, edits).Ok? {
      var last := |edits| - 1;
      NoMarkComesIn(style, body, edits[..last]);
      var p := ApplyAll(style, body, edits[..last]).value;
      NormalHasNothingNew(edits[last].newText, BOM);
      EditReplacesWhatItCounts(style, p, edits[last], last + 1);
      NothingNew(p.body, Ending(style, edits[last].oldText), Ending(style, edits[last].newText), BOM);
    }
  }

  /** The byte order mark is kept; where there was none, none appears unless U+FEFF stood
      elsewhere in the text or in a new text. */
  lemma MarkIsKept(raw: seq<Byte>, edits: seq<Edit>, t: Text, body: Text)
    requires EditedText(raw, edits, t, body)
    ensures MarkOf(t) == [BOM] ==> MarkOf(MarkOf(t) + body) == [BOM] && BodyOf(MarkOf(t) + body) == body
    ensures BOM !in BodyOf(t) && (forall i :: 0 <= i < |edits| ==> BOM !in edits[i].newText) ==>
              MarkOf(MarkOf(t) + body) == MarkOf(t) && BodyOf(MarkOf(t) + body) == body
  {
    if BOM !in BodyOf(t) && (forall i :: 0 <= i < |edits| ==> BOM !in edits[i].newText) {
      NoMarkComesIn(NewlineStyle(BodyOf(t)), BodyOf(t), edits);
    }
  }

  /** A text that is in normal form is its own. */
  lemma {:induction false} NormalIsSame(t: Text)
    requires EveryLfInCrLf(t)
    ensures ToCrLf(t) == t
    decreases |t|
  {
    var bare := Replaced(t, [CR, NL], [NL]);
    if |t| < 2 {
      if t != [] {
        Ahead(NL, t);
        assert t[1..] == [];
        assert Replaced([], [NL], [CR, NL]) == [];
        assert [t[0]] + [] == t;
        assert bare == t;
      }
    } else {
      PairAhead(t);
      if [CR, NL] <= t {
        var tail := t[1..];
        assert tail[1..] == t[2..] && tail[0] == NL;
        assert CrLfFrom(t[0] == CR, tail);
        assert CrLfFrom(tail[0] == CR, tail[1..]);
        NormalIsSame(t[2..]);
        var rest := Replaced(t[2..], [CR, NL], [NL]);
        assert bare == [NL] + rest;
        Ahead(NL, bare);
        assert bare[1..] == rest;
        assert t == [CR, NL] + t[2..];
      } else {
        CrAhead(t);
        NormalIsSame(t[1..]);
        var rest := Replaced(t[1..], [CR, NL], [NL]);
        assert bare == [t[0]] + rest;
        Ahead(NL, bare);
        assert bare[1..] == rest;
        assert t == [t[0]] + t[1..];
      }
    }
  }

  /** The beginning of a file's body stays as it is under the file's style. */
  lemma EndingOfPrefix(t: Text, i: nat)
    requires i <= |t|
    ensures Ending(NewlineStyle(t), t[..i]) == t[..i] && Ending(NewlineStyle(t), []) == []
  {
    StyleIsExact(t);
    if NewlineStyle(t) == CrLfOnly {
      assert t == t[..i] + t[i..];
      CrLfJoins(false, t[..i], t[i..]);
      NormalIsSame(t[..i]);
    }
  }

  lemma SameHead(a: Text, b: Text)
    requires a != [] && b != []
    ensures a <= b ==> a[0] == b[0]
  {
  }

  lemma MarkIsLeftInFront(t: Text, i: nat)
    requires 0 < i < |t| && t[i] == BOM && t[0] != BOM
    ensures Matches(t, t[..i]) >= 1
    ensures Replaced(t, t[..i], []) != [] && Replaced(t, t[..i], [])[0] == BOM
  {
    var part, rest := t[..i], t[i..];
    assert part <= t;
    SameHead(part, rest);
    assert Replaced(t, part, []) == [] + Replaced(rest, part, []);
  }

  /** In every text without a mark, deleting what stands before an inner U+FEFF makes it one. */
  lemma InnerMarkCanMoveToTheFront(t: Text, i: nat, edits: seq<Edit>)
    requires 0 < i < |t| && t[i] == BOM && t[0] != BOM
    requires edits == [Edit(t[..i], [], true)]
    ensures var r := ApplyAll(NewlineStyle(t), t, edits);
            r.Ok? && MarkOf(r.value.body) == [BOM]
  {
    var style := NewlineStyle(t);
    EndingOfPrefix(t, i);
    MarkIsLeftInFront(t, i);
    assert edits[..0] == [];
    assert ApplyAll(style, t, edits) == ApplyEdit(style, Progress(t, 0, []), edits[0], 1);
  }

  /** Do these edits, whose new texts hold no U+FEFF, give the file a byte order mark? */
  ghost predicate Marks(raw: seq<Byte>, edits: seq<Edit>, u: Text) {
    && EditFile(Some(raw), edits).Ok? && EditFile(Some(raw), edits).value.after == Encode(u)
    && (forall i :: 0 <= i < |edits| ==> BOM !in edits[i].newText)
    && MarkOf(u) == [BOM]
  }

  lemma EditedFile(raw: seq<Byte>, t: Text, edits: seq<Edit>)
    requires raw == Encode(t) && MarkOf(t) == [] && edits != [] && !Paging.LooksBinary(raw)
    ensures var r := ApplyAll(NewlineStyle(t), t, edits);
            EditFile(Some(raw), edits) ==
            if r.Err? then Err(r.error) else Ok(EditResult(raw, Encode(r.value.body), r.value.count, r.value.lines))
  {
    DecodeAllExact(raw, t);
    var r := ApplyAll(NewlineStyle(t), t, edits);
    assert r.Ok? ==> [] + r.value.body == r.value.body;
  }

  lemma MarkedByAnEdit(raw: seq<Byte>, t: Text, i: nat) returns (edits: seq<Edit>, u: Text)
    requires raw == Encode(t) && !Paging.LooksBinary(raw) && MarkOf(t) == [] && 0 < i < |t| && t[i] == BOM
    ensures Marks(raw, edits, u)
  {
    edits := [Edit(t[..i], [], true)];
    InnerMarkCanMoveToTheFront(t, i, edits);
    EditedFile(raw, t, edits);
    u := ApplyAll(NewlineStyle(t), t, edits).value.body;
  }

  lemma NotMarkedByEdits(raw: seq<Byte>, t: Text, edits: seq<Edit>, u: Text)
    requires raw == Encode(t) && BOM !in t
    ensures !Marks(raw, edits, u)
  {
    if Marks(raw, edits, u) {
      EditedFile(raw, t, edits);
      NoMarkComesIn(NewlineStyle(t), t, edits);
      EncodeInjective(u, ApplyAll(NewlineStyle(t), t, edits).value.body);
    }
  }

  /** A text file without a byte order mark is safe from getting one, whatever the edits, as
      long as their new texts hold no U+FEFF, exactly when it holds none itself. */
  lemma MarkAppearsExactly(raw: seq<Byte>, t: Text)
    requires raw == Encode(t) && !Paging.LooksBinary(raw) && MarkOf(t) == []
    ensures (exists edits: seq<Edit>, u: Text :: Marks(raw, edits, u)) <==> BOM in t
  {
    if BOM in t {
      var i :| 0 <= i < |t| && t[i] == BOM;
      var edits, u := MarkedByAnEdit(raw, t, i);
    } else {
      forall edits: seq<Edit>, u: Text
        ensures !Marks(raw, edits, u)
      {
        NotMarkedByEdits(raw, t, edits, u);
      }
    }
  }

  /** A file of four bytes: the letter a and U+FEFF. */
  lemma AMarkThatMoves()
    ensures exists edits: seq<Edit>, u: Text :: Marks([97, 0xEF, 0xBB, 0xBF], edits, u)
  {
    var t: Text := [One(97), BOM];
    var raw: seq<Byte> := [97, 0xEF, 0xBB, 0xBF];
    assert t[1..] == [BOM] && [BOM][1..] == [];
    assert Encode([BOM]) == Enc(BOM) + [] == [0xEF, 0xBB, 0xBF];
    assert Encode(t) == [97] + [0xEF, 0xBB, 0xBF] == raw;
    LetterIsNotBinary(raw);
    MarkAppearsExactly(raw, t);
  }

  lemma LetterIsNotBinary(raw: seq<Byte>)
    requires raw == [97, 0xEF, 0xBB, 0xBF]
    ensures !Paging.LooksBinary(raw)
  {
    forall i | 0 <= i < |Paging.SIGNATURES|
      ensures !(Paging.SIGNATURES[i] <= raw)
    {
      assert Paging.SIGNATURES[i][0] != 97;
    }
  }
}
