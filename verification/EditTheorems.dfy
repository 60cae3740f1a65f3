/** What a list of edits does to a file, position by position (pcbridge/files.py,
    `apply_edits`). */
module EditTheorems {
  import opened Wrappers
  import opened Utf8
  import opened Newlines
  import opened Replacing
  import opened Edits
  import Paging

  // ------------------------------------------------------------ line endings

  /** One CR less before every line feed that has one. */
  function Bare(t: Text): Text {
    Replaced(t, [CR, NL], [NL])
  }

  lemma BarePair(t: Text)
    ensures Bare([CR, NL] + t) == [NL] + Bare(t)
  {
    assert ([CR, NL] + t)[2..] == t;
  }

  lemma BareOther(c: Scalar, t: Text)
    requires c != CR || t == [] || t[0] != NL
    ensures Bare([c] + t) == [c] + Bare(t)
  {
    PairAhead([c] + t);
    assert ([c] + t)[1..] == t;
  }

  /** Putting a CR before every line feed and taking it away again. */
  lemma {:induction false} CrAddedAndTaken(t: Text)
    ensures Bare(Replaced(t, [NL], [CR, NL])) == t
    ensures var r := Replaced(t, [NL], [CR, NL]); r == [] || r[0] != NL
    decreases |t|
  {
    if t != [] {
      CrAddedAndTaken(t[1..]);
      var rest := Replaced(t[1..], [NL], [CR, NL]);
      assert t == [t[0]] + t[1..];
      if t[0] == NL {
        assert [NL] <= t;
        BarePair(rest);
      } else {
        assert !([NL] <= t);
        BareOther(t[0], rest);
      }
    }
  }

  lemma {:induction false} PairsStay(cr: bool, t: Text)
    requires CrLfFrom(cr, t) && (cr ==> t == [] || t[0] != NL)
    ensures Replaced(Bare(t), [NL], [CR, NL]) == t
    decreases |t|
  {
    if |t| >= 2 && [CR, NL] <= t {
      PairAhead(t);
      assert t[1..][1..] == t[2..];
      PairsStay(false, t[2..]);
      assert t == [CR, NL] + t[2..];
      BarePair(t[2..]);
      var b := Bare(t[2..]);
      assert ([NL] + b)[1..] == b && [NL] <= [NL] + b;
    } else if t != [] {
      PairAhead(t);
      PairsStay(t[0] == CR, t[1..]);
      assert t == [t[0]] + t[1..];
      BareOther(t[0], t[1..]);
      var b := Bare(t[1..]);
      assert ([t[0]] + b)[1..] == b && !([NL] <= [t[0]] + b);
    }
  }

  /** The form in which texts are looked for and written in a CRLF file differs only in the CRs
      before line feeds, and a text with CRLF endings is its own form. */
  lemma NormalFormKeepsTheText(t: Text)
    ensures Bare(ToCrLf(t)) == Bare(t)
    ensures EveryLfInCrLf(t) ==> ToCrLf(t) == t
  {
    CrAddedAndTaken(Bare(t));
    if EveryLfInCrLf(t) {
      PairsStay(false, t);
    }
  }

  /** How a text is looked for or written in a file. */
  predicate IsWritten(style: Style, t: Text, r: Text) {
    if style == CrLfOnly then EveryLfInCrLf(r) && Bare(r) == Bare(t) else r == t
  }

  lemma EndingIsWritten(style: Style, t: Text)
    ensures IsWritten(style, t, Ending(style, t))
  {
    NormalForm(t);
    NormalFormKeepsTheText(t);
  }

  // ---------------------------------------------------------------- one edit

  /** The first place where `part` occurs. */
  predicate FirstPlace(s: Text, part: Text, i: nat) {
    OccursAt(s, part, i) && forall j :: 0 <= j < i ==> !OccursAt(s, part, j)
  }

  predicate Occurs(s: Text, part: Text) {
    exists i :: 0 <= i <= |s| && OccursAt(s, part, i)
  }

  /** It occurs again behind that, not overlapping it. */
  predicate OccursBehind(s: Text, part: Text, i: nat) {
    exists j :: i + |part| <= j <= |s| && OccursAt(s, part, j)
  }

  lemma PlaceOfFirst(s: Text, part: Text) returns (i: nat)
    requires part != [] && Matches(s, part) > 0
    ensures i == FirstAt(s, part) && FirstPlace(s, part, i)
  {
    i := FirstAt(s, part);
    FirstIsFirst(s, part, i);
    forall j | 0 <= j < i
      ensures !OccursAt(s, part, j)
    {
      FirstIsFirst(s, part, j);
    }
  }

  lemma MatchesMeansOccurs(s: Text, part: Text)
    requires part != []
    ensures Matches(s, part) > 0 <==> Occurs(s, part)
  {
    if Matches(s, part) > 0 {
      var i := PlaceOfFirst(s, part);
    }
    forall i | 0 <= i <= |s| && OccursAt(s, part, i)
      ensures Matches(s, part) > 0
    {
      FirstIsFirst(s, part, i);
    }
  }

  lemma OccursInRest(s: Text, part: Text, n: nat, j: nat)
    requires n <= |s|
    ensures OccursAt(s[n..], part, j) <==> OccursAt(s, part, n + j)
  {
    if n + j + |part| <= |s| {
      assert s[n..][j..j + |part|] == s[n + j..n + j + |part|];
    }
  }

  lemma OccursInRestIsBehind(s: Text, part: Text, i: nat)
    requires i + |part| <= |s|
    ensures Occurs(s[i + |part|..], part) <==> OccursBehind(s, part, i)
  {
    var n := i + |part|;
    if Occurs(s[n..], part) {
      var j :| 0 <= j <= |s[n..]| && OccursAt(s[n..], part, j);
      OccursInRest(s, part, n, j);
    }
    if OccursBehind(s, part, i) {
      var j :| n <= j <= |s| && OccursAt(s, part, j);
      OccursInRest(s, part, n, j - n);
    }
  }

  lemma FirstIsUnique(s: Text, part: Text, i: nat)
    requires part != [] && FirstPlace(s, part, i)
    ensures FirstAt(s, part) == i && i < |s|
  {
    FirstIsFirst(s, part, i);
  }

  lemma BehindTheFirst(s: Text, part: Text, i: nat)
    requires part != [] && FirstPlace(s, part, i)
    ensures i + |part| <= |s| && Matches(s, part) == 1 + Matches(s[i + |part|..], part)
    ensures Occurs(s[i + |part|..], part) <==> OccursBehind(s, part, i)
  {
    FirstIsUnique(s, part, i);
    PiecesCutAtTheFirst(s, part);
    ReplacedJoinsThePieces(s, part, part);
    ReplacedJoinsThePieces(s[i + |part|..], part, part);
    OccursInRestIsBehind(s, part, i);
  }

  /** Can the edit be made? `i` is the first place of the old text as it is written here. */
  predicate Fits(s: Text, part: Text, all: bool, i: nat) {
    part != [] && FirstPlace(s, part, i) && (all || !OccursBehind(s, part, i))
  }

  /** The text with what stands at `i` replaced. */
  function Spliced(s: Text, i: nat, n: nat, sub: Text): Text
    requires i + n <= |s|
  {
    s[..i] + sub + s[i + n..]
  }

  lemma SplicedLater(s: Text, i: nat, n: nat, sub: Text)
    requires 1 + i + n <= |s|
    ensures [s[0]] + Spliced(s[1..], i, n, sub) == Spliced(s, i + 1, n, sub)
  {
    TailCut(s, i, n);
    var (a, b) := (s[1..][..i], s[1..][i + n..]);
    assert [s[0]] + (a + sub + b) == ([s[0]] + a) + sub + b;
  }

  lemma SplicedFirst(s: Text, n: nat, sub: Text)
    requires n <= |s|
    ensures Spliced(s, 0, n, sub) == sub + s[n..]
  {
  }

  lemma {:induction false} OnceAtFirst(s: Text, part: Text, sub: Text)
    requires part != [] && Matches(s, part) > 0
    ensures FirstAt(s, part) + |part| <= |s|
    ensures ReplacedOnce(s, part, sub) == Spliced(s, FirstAt(s, part), |part|, sub)
    decreases |s|
  {
    if part <= s {
      SplicedFirst(s, |part|, sub);
    } else {
      OnceAtFirst(s[1..], part, sub);
      SplicedLater(s, FirstAt(s[1..], part), |part|, sub);
    }
  }

  /** What an edit does: the new text stands where the old one stood, once or everywhere, and the
      lines it touched run from the line of the first place over the new text. */
  ghost predicate Made(style: Style, before: Progress, e: Edit, after: Progress, part: Text, sub: Text, i: nat) {
    && IsWritten(style, e.oldText, part) && IsWritten(style, e.newText, sub)
    && Fits(before.body, part, e.replaceAll, i)
    && (!e.replaceAll ==>
          after.body == Spliced(before.body, i, |part|, sub) && after.count == before.count + 1)
    && (e.replaceAll ==>
          after.body == Join(Pieces(before.body, part), sub) && after.count == before.count + |Pieces(before.body, part)| - 1)
    && |after.lines| == |before.lines| + 1 && after.lines[..|before.lines|] == before.lines
    && var (first, last) := after.lines[|before.lines|];
       first == 1 + multiset(before.body[..i])[NL] && last == first + multiset(sub)[NL]
  }

  ghost predicate CanBeMade(style: Style, before: Progress, e: Edit, after: Progress) {
    exists part, sub, i: nat :: Made(style, before, e, after, part, sub, i)
  }

  lemma {:induction false} CountIsMultiset(t: Text, c: Scalar)
    ensures Count(t, c) == multiset(t)[c]
  {
    if t != [] {
      CountIsMultiset(t[1..], c);
      assert t == [t[0]] + t[1..];
    }
  }

  lemma EditIsMade(style: Style, p: Progress, e: Edit, n: nat)
    requires ApplyEdit(style, p, e, n).Ok?
    ensures CanBeMade(style, p, e, ApplyEdit(style, p, e, n).value)
  {
    var (part, sub, after) := (Ending(style, e.oldText), Ending(style, e.newText), ApplyEdit(style, p, e, n).value);
    EndingIsWritten(style, e.oldText);
    EndingIsWritten(style, e.newText);
    var i := PlaceOfFirst(p.body, part);
    BehindTheFirst(p.body, part, i);
    MatchesMeansOccurs(p.body[i + |part|..], part);
    OnceAtFirst(p.body, part, sub);
    ReplacedJoinsThePieces(p.body, part, sub);
    CountIsMultiset(p.body[..i], NL);
    CountIsMultiset(sub, NL);
    assert Made(style, p, e, after, part, sub, i);
  }

  /** Why an edit cannot be made: its old text is empty, does not occur, or occurs again where
      only one place is to change. */
  ghost predicate CannotBeMade(style: Style, p: Progress, e: Edit, n: nat, why: Error) {
    var part := Ending(style, e.oldText);
    && (why.EmptyOldText? || why.OldTextNotFound? || why.OldTextAmbiguous?)
    && (why == EmptyOldText(n) <==> e.oldText == [])
    && (why == OldTextNotFound(n) <==> e.oldText != [] && !Occurs(p.body, part))
    && (why.OldTextAmbiguous? <==>
          e.oldText != [] && !e.replaceAll && exists i: nat :: FirstPlace(p.body, part, i) && OccursBehind(p.body, part, i))
    && (why.OldTextAmbiguous? ==> why == OldTextAmbiguous(n, |Pieces(p.body, part)| - 1))
  }

  lemma EditCannotBeMade(style: Style, p: Progress, e: Edit, n: nat)
    requires ApplyEdit(style, p, e, n).Err?
    ensures CannotBeMade(style, p, e, n, ApplyEdit(style, p, e, n).error)
  {
    var part := Ending(style, e.oldText);
    if e.oldText != [] {
      MatchesMeansOccurs(p.body, part);
      ReplacedJoinsThePieces(p.body, part, part);
      forall i: nat | FirstPlace(p.body, part, i)
        ensures OccursBehind(p.body, part, i) <==> Matches(p.body, part) > 1
        ensures Matches(p.body, part) > 0
      {
        BehindTheFirst(p.body, part, i);
        MatchesMeansOccurs(p.body[i + |part|..], part);
      }
      if Matches(p.body, part) > 0 {
        var i := PlaceOfFirst(p.body, part);
      }
    }
  }

  // --------------------------------------------------------------- all edits

  /** The edits made one after the other, each in what the one before left. */
  ghost predicate InTurn(style: Style, body: Text, edits: seq<Edit>, steps: seq<Progress>) {
    && |steps| == |edits| + 1
    && steps[0] == Progress(body, 0, [])
    && (forall k :: 0 <= k < |edits| ==> CanBeMade(style, steps[k], edits[k], steps[k + 1]))
  }

  lemma OneTurnMore(style: Style, body: Text, edits: seq<Edit>, before: seq<Progress>, after: Progress)
    requires edits != [] && InTurn(style, body, edits[..|edits| - 1], before)
    requires CanBeMade(style, before[|edits| - 1], edits[|edits| - 1], after)
    ensures InTurn(style, body, edits, before + [after])
  {
    var steps, last := before + [after], |edits| - 1;
    forall k | 0 <= k < |edits|
      ensures CanBeMade(style, steps[k], edits[k], steps[k + 1])
    {
      if k < last {
        assert edits[..last][k] == edits[k];
        assert CanBeMade(style, before[k], edits[..last][k], before[k + 1]);
      }
    }
  }

  lemma {:induction false} EditsInTurn(style: Style, body: Text, edits: seq<Edit>) returns (steps: seq<Progress>)
    requires ApplyAll(style, body, edits).Ok?
    ensures InTurn(style, body, edits, steps) && steps[|edits|] == ApplyAll(style, body, edits).value
  {
    if edits == [] {
      steps := [Progress(body, 0, [])];
    } else {
      var last := |edits| - 1;
      var before := EditsInTurn(style, body, edits[..last]);
      var after := ApplyAll(style, body, edits).value;
      EditIsMade(style, before[last], edits[last], last + 1);
      steps := before + [after];
      OneTurnMore(style, body, edits, before, after);
    }
  }

  /** The first edit that cannot be made after those before it. */
  ghost predicate StopsAt(style: Style, body: Text, edits: seq<Edit>, k: nat, steps: seq<Progress>, why: Error) {
    k < |edits| && InTurn(style, body, edits[..k], steps) && CannotBeMade(style, steps[k], edits[k], k + 1, why)
  }

  lemma {:induction false} EditsStop(style: Style, body: Text, edits: seq<Edit>) returns (k: nat, steps: seq<Progress>)
    requires ApplyAll(style, body, edits).Err?
    ensures StopsAt(style, body, edits, k, steps, ApplyAll(style, body, edits).error)
  {
    var last := |edits| - 1;
    if ApplyAll(style, body, edits[..last]).Err? {
      k, steps := EditsStop(style, body, edits[..last]);
      assert edits[..last][..k] == edits[..k];
    } else {
      k := last;
      steps := EditsInTurn(style, body, edits[..last]);
      EditCannotBeMade(style, steps[last], edits[last], last + 1);
    }
  }

  /** The file `t`, as text, edited in turn. */
  ghost predicate Comes(raw: seq<Byte>, edits: seq<Edit>, t: Text, steps: seq<Progress>, r: EditResult) {
    && raw == Encode(t) && InTurn(NewlineStyle(BodyOf(t)), BodyOf(t), edits, steps)
    && r == EditResult(raw, Encode(MarkOf(t) + steps[|edits|].body), steps[|edits|].count, steps[|edits|].lines)
  }

  ghost predicate Stops(raw: seq<Byte>, edits: seq<Edit>, t: Text, k: nat, steps: seq<Progress>, why: Error) {
    raw == Encode(t) && StopsAt(NewlineStyle(BodyOf(t)), BodyOf(t), edits, k, steps, why)
  }

  lemma TextOf(raw: seq<Byte>, edits: seq<Edit>) returns (t: Text)
    requires edits != [] && !Paging.LooksBinary(raw) && DecodeAll(raw).Some?
    ensures raw == Encode(t)
    ensures var all := ApplyAll(NewlineStyle(BodyOf(t)), BodyOf(t), edits);
            EditFile(Some(raw), edits) ==
            if all.Err? then Err(all.error)
            else Ok(EditResult(raw, Encode(MarkOf(t) + all.value.body), all.value.count, all.value.lines))
  {
    t := DecodeAll(raw).value;
    DecodeAllExact(raw, t);
  }

  /** The file that comes out is the one the edits make in turn, with its byte order mark; a
      call fails with the reason of the first edit that cannot be made, or because what is there
      is not UTF-8. */
  lemma FileIsEditedInTurn(raw: seq<Byte>, edits: seq<Edit>)
    requires edits != [] && !Paging.LooksBinary(raw)
    ensures var r := EditFile(Some(raw), edits);
            && (r == Err(NotUtf8) <==> forall t :: Encode(t) != raw)
            && (r.Ok? ==> exists t: Text, steps: seq<Progress> :: Comes(raw, edits, t, steps, r.value))
            && (r.Err? && r != Err(NotUtf8) ==> exists t: Text, k: nat, steps: seq<Progress> :: Stops(raw, edits, t, k, steps, r.error))
  {
    forall t
      ensures DecodeAll(raw) == Some(t) <==> raw == Encode(t)
    {
      DecodeAllExact(raw, t);
    }
    if DecodeAll(raw).Some? {
      var t := TextOf(raw, edits);
      var style, body := NewlineStyle(BodyOf(t)), BodyOf(t);
      if ApplyAll(style, body, edits).Ok? {
        var steps := EditsInTurn(style, body, edits);
        assert Comes(raw, edits, t, steps, EditFile(Some(raw), edits).value);
      } else {
        var k, steps := EditsStop(style, body, edits);
        assert Stops(raw, edits, t, k, steps, EditFile(Some(raw), edits).error);
      }
    }
  }
}
