/** Finding and replacing a part of a sequence from left to right, without overlaps. */
module Replacing {
  /** How often `part` is found. */
  function Matches<T(==)>(s: seq<T>, part: seq<T>): nat
    requires part != []
  {
    if |s| < |part| then 0
    else if part <= s then 1 + Matches(s[|part|..], part)
    else Matches(s[1..], part)
  }

  /** Where `part` is found first; the whole length if it is not. */
  function FirstAt<T(==)>(s: seq<T>, part: seq<T>): (i: nat)
    requires part != []
    ensures i <= |s|
  {
    if |s| < |part| then |s|
    else if part <= s then 0
    else 1 + FirstAt(s[1..], part)
  }

  function Replaced<T(==)>(s: seq<T>, part: seq<T>, sub: seq<T>): seq<T>
    requires part != []
  {
    if |s| < |part| then s
    else if part <= s then sub + Replaced(s[|part|..], part, sub)
    else [s[0]] + Replaced(s[1..], part, sub)
  }

  /** Only the first one. */
  function ReplacedOnce<T(==)>(s: seq<T>, part: seq<T>, sub: seq<T>): seq<T>
    requires part != []
  {
    if |s| < |part| then s
    else if part <= s then sub + s[|part|..]
    else [s[0]] + ReplacedOnce(s[1..], part, sub)
  }

  // ---------------------------------------------------- what replacing means

  /** The parts between the matches. */
  function Pieces<T(==)>(s: seq<T>, part: seq<T>): (ps: seq<seq<T>>)
    requires part != []
    ensures |ps| >= 1
  {
    if |s| < |part| then [s]
    else if part <= s then [[]] + Pieces(s[|part|..], part)
    else Prefixed(s[0], Pieces(s[1..], part))
  }

  function Prefixed<T>(x: T, ps: seq<seq<T>>): (r: seq<seq<T>>)
    requires |ps| >= 1
    ensures |r| == |ps|
  {
    [[x] + ps[0]] + ps[1..]
  }

  function Join<T>(ps: seq<seq<T>>, glue: seq<T>): seq<T> {
    if ps == [] then [] else if |ps| == 1 then ps[0] else ps[0] + glue + Join(ps[1..], glue)
  }

  lemma JoinPrefixed<T>(x: T, ps: seq<seq<T>>, glue: seq<T>)
    requires |ps| >= 1
    ensures Join(Prefixed(x, ps), glue) == [x] + Join(ps, glue)
  {
    var more := Prefixed(x, ps);
    assert more[1..] == ps[1..];
    if |ps| > 1 {
      var rest := glue + Join(ps[1..], glue);
      assert Join(more, glue) == ([x] + ps[0]) + glue + Join(ps[1..], glue);
      assert ([x] + ps[0]) + glue + Join(ps[1..], glue) == [x] + (ps[0] + glue + Join(ps[1..], glue));
    }
  }

  lemma JoinAfterMatch<T>(ps: seq<seq<T>>, glue: seq<T>)
    requires |ps| >= 1
    ensures Join([[]] + ps, glue) == glue + Join(ps, glue)
  {
    assert ([[]] + ps)[1..] == ps;
    assert [] + glue == glue;
  }

  /** Replacing puts `sub` where `part` stood between the same pieces, as often as it is found. */
  lemma {:induction false} ReplacedJoinsThePieces<T>(s: seq<T>, part: seq<T>, sub: seq<T>)
    requires part != []
    ensures Join(Pieces(s, part), part) == s
    ensures Join(Pieces(s, part), sub) == Replaced(s, part, sub)
    ensures |Pieces(s, part)| == Matches(s, part) + 1
    decreases |s|
  {
    if |s| < |part| {
    } else if part <= s {
      ReplacedJoinsThePieces(s[|part|..], part, sub);
      JoinAfterMatch(Pieces(s[|part|..], part), part);
      JoinAfterMatch(Pieces(s[|part|..], part), sub);
      assert part + s[|part|..] == s;
    } else {
      ReplacedJoinsThePieces(s[1..], part, sub);
      JoinPrefixed(s[0], Pieces(s[1..], part), part);
      JoinPrefixed(s[0], Pieces(s[1..], part), sub);
      assert [s[0]] + s[1..] == s;
    }
  }

  /** `part` occurs in `s` at `i`. */
  predicate OccursAt<T(==)>(s: seq<T>, part: seq<T>, i: int) {
    0 <= i <= |s| - |part| && s[i..i + |part|] == part
  }

  lemma OccursLater<T>(s: seq<T>, part: seq<T>, i: int)
    requires s != [] && i >= 1
    ensures OccursAt(s, part, i) <==> OccursAt(s[1..], part, i - 1)
  {
    if 1 <= i <= |s| - |part| {
      assert s[1..][i - 1..i - 1 + |part|] == s[i..i + |part|];
    }
  }

  /** `FirstAt` is the first occurrence. */
  lemma {:induction false} FirstIsFirst<T>(s: seq<T>, part: seq<T>, i: int)
    requires part != []
    ensures FirstAt(s, part) < |s| <==> Matches(s, part) > 0
    ensures FirstAt(s, part) < |s| ==> OccursAt(s, part, FirstAt(s, part))
    ensures OccursAt(s, part, i) ==> FirstAt(s, part) <= i
    decreases |s|
  {
    if |s| < |part| {
    } else if part <= s {
      assert s[0..|part|] == part;
    } else {
      FirstIsFirst(s[1..], part, i - 1);
      OccursLater(s, part, FirstAt(s, part));
      if i >= 1 {
        OccursLater(s, part, i);
      }
      assert OccursAt(s, part, 0) ==> s[..|part|] == part;
    }
  }

  /** With a single match, replacing once and replacing all are the same. */
  lemma {:induction false} OnceIsAll<T>(s: seq<T>, part: seq<T>, sub: seq<T>)
    requires part != [] && Matches(s, part) <= 1
    ensures ReplacedOnce(s, part, sub) == Replaced(s, part, sub)
    decreases |s|
  {
    if |s| < |part| {
    } else if part <= s {
      NoneIsSame(s[|part|..], part, sub);
    } else {
      OnceIsAll(s[1..], part, sub);
    }
  }

  lemma {:induction false} NoneIsSame<T>(s: seq<T>, part: seq<T>, sub: seq<T>)
    requires part != [] && Matches(s, part) == 0
    ensures Replaced(s, part, sub) == s
    decreases |s|
  {
    if |s| >= |part| {
      NoneIsSame(s[1..], part, sub);
      assert [s[0]] + s[1..] == s;
    }
  }

  lemma PrefixedFirst<T>(x: T, p: seq<T>, ps: seq<seq<T>>)
    ensures Prefixed(x, [p] + ps) == [[x] + p] + ps
  {
    assert ([p] + ps)[1..] == ps;
  }

  lemma TailCut<T>(s: seq<T>, i: nat, n: nat)
    requires 1 + i + n <= |s|
    ensures [s[0]] + s[1..][..i] == s[..i + 1]
    ensures s[1..][i + n..] == s[i + 1 + n..]
  {
  }

  /** The text is cut at the first match, and what follows that match in the same way. */
  lemma {:induction false} PiecesCutAtTheFirst<T>(s: seq<T>, part: seq<T>)
    requires part != []
    ensures FirstAt(s, part) < |s| ==> FirstAt(s, part) + |part| <= |s|
    ensures Pieces(s, part) ==
            (if FirstAt(s, part) < |s| then [s[..FirstAt(s, part)]] + Pieces(s[FirstAt(s, part) + |part|..], part) else [s])
    decreases |s|
  {
    if |s| < |part| {
    } else if part <= s {
    } else {
      PiecesCutAtTheFirst(s[1..], part);
      var i := FirstAt(s[1..], part);
      assert [s[0]] + s[1..] == s;
      if i < |s| - 1 {
        TailCut(s, i, |part|);
        PrefixedFirst(s[0], s[1..][..i], Pieces(s[1..][i + |part|..], part));
      }
    }
  }

  lemma OneMore(m: nat, d: int)
    ensures (1 + m) * d == d + m * d
  {
  }

  /** Every match changes the length by as much as the parts differ. */
  lemma {:induction false} ReplacedLength<T>(s: seq<T>, part: seq<T>, sub: seq<T>)
    requires part != []
    ensures |Replaced(s, part, sub)| == |s| + Matches(s, part) * (|sub| - |part|)
    decreases |s|
  {
    if |s| < |part| {
      assert Matches(s, part) == 0;
    } else if part <= s {
      var rest := s[|part|..];
      ReplacedLength(rest, part, sub);
      OneMore(Matches(rest, part), |sub| - |part|);
    } else {
      ReplacedLength(s[1..], part, sub);
    }
  }

  /** What neither the text nor the replacement has, the result does not have. */
  lemma {:induction false} NothingNew<T>(s: seq<T>, part: seq<T>, sub: seq<T>, x: T)
    requires part != [] && x !in s && x !in sub
    ensures x !in Replaced(s, part, sub)
    decreases |s|
  {
    if |s| < |part| {
    } else if part <= s {
      NothingNew(s[|part|..], part, sub, x);
    } else {
      NothingNew(s[1..], part, sub, x);
    }
  }

  lemma {:induction false} LastStays<T>(s: seq<T>, part: seq<T>, sub: seq<T>)
    requires part != [] && sub != [] && part[|part| - 1] == sub[|sub| - 1]
    ensures s == [] <==> Replaced(s, part, sub) == []
    ensures s != [] ==> Replaced(s, part, sub)[|Replaced(s, part, sub)| - 1] == s[|s| - 1]
    decreases |s|
  {
    if |s| < |part| {
    } else if part <= s {
      LastStays(s[|part|..], part, sub);
      if s[|part|..] == [] {
        assert s == part;
      }
    } else {
      LastStays(s[1..], part, sub);
    }
  }
}
