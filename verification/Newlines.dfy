/** Counting an element of a sequence and cutting after one of its occurrences. */
module Newlines {
  import opened Utf8

  function Count<T(==)>(s: seq<T>, x: T): nat {
    if s == [] then 0 else (if s[0] == x then 1 else 0) + Count(s[1..], x)
  }

  /** Where the part up to and including the `n`-th `x` ends; the whole length if there are fewer. */
  function AfterNth<T(==)>(s: seq<T>, x: T, n: nat): (i: nat)
    ensures i <= |s|
  {
    if n == 0 || s == [] then 0
    else 1 + AfterNth(s[1..], x, if s[0] == x then n - 1 else n)
  }

  /** Where the part up to and including the last `x` ends; 0 if there is none. */
  function AfterLast<T(==)>(s: seq<T>, x: T): (i: nat)
    ensures i <= |s|
    ensures i > 0 ==> s[i - 1] == x
    ensures x !in s[i..]
  {
    if s == [] then 0
    else if s[|s| - 1] == x then |s|
    else AfterLast(s[..|s| - 1], x)
  }

  lemma {:induction false} CountJoins<T>(a: seq<T>, b: seq<T>, x: T)
    ensures Count(a + b, x) == Count(a, x) + Count(b, x)
  {
    if a == [] {
      assert a + b == b;
    } else {
      CountJoins(a[1..], b, x);
      assert (a + b)[1..] == a[1..] + b;
    }
  }

  lemma {:induction false} CountIn<T>(s: seq<T>, x: T)
    ensures Count(s, x) > 0 <==> x in s
    ensures Count(s, x) <= |s|
  {
    if s != [] {
      CountIn(s[1..], x);
    }
  }

  /** The part up to the `n`-th `x` holds `n` of them and ends with one, if there are that many. */
  lemma {:induction false} AfterNthCounts<T>(s: seq<T>, x: T, n: nat)
    ensures var i := AfterNth(s, x, n);
            if n <= Count(s, x) then Count(s[..i], x) == n && (n > 0 ==> i > 0 && s[i - 1] == x)
            else i == |s|
  {
    if n != 0 && s != [] {
      var m := if s[0] == x then n - 1 else n;
      AfterNthCounts(s[1..], x, m);
      var i := AfterNth(s[1..], x, m);
      assert s[..i + 1] == [s[0]] + s[1..][..i];
    }
  }

  /** Looking for the `n`-th `x` piece by piece. */
  lemma {:induction false} AfterNthSkips<T>(a: seq<T>, b: seq<T>, x: T, n: nat)
    ensures AfterNth(a + b, x, n) ==
            if n <= Count(a, x) then AfterNth(a, x, n) else |a| + AfterNth(b, x, n - Count(a, x))
  {
    if a == [] {
      assert a + b == b;
    } else if n > 0 {
      AfterNthSkips(a[1..], b, x, if a[0] == x then n - 1 else n);
      assert (a + b)[1..] == a[1..] + b;
    }
  }

  /** The next `x` from `from` on, as Python's `find` gives it. */
  function Find<T(==)>(s: seq<T>, x: T, from: nat): (i: int)
    requires from <= |s|
    ensures i == -1 ==> x !in s[from..]
    ensures i != -1 ==> from <= i < |s| && s[i] == x && x !in s[from..i]
    decreases |s| - from
  {
    if from == |s| then -1 else if s[from] == x then from else Find(s, x, from + 1)
  }

  lemma NoneBetween<T>(s: seq<T>, x: T, from: nat, to: nat)
    requires from <= to <= |s| && x !in s[from..to]
    ensures Count(s[..to], x) == Count(s[..from], x)
  {
    assert s[..to] == s[..from] + s[from..to];
    CountJoins(s[..from], s[from..to], x);
    CountIn(s[from..to], x);
  }

  lemma AfterNext<T>(a: seq<T>, b: seq<T>, x: T)
    requires b != [] && b[0] == x
    ensures AfterNth(a + b, x, Count(a, x) + 1) == |a| + 1
  {
    AfterNthSkips(a, b, x, Count(a, x) + 1);
  }

  lemma TakeNext<T>(s: seq<T>, to: nat)
    requires to < |s|
    ensures s[..to + 1] == s[..to] + [s[to]] && s == s[..to] + s[to..] && s[to..][0] == s[to]
  {
  }

  lemma FoundNext<T>(s: seq<T>, x: T, from: nat, to: nat)
    requires from <= to < |s| && x !in s[from..to] && s[to] == x
    ensures Count(s[..to + 1], x) == Count(s[..from], x) + 1
    ensures AfterNth(s, x, Count(s[..from], x) + 1) == to + 1
  {
    var a, b := s[..to], s[to..];
    NoneBetween(s, x, from, to);
    TakeNext(s, to);
    CountSnoc(a, x);
    AfterNext(a, b, x);
  }

  lemma CountSnoc<T>(s: seq<T>, x: T)
    ensures Count(s + [x], x) == Count(s, x) + 1
  {
    CountJoins(s, [x], x);
  }

  // ------------------------------------------------- newlines and their bytes

  lemma NewlineByte(c: Scalar)
    ensures c == NL ==> Enc(c) == [10]
    ensures c != NL ==> 10 !in Enc(c)
  {
  }

  lemma EncNewlines(c: Scalar)
    ensures Count(Enc(c), 10) == if c == NL then 1 else 0
    ensures c != NL ==> forall n: nat :: n > 0 ==> AfterNth(Enc(c), 10, n) == |Enc(c)|
  {
    NewlineByte(c);
    CountIn(Enc(c), 10);
    forall n: nat | n > 0 && c != NL
      ensures AfterNth(Enc(c), 10, n) == |Enc(c)|
    {
      AfterNthCounts(Enc(c), 10, n);
    }
  }

  /** The newlines of a text are the bytes 10 of its UTF-8 form. */
  lemma {:induction false} NewlinesOfEncoding(t: Text)
    ensures Count(Encode(t), 10) == Count(t, NL)
  {
    if t != [] {
      EncNewlines(t[0]);
      CountJoins(Enc(t[0]), Encode(t[1..]), 10);
      NewlinesOfEncoding(t[1..]);
    }
  }

  lemma AfterNthOfCons(c: Scalar, bs: seq<Byte>, n: nat)
    requires n > 0
    ensures AfterNth(Enc(c) + bs, 10, n) == |Enc(c)| + AfterNth(bs, 10, if c == NL then n - 1 else n)
  {
    EncNewlines(c);
    AfterNthSkips(Enc(c), bs, 10, n);
    if c == NL {
      assert AfterNth([10], 10, n) == 1;
    }
  }

  /** Cutting the bytes after the `n`-th newline is cutting the text there. */
  lemma {:induction false} AfterNthOfEncoding(t: Text, n: nat)
    ensures AfterNth(Encode(t), 10, n) == |Encode(t[..AfterNth(t, NL, n)])|
  {
    if t != [] && n > 0 {
      var m := if t[0] == NL then n - 1 else n;
      AfterNthOfCons(t[0], Encode(t[1..]), n);
      AfterNthOfEncoding(t[1..], m);
      var i := AfterNth(t[1..], NL, m);
      assert t[..i + 1] == [t[0]] + t[1..][..i];
      EncodeCons(t[0], t[1..][..i]);
    }
  }
}
