/** The bounded map of per-session values (pcbridge/sessionctx.py, `PerSession`), against a map
    that forgets nothing, cut to its most recently used keys. */
module PerSessionCache {
  import opened Wrappers

  /** Keys in the order of their last use, the latest last, and their values. */
  datatype Cache<V> = Cache(order: seq<string>, data: map<string, V>)

  datatype Event<V> =
    | Get(key: string)
    | Set(key: string, value: V)
    | SetDefault(key: string, value: V)
    | Pop(key: string)

  function Remove(s: seq<string>, k: string): seq<string> {
    if s == [] then [] else if s[0] == k then Remove(s[1..], k) else [s[0]] + Remove(s[1..], k)
  }

  function Touch(s: seq<string>, k: string): seq<string> {
    Remove(s, k) + [k]
  }

  /** The last `n` keys. */
  function Last(s: seq<string>, n: nat): seq<string> {
    if |s| <= n then s else s[|s| - n..]
  }

  function Only<V>(data: map<string, V>, keys: seq<string>): map<string, V> {
    map k | k in data && k in keys :: data[k]
  }

  predicate Distinct(s: seq<string>) {
    forall i, j :: 0 <= i < j < |s| ==> s[i] != s[j]
  }

  ghost predicate Valid<V>(c: Cache<V>) {
    Distinct(c.order) && forall k :: k in c.order <==> k in c.data
  }

  /** The `limit` most recently used keys. */
  function Cut<V>(c: Cache<V>, limit: nat): Cache<V> {
    Cache(Last(c.order, limit), Only(c.data, Last(c.order, limit)))
  }

  // ------------------------------------------------------- the bounded map

  function Step<V>(c: Cache<V>, limit: nat, e: Event<V>): (Cache<V>, Option<V>) {
    match e
    case Get(k) => if k in c.data then (Cache(Touch(c.order, k), c.data), Some(c.data[k])) else (c, None)
    case Set(k, v) => (Cut(Cache(Touch(c.order, k), c.data[k := v]), limit), None)
    case SetDefault(k, v) =>
      if k in c.data then (Cache(Touch(c.order, k), c.data), Some(c.data[k]))
      else (Cut(Cache(Touch(c.order, k), c.data[k := v]), limit), if limit == 0 then None else Some(v))
    case Pop(k) =>
      if k in c.data then (Cache(Remove(c.order, k), c.data - {k}), Some(c.data[k])) else (c, None)
  }

  // ---------------------------------------------------------- the reference

  predicate Visible<V>(u: Cache<V>, limit: nat, k: string) {
    k in Last(u.order, limit) && k in u.data
  }

  /** Nothing is ever forgotten but by `pop`; only visible keys are found. */
  function Reference<V>(u: Cache<V>, limit: nat, e: Event<V>): (Cache<V>, Option<V>) {
    match e
    case Get(k) => if Visible(u, limit, k) then (Cache(Touch(u.order, k), u.data), Some(u.data[k])) else (u, None)
    case Set(k, v) => (Cache(Touch(u.order, k), u.data[k := v]), None)
    case SetDefault(k, v) =>
      if Visible(u, limit, k) then (Cache(Touch(u.order, k), u.data), Some(u.data[k]))
      else (Cache(Touch(u.order, k), u.data[k := v]), Some(v))
    case Pop(k) =>
      if Visible(u, limit, k) then (Cache(Remove(u.order, k), u.data - {k}), Some(u.data[k])) else (u, None)
  }

  // ------------------------------------------------------------ sequences

  lemma JoinsOne(x: string, a: seq<string>, b: seq<string>)
    ensures [x] + (a + b) == ([x] + a) + b
  {
  }

  lemma {:induction false} RemoveJoins(a: seq<string>, b: seq<string>, k: string)
    ensures Remove(a + b, k) == Remove(a, k) + Remove(b, k)
  {
    if a == [] {
      assert a + b == b;
    } else {
      RemoveJoins(a[1..], b, k);
      assert (a + b)[1..] == a[1..] + b;
      if a[0] != k {
        JoinsOne(a[0], Remove(a[1..], k), Remove(b, k));
      }
    }
  }

  lemma {:induction false} RemoveAbsent(s: seq<string>, k: string)
    requires k !in s
    ensures Remove(s, k) == s
  {
    if s != [] {
      RemoveAbsent(s[1..], k);
      assert [s[0]] + s[1..] == s;
    }
  }

  lemma {:induction false} Removed(s: seq<string>, k: string)
    requires Distinct(s)
    ensures Distinct(Remove(s, k)) && |Remove(s, k)| == |s| - (if k in s then 1 else 0)
    ensures forall x :: x in Remove(s, k) <==> x in s && x != k
  {
    if s != [] {
      assert Distinct(s[1..]);
      Removed(s[1..], k);
      var rest := Remove(s[1..], k);
      assert s[0] !in s[1..] && s[0] !in rest;
      assert forall i :: 1 <= i < |[s[0]] + rest| ==> ([s[0]] + rest)[i] == rest[i - 1];
    }
  }

  lemma LastParts(s: seq<string>, n: nat)
    ensures s == s[..|s| - |Last(s, n)|] + Last(s, n)
    ensures Distinct(s) ==> Distinct(Last(s, n)) && forall k :: k in Last(s, n) ==> k !in s[..|s| - |Last(s, n)|]
  {
  }

  lemma LastOfJoin(a: seq<string>, b: seq<string>, n: nat)
    ensures |b| == n ==> Last(a + b, n) == b
    ensures a == [] ==> Last(a + b, n) == Last(b, n)
  {
    if a == [] {
      assert a + b == b;
    }
  }

  /** Using a visible key and cutting commute. */
  lemma TouchVisible(s: seq<string>, n: nat, k: string)
    requires Distinct(s) && k in Last(s, n)
    ensures Last(Touch(s, k), n) == Touch(Last(s, n), k)
  {
    var t := Last(s, n);
    var front := s[..|s| - |t|];
    LastParts(s, n);
    RemoveJoins(front, t, k);
    RemoveAbsent(front, k);
    Removed(t, k);
    assert Touch(s, k) == front + Touch(t, k);
    LastOfJoin(front, Touch(t, k), n);
  }

  /** Using another key pushes out the least recently used visible one when the map is full. */
  lemma TouchHidden(s: seq<string>, n: nat, k: string)
    requires Distinct(s) && k !in Last(s, n) && n >= 1
    ensures Last(Touch(s, k), n) == Last(Touch(Last(s, n), k), n)
  {
    var t := Last(s, n);
    var front := s[..|s| - |t|];
    LastParts(s, n);
    RemoveJoins(front, t, k);
    RemoveAbsent(t, k);
    var before := Remove(front, k);
    assert Touch(s, k) == before + (t + [k]);
    if |t| == n {
      assert Last(before + (t + [k]), n) == (t + [k])[1..];
    } else {
      assert before == [];
      assert before + (t + [k]) == t + [k];
    }
  }

  lemma OnlyLast<V>(u: Cache<V>, n: nat)
    requires Valid(u)
    ensures Valid(Cut(u, n))
  {
    LastParts(u.order, n);
  }

  lemma {:induction false} TouchIsValid<V>(c: Cache<V>, k: string, v: V)
    requires Valid(c)
    ensures Valid(Cache(Touch(c.order, k), c.data[k := v]))
    ensures Valid(Cache(Remove(c.order, k), c.data - {k}))
  {
    Removed(c.order, k);
  }

  lemma TouchSame<V>(c: Cache<V>, k: string)
    requires Valid(c) && k in c.data
    ensures Valid(Cache(Touch(c.order, k), c.data))
  {
    TouchIsValid(c, k, c.data[k]);
    assert c.data[k := c.data[k]] == c.data;
  }

  // --------------------------------------------------------------- refinement

  /** `pop` takes away a key while the reference holds more than the map can. */
  predicate UncoversOlder<V>(u: Cache<V>, limit: nat, e: Event<V>) {
    e.Pop? && Visible(u, limit, e.key) && |u.order| > limit
  }

  lemma UseVisible<V>(u: Cache<V>, limit: nat, k: string)
    requires Valid(u) && Visible(u, limit, k)
    ensures Cache(Touch(Cut(u, limit).order, k), Cut(u, limit).data) == Cut(Cache(Touch(u.order, k), u.data), limit)
  {
    LastParts(u.order, limit);
    TouchVisible(u.order, limit, k);
    Removed(Last(u.order, limit), k);
  }

  lemma LastIn(s: seq<string>, n: nat, x: string)
    requires x in Last(s, n)
    ensures x in s
  {
  }

  lemma WriteOrder(s: seq<string>, limit: nat, k: string)
    requires Distinct(s) && limit >= 1
    ensures Last(Touch(Last(s, limit), k), limit) == Last(Touch(s, k), limit)
  {
    var t := Last(s, limit);
    if k in t {
      LastIsDistinct(s, limit);
      Removed(t, k);
      TouchVisible(s, limit, k);
      assert |Touch(t, k)| == |t| <= limit;
    } else {
      TouchHidden(s, limit, k);
    }
  }

  lemma LastIsDistinct(s: seq<string>, n: nat)
    requires Distinct(s)
    ensures Distinct(Last(s, n))
  {
  }

  lemma WriteIn(s: seq<string>, limit: nat, k: string, x: string)
    requires Distinct(s) && x in Last(Touch(s, k), limit)
    ensures x == k || x in s
  {
    LastIn(Touch(s, k), limit, x);
    Removed(s, k);
  }

  lemma OnlyWrite<V>(data: map<string, V>, t: seq<string>, order: seq<string>, k: string, v: V)
    requires forall x :: x in order ==> x == k || x in t
    ensures Only(Only(data, t)[k := v], order) == Only(data[k := v], order)
  {
  }

  lemma WriteKey<V>(u: Cache<V>, limit: nat, k: string, v: V)
    requires Valid(u) && limit >= 1
    ensures Cut(Cache(Touch(Cut(u, limit).order, k), Cut(u, limit).data[k := v]), limit) == Cut(Cache(Touch(u.order, k), u.data[k := v]), limit)
  {
    var t := Last(u.order, limit);
    WriteOrder(u.order, limit, k);
    LastIsDistinct(u.order, limit);
    forall x | x in Last(Touch(t, k), limit)
      ensures x == k || x in t
    {
      WriteIn(t, limit, k, x);
    }
    OnlyWrite(u.data, Last(u.order, limit), Last(Touch(u.order, k), limit), k, v);
  }

  lemma PopVisible<V>(u: Cache<V>, limit: nat, k: string)
    requires Valid(u) && Visible(u, limit, k)
    ensures Cache(Remove(Cut(u, limit).order, k), Cut(u, limit).data - {k}) == Cut(Cache(Remove(u.order, k), u.data - {k}), limit)
            <==> |u.order| <= limit
  {
    LastParts(u.order, limit);
    Removed(u.order, k);
    Removed(Last(u.order, limit), k);
    if |u.order| <= limit {
      assert Only(u.data, u.order) == u.data;
      assert Only(u.data - {k}, Remove(u.order, k)) == u.data - {k};
    }
  }

  /** One operation on the bounded map is one on the reference, cut to its most recently used
      keys, with the same result. The one exception is a `pop` while the reference holds older
      keys: the reference would uncover one of them, the bounded map has forgotten it. */
  lemma StepRefines<V>(u: Cache<V>, limit: nat, e: Event<V>)
    requires Valid(u) && limit >= 1
    ensures Step(Cut(u, limit), limit, e).1 == Reference(u, limit, e).1
    ensures Step(Cut(u, limit), limit, e).0 == Cut(Reference(u, limit, e).0, limit) <==> !UncoversOlder(u, limit, e)
    ensures Valid(Reference(u, limit, e).0)
  {
    LastParts(u.order, limit);
    match e
    case Get(k) =>
      if Visible(u, limit, k) {
        UseVisible(u, limit, k);
        TouchSame(u, k);
      }
    case Set(k, v) =>
      WriteKey(u, limit, k, v);
      TouchIsValid(u, k, v);
    case SetDefault(k, v) =>
      if Visible(u, limit, k) {
        UseVisible(u, limit, k);
        TouchSame(u, k);
      } else {
        WriteKey(u, limit, k, v);
        TouchIsValid(u, k, v);
      }
    case Pop(k) =>
      if Visible(u, limit, k) {
        PopVisible(u, limit, k);
        TouchIsValid(u, k, u.data[k]);
      }
  }

  function Empty<V>(): Cache<V> {
    Cache([], map[])
  }

  function Exec<V>(limit: nat, es: seq<Event<V>>): Cache<V> {
    if es == [] then Empty() else Step(Exec(limit, es[..|es| - 1]), limit, es[|es| - 1]).0
  }

  function ReferenceExec<V>(limit: nat, es: seq<Event<V>>): Cache<V> {
    if es == [] then Empty() else Reference(ReferenceExec(limit, es[..|es| - 1]), limit, es[|es| - 1]).0
  }

  ghost predicate Covered<V>(limit: nat, es: seq<Event<V>>) {
    es == [] || (Covered(limit, es[..|es| - 1]) && !UncoversOlder(ReferenceExec(limit, es[..|es| - 1]), limit, es[|es| - 1]))
  }

  /** Over a whole run the bounded map is the reference cut to its most recently used keys. */
  lemma {:induction false} RunRefines<V>(limit: nat, es: seq<Event<V>>)
    requires limit >= 1 && Covered(limit, es)
    ensures Exec(limit, es) == Cut(ReferenceExec(limit, es), limit) && Valid(ReferenceExec(limit, es))
  {
    if es != [] {
      RunRefines(limit, es[..|es| - 1]);
      StepRefines(ReferenceExec(limit, es[..|es| - 1]), limit, es[|es| - 1]);
    }
  }

  /** A run that ends in such a `pop`: two keys in a map of one, and the newer one popped. The
      bounded map is empty then, while the reference uncovers the older key. */
  lemma PopUncoversAForgottenKey<V>(a: string, b: string, v: V)
    requires a != b
    ensures var es := [Set(a, v), Set(b, v), Pop(b)];
            && Exec(1, es) == Empty() && Cut(ReferenceExec(1, es), 1) == Cache([a], map[a := v])
            && !Covered(1, es)
  {
    var es := [Set(a, v), Set(b, v), Pop(b)];
    var two, one := es[..2], es[..1];
    assert es[..|es| - 1] == two && two == [Set(a, v), Set(b, v)];
    assert two[..|two| - 1] == one && one == [Set(a, v)];
    assert one[..|one| - 1] == [];
    var empty: Cache<V> := Empty();
    assert Exec(1, one) == ReferenceExec(1, one) == Cache([a], map[a := v]) by {
      assert Touch([], a) == [a];
      assert Only(map[a := v], [a]) == map[a := v];
    }
    TwoKeys(a, b, v);
  }

  lemma TwoKeys<V>(a: string, b: string, v: V)
    requires a != b
    ensures var one := Cache([a], map[a := v]);
            var both := Cache([a, b], map[a := v, b := v]);
            && Step(one, 1, Set(b, v)).0 == Cache([b], map[b := v])
            && Reference(one, 1, Set(b, v)).0 == both
            && Step(Cache([b], map[b := v]), 1, Pop(b)).0 == Empty()
            && Reference(both, 1, Pop(b)).0 == one && Cut(one, 1) == one
            && UncoversOlder(both, 1, Pop(b))
  {
    RemoveAbsent([a], b);
    assert Touch([a], b) == [a, b];
    assert Last([a, b], 1) == [b];
    assert Only(map[a := v, b := v], [b]) == map[b := v];
    assert [b][1..] == [] && Remove([b], b) == [];
    assert [a, b][1..] == [b];
    assert Remove([a, b], b) == [a] + Remove([b], b) == [a];
    assert map[b := v] - {b} == map[];
    assert map[a := v, b := v] - {b} == map[a := v];
    assert Only(map[a := v], [a]) == map[a := v];
  }

  /** In every run, pops or not, the map stays within its limit and in order of use. */
  lemma {:induction false} SizeStaysWithinTheLimit<V>(limit: nat, es: seq<Event<V>>)
    ensures Valid(Exec(limit, es)) && |Exec(limit, es).order| <= limit
  {
    if es != [] {
      var c := Exec(limit, es[..|es| - 1]);
      SizeStaysWithinTheLimit(limit, es[..|es| - 1]);
      match es[|es| - 1]
      case Get(k) =>
        if k in c.data { TouchSame(c, k); Removed(c.order, k); }
      case Set(k, v) =>
        TouchIsValid(c, k, v);
        OnlyLast(Cache(Touch(c.order, k), c.data[k := v]), limit);
      case SetDefault(k, v) =>
        TouchIsValid(c, k, v);
        if k in c.data { TouchSame(c, k); Removed(c.order, k); }
        OnlyLast(Cache(Touch(c.order, k), c.data[k := v]), limit);
      case Pop(k) =>
        if k in c.data { TouchIsValid(c, k, c.data[k]); Removed(c.order, k); }
    }
  }

  lemma TouchOrder(s: seq<string>, limit: nat, k: string)
    requires Distinct(s) && |s| <= limit && limit >= 1
    ensures var after := Last(Touch(s, k), limit);
            && after != [] && after[|after| - 1] == k
            && (k !in s && |s| == limit ==> after == s[1..] + [k])
            && (k in s || |s| < limit ==> after == Touch(s, k))
            && (forall x :: x in after && x != k ==> x in s)
  {
    Removed(s, k);
    if k !in s {
      RemoveAbsent(s, k);
      if |s| == limit {
        assert Last(s + [k], limit) == s[1..] + [k];
      }
    }
  }

  lemma SetIs<V>(c: Cache<V>, limit: nat, k: string, v: V)
    ensures var order := Last(Touch(c.order, k), limit);
            Step(c, limit, Set(k, v)).0 == Cache(order, Only(c.data[k := v], order))
    ensures limit >= 1 && k !in c.data ==> Step(c, limit, SetDefault(k, v)) == (Step(c, limit, Set(k, v)).0, Some(v))
    ensures k in c.data ==> Step(c, limit, SetDefault(k, v)) == (Cache(Touch(c.order, k), c.data), Some(c.data[k]))
  {
  }

  /** Only a new key in a full map drops one, whether it is set or set by default, and that is
      the least recently used one; the key just written is there, with its value. */
  lemma LeastRecentlyUsedGoes<V>(c: Cache<V>, limit: nat, k: string, v: V)
    requires Valid(c) && |c.order| <= limit && limit >= 1
    ensures var after := Step(c, limit, Set(k, v)).0;
            && k in after.data && after.data[k] == v && after.order[|after.order| - 1] == k
            && (k !in c.data && |c.order| == limit ==> after.order == c.order[1..] + [k])
            && (k in c.data || |c.order| < limit ==> after.order == Touch(c.order, k))
            && (forall x :: x in after.order && x != k ==> x in c.data && x in after.data && after.data[x] == c.data[x])
    ensures k !in c.data ==> Step(c, limit, SetDefault(k, v)) == (Step(c, limit, Set(k, v)).0, Some(v))
    ensures k in c.data ==> Step(c, limit, SetDefault(k, v)) == (Cache(Touch(c.order, k), c.data), Some(c.data[k]))
  {
    TouchOrder(c.order, limit, k);
    SetIs(c, limit, k, v);
    assert k in Last(Touch(c.order, k), limit);
  }

  // ---------------------------------------------------- told from the events

  /** The value last written for a key, as the answers tell it: a default counts when it was
      taken, and a key that was popped has none. */
  function LastValue<V>(limit: nat, es: seq<Event<V>>, k: string): Option<V> {
    if es == [] then None
    else
      var (e, before) := (es[|es| - 1], LastValue(limit, es[..|es| - 1], k));
      if e.key != k then before
      else match e
        case Get(_) => before
        case Set(_, v) => Some(v)
        case SetDefault(_, v) => Step(Exec(limit, es[..|es| - 1]), limit, e).1
        case Pop(_) => None
  }

  /** What is in the map is the value last written. */
  lemma {:induction false} KeptValuesAreTheLast<V>(limit: nat, es: seq<Event<V>>, k: string)
    requires limit >= 1
    ensures k in Exec(limit, es).data ==> LastValue(limit, es, k) == Some(Exec(limit, es).data[k])
  {
    if es != [] {
      KeptValuesAreTheLast(limit, es[..|es| - 1], k);
    }
  }

  /** The answers: the value last written if the key is still there; a new default is taken, and
      popping a key removes it and no other. */
  lemma AnswersAreTheLastValues<V>(limit: nat, es: seq<Event<V>>, k: string, v: V)
    requires limit >= 1
    ensures var c := Exec(limit, es);
            var there := if k in c.data then LastValue(limit, es, k) else None;
            && Step(c, limit, Get(k)).1 == there && Step(c, limit, Get(k)).0.data == c.data
            && Step(c, limit, SetDefault(k, v)).1 == (if k in c.data then there else Some(v))
            && Step(c, limit, Pop(k)).1 == there && k !in Step(c, limit, Pop(k)).0.data
            && (forall x :: x != k ==> (x in Step(c, limit, Pop(k)).0.data <==> x in c.data))
  {
    KeptValuesAreTheLast(limit, es, k);
  }

  /** The other keys used since. */
  function Others<V>(es: seq<Event<V>>, k: string): set<string> {
    if es == [] then {} else Others(es[..|es| - 1], k) + ({es[|es| - 1].key} - {k})
  }

  predicate NotPopped<V>(es: seq<Event<V>>, k: string) {
    forall i :: 0 <= i < |es| ==> !(es[i].Pop? && es[i].key == k)
  }

  /** `k` is in the map, and behind it in the order of use are only keys of `since`. */
  ghost predicate BehindIt<V>(c: Cache<V>, k: string, before: seq<string>, after: seq<string>, since: set<string>) {
    c.order == before + [k] + after && (forall x :: x in after ==> x in since)
  }

  lemma {:induction false} DistinctSize(s: seq<string>, of: set<string>)
    requires Distinct(s) && forall x :: x in s ==> x in of
    ensures |s| <= |of|
  {
    if s != [] {
      assert forall i, j :: 0 <= i < j < |s[1..]| ==> s[1..][i] == s[i + 1] && s[1..][j] == s[j + 1];
      DistinctSize(s[1..], of - {s[0]});
    }
  }

  lemma RemoveAround(before: seq<string>, k: string, after: seq<string>, x: string)
    requires x != k
    ensures Remove(before + [k] + after, x) == Remove(before, x) + [k] + Remove(after, x)
  {
    RemoveJoins(before + [k], after, x);
    RemoveJoins(before, [k], x);
    assert [k][1..] == [] && Remove([k], x) == [k];
  }

  lemma LastKeeps(before: seq<string>, k: string, after: seq<string>, n: nat) returns (rest: seq<string>)
    requires |after| < n
    ensures Last(before + [k] + after, n) == rest + [k] + after
  {
    var s := before + [k] + after;
    var cut := if |s| <= n then 0 else |s| - n;
    rest := before[cut..];
    assert before == before[..cut] + rest;
    assert Last(s, n) == s[cut..];
  }

  lemma TouchAround(before: seq<string>, k: string, after: seq<string>, x: string, since: set<string>)
    returns (left: seq<string>, right: seq<string>)
    requires Distinct(before + [k] + after) && forall y :: y in after ==> y in since
    ensures Touch(before + [k] + after, x) == left + [k] + right
    ensures forall y :: y in right ==> y in since + ({x} - {k})
    ensures Distinct(right)
  {
    var s := before + [k] + after;
    Removed(s, x);
    assert forall i :: 0 <= i < |after| ==> s[|before| + 1 + i] == after[i];
    assert Distinct(after);
    if x == k {
      left, right := Remove(s, x), [];
      assert left + [k] + [] == left + [k];
    } else {
      RemoveAround(before, k, after, x);
      Removed(after, x);
      left, right := Remove(before, x), Remove(after, x) + [x];
      assert left + [k] + right == (left + [k] + Remove(after, x)) + [x];
    }
  }

  lemma StepKeepsBehind<V>(c: Cache<V>, limit: nat, e: Event<V>, k: string, before: seq<string>, after: seq<string>, since: set<string>)
    returns (left: seq<string>, right: seq<string>)
    requires Valid(c) && BehindIt(c, k, before, after, since) && !(e.Pop? && e.key == k)
    requires |since + ({e.key} - {k})| < limit
    ensures BehindIt(Step(c, limit, e).0, k, left, right, since + ({e.key} - {k}))
  {
    var more := since + ({e.key} - {k});
    var l, r := TouchAround(before, k, after, e.key, since);
    DistinctSize(r, more);
    match e
    case Get(x) =>
      if x in c.data { left, right := l, r; } else { left, right := before, after; }
    case Set(x, v) =>
      left := LastKeeps(l, k, r, limit);
      right := r;
    case SetDefault(x, v) =>
      if x in c.data {
        left, right := l, r;
      } else {
        left := LastKeeps(l, k, r, limit);
        right := r;
      }
    case Pop(x) =>
      if x in c.data {
        RemoveAround(before, k, after, x);
        RemovedOnly(after, x);
        left, right := Remove(before, x), Remove(after, x);
      } else {
        left, right := before, after;
      }
  }

  lemma {:induction false} RemovedOnly(s: seq<string>, k: string)
    ensures forall x :: x in Remove(s, k) ==> x in s
  {
    if s != [] {
      RemovedOnly(s[1..], k);
    }
  }

  lemma {:induction false} RunKeepsBehind<V>(limit: nat, es: seq<Event<V>>, more: seq<Event<V>>, k: string)
    returns (left: seq<string>, right: seq<string>)
    requires Valid(Exec(limit, es)) && Exec(limit, es).order != [] && Exec(limit, es).order[|Exec(limit, es).order| - 1] == k
    requires NotPopped(more, k) && |Others(more, k)| < limit
    ensures BehindIt(Exec(limit, es + more), k, left, right, Others(more, k))
    decreases |more|
  {
    if more == [] {
      var order := Exec(limit, es).order;
      left, right := order[..|order| - 1], [];
      assert es + more == es && order == left + [k] + right;
    } else {
      var (front, e) := (more[..|more| - 1], more[|more| - 1]);
      assert Others(more, k) == Others(front, k) + ({e.key} - {k});
      Fewer(Others(front, k), Others(more, k));
      left, right := RunKeepsBehind(limit, es, front, k);
      SizeStaysWithinTheLimit(limit, es + front);
      left, right := StepKeepsBehind(Exec(limit, es + front), limit, e, k, left, right, Others(front, k));
      assert (es + more)[..|es + more| - 1] == es + front;
    }
  }

  lemma {:induction false} Fewer(a: set<string>, b: set<string>)
    requires a <= b
    ensures |a| <= |b|
  {
    if a != {} {
      var x :| x in a;
      Fewer(a - {x}, b - {x});
    }
  }

  /** A key that was just used stays until it is popped or as many other keys as the map holds
      have been used since. */
  lemma UsedKeysStay<V>(limit: nat, es: seq<Event<V>>, e: Event<V>, more: seq<Event<V>>, k: string)
    requires e == Get(k) || (e.Set? && e.key == k) || (e.SetDefault? && e.key == k)
    requires k in Exec(limit, es + [e]).data
    requires NotPopped(more, k) && |Others(more, k)| < limit
    ensures k in Exec(limit, es + [e] + more).data
  {
    UsedIsLast(limit, es, e, k);
    SizeStaysWithinTheLimit(limit, es + [e]);
    var left, right := RunKeepsBehind(limit, es + [e], more, k);
    SizeStaysWithinTheLimit(limit, es + [e] + more);
    assert k in Exec(limit, es + [e] + more).order;
  }

  lemma UsedIsLast<V>(limit: nat, es: seq<Event<V>>, e: Event<V>, k: string)
    requires e == Get(k) || (e.Set? && e.key == k) || (e.SetDefault? && e.key == k)
    requires k in Exec(limit, es + [e]).data
    ensures var order := Exec(limit, es + [e]).order; order != [] && order[|order| - 1] == k
  {
    assert (es + [e])[..|es|] == es;
    SizeStaysWithinTheLimit(limit, es);
  }

  class PerSession<V> {
    const limit: nat
    var order: seq<string>
    var data: map<string, V>

    ghost function Now(): Cache<V>
      reads this
    {
      Cache(order, data)
    }

    constructor (limit: nat)
      ensures this.limit == limit && Now() == Empty()
    {
      this.limit := limit;
      order, data := [], map[];
    }

    /** Drops the oldest keys until the limit is met. */
    method Trim()
      requires Valid(Now())
      modifies this
      ensures Now() == Cut(old(Now()), limit)
    {
      ghost var was := Now();
      while |order| > limit
        invariant |order| <= |was.order| && order == Last(was.order, |order|)
        invariant |order| < |was.order| ==> |order| >= limit
        invariant data == Only(was.data, order)
      {
        var oldest := order[0];
        DropOldest(was, |order|);
        order := order[1..];
        data := data - {oldest};
      }
    }

    method GetValue(k: string) returns (r: Option<V>)
      requires Valid(Now())
      modifies this
      ensures (Now(), r) == Step(old(Now()), limit, Get(k)) && Valid(Now())
    {
      if k !in data {
        return None;
      }
      TouchSame(Now(), k);
      order := Touch(order, k);
      return Some(data[k]);
    }

    method SetValue(k: string, v: V)
      requires Valid(Now())
      modifies this
      ensures Now() == Step(old(Now()), limit, Set(k, v)).0 && Valid(Now())
    {
      TouchIsValid(Now(), k, v);
      data := data[k := v];
      order := Touch(order, k);
      OnlyLast(Now(), limit);
      Trim();
    }

    /** None stands for the error with a limit of zero: the new key is dropped before it can be
        returned. */
    method SetDefaultValue(k: string, v: V) returns (r: Option<V>)
      requires Valid(Now())
      modifies this
      ensures (Now(), r) == Step(old(Now()), limit, SetDefault(k, v)) && Valid(Now())
    {
      if k in data {
        TouchSame(Now(), k);
        order := Touch(order, k);
        return Some(data[k]);
      }
      TouchIsValid(Now(), k, v);
      data := data[k := v];
      order := Touch(order, k);
      ghost var full := Now();
      OnlyLast(full, limit);
      Trim();
      if limit == 0 {
        return None;
      }
      return Some(v);
    }

    method PopValue(k: string) returns (r: Option<V>)
      requires Valid(Now())
      modifies this
      ensures (Now(), r) == Step(old(Now()), limit, Pop(k)) && Valid(Now())
    {
      if k !in data {
        return None;
      }
      r := Some(data[k]);
      TouchIsValid(Now(), k, data[k]);
      order := Remove(order, k);
      data := data - {k};
    }
  }

  lemma OnlyTail<V>(data: map<string, V>, s: seq<string>)
    requires Distinct(s) && s != []
    ensures Only(data, s) - {s[0]} == Only(data, s[1..])
  {
    assert forall x :: x in s <==> x == s[0] || x in s[1..];
    assert s[0] !in s[1..];
  }

  lemma DropOldest<V>(c: Cache<V>, n: nat)
    requires Valid(c) && 1 <= n <= |c.order|
    ensures Last(c.order, n)[1..] == Last(c.order, n - 1)
    ensures Only(c.data, Last(c.order, n)) - {Last(c.order, n)[0]} == Only(c.data, Last(c.order, n - 1))
  {
    LastIsDistinct(c.order, n);
    OnlyTail(c.data, Last(c.order, n));
    LastTail(c.order, n);
  }

  lemma LastTail(s: seq<string>, n: nat)
    requires 1 <= n <= |s|
    ensures Last(s, n)[1..] == Last(s, n - 1)
  {
  }
}
