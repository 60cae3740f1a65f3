/** What a config text means and when it is brought to the current version
    (pcbridge/config.py), line by line. */
module MigrationTheorems {
  import opened Wrappers
  import opened Migration

  // ---------------------------------------------------------------- loading

  /** The table a line stands in. */
  function SectionAt(t: seq<Line>, i: nat): string
    requires i <= |t|
  {
    if i == 0 then TOP else if t[i - 1].Table? then t[i - 1].name else SectionAt(t, i - 1)
  }

  /** Line `i` sets that key of that table. */
  predicate SetsAt(t: seq<Line>, i: nat, s: string, k: string) {
    i < |t| && t[i].Setting? && t[i].key == k && SectionAt(t, i) == s
  }

  ghost predicate IsSet(t: seq<Line>, s: string, k: string) {
    exists i: nat :: SetsAt(t, i, s, k)
  }

  ghost predicate HasTable(t: seq<Line>, s: string) {
    s == TOP || exists i :: 0 <= i < |t| && t[i].Table? && t[i].name == s
  }

  /** Line `i` cannot be read, or comes twice. */
  ghost predicate Clashes(t: seq<Line>, i: nat) {
    && i < |t|
    && (t[i].Broken?
        || (t[i].Table? && HasTable(t[..i], t[i].name))
        || (t[i].Setting? && IsSet(t[..i], SectionAt(t, i), t[i].key)))
  }

  lemma {:induction false} SectionOfPrefix(t: seq<Line>, n: nat, i: nat)
    requires i <= n <= |t|
    ensures SectionAt(t[..n], i) == SectionAt(t, i)
  {
    if i > 0 {
      SectionOfPrefix(t, n, i - 1);
    }
  }

  lemma {:induction false} CurIsSection(t: seq<Line>, i: nat, cur: string)
    requires i <= |t|
    ensures CurAfter(t[..i], cur) == if forall j :: 0 <= j < i ==> !t[j].Table? then cur else SectionAt(t, i)
    decreases i
  {
    if i > 0 {
      CurSplit(t[..i - 1], t[i - 1], cur);
      assert t[..i] == t[..i - 1] + [t[i - 1]];
      CurIsSection(t, i - 1, cur);
    }
  }

  lemma {:induction false} CurSplit(a: seq<Line>, l: Line, cur: string)
    ensures CurAfter(a + [l], cur) == if l.Table? then l.name else CurAfter(a, cur)
    decreases |a|
  {
    if a == [] {
      assert a + [l] == [l] && [l][1..] == [];
    } else {
      assert (a + [l])[1..] == a[1..] + [l];
      CurSplit(a[1..], l, if a[0].Table? then a[0].name else cur);
    }
  }

  lemma {:induction false} NoTableYet(t: seq<Line>, i: nat)
    requires i <= |t| && forall j :: 0 <= j < i ==> !t[j].Table?
    ensures SectionAt(t, i) == TOP
  {
    if i > 0 {
      NoTableYet(t, i - 1);
    }
  }

  /** The last line of a text that is loaded. */
  lemma LoadLast(t: seq<Line>, l: Line)
    ensures match Load(t)
            case None => Load(t + [l]).None?
            case Some(doc) =>
              var s := SectionAt(t, |t|);
              && s in doc
              && Load(t + [l]) ==
                 match l
                 case Table(name, _, _) => if name in doc then None else Some(doc[name := map[]])
                 case Setting(k, v, _) => if k in doc[s] then None else Some(Put(doc, s, k, v))
                 case Silent(_) => Some(doc)
                 case Broken => None
  {
    RunSplit(t, [l], TOP, map[TOP := map[]]);
    CurIsSection(t, |t|, TOP);
    assert t[..|t|] == t;
    if forall j :: 0 <= j < |t| ==> !t[j].Table? {
      NoTableYet(t, |t|);
    }
    assert [l][1..] == [];
  }

  ghost predicate Reads(t: seq<Line>, doc: Doc) {
    && (forall s :: s in doc <==> HasTable(t, s))
    && (forall s, k :: s in doc && k in doc[s] <==> IsSet(t, s, k))
    && (forall i: nat :: i < |t| && t[i].Setting? ==>
          var s := SectionAt(t, i); s in doc && t[i].key in doc[s] && doc[s][t[i].key] == t[i].value)
  }

  lemma IsSetMore(t: seq<Line>, l: Line, s: string, k: string)
    ensures IsSet(t + [l], s, k) <==> IsSet(t, s, k) || (l.Setting? && l.key == k && SectionAt(t, |t|) == s)
  {
    var more := t + [l];
    assert more[..|t|] == t;
    if IsSet(more, s, k) {
      var i: nat :| SetsAt(more, i, s, k);
      SectionOfPrefix(more, |t|, i);
      if i < |t| {
        assert SetsAt(t, i, s, k);
      }
    }
    if IsSet(t, s, k) {
      var i: nat :| SetsAt(t, i, s, k);
      SectionOfPrefix(more, |t|, i);
      assert SetsAt(more, i, s, k);
    }
    SectionOfPrefix(more, |t|, |t|);
    if l.Setting? && l.key == k && SectionAt(t, |t|) == s {
      assert SetsAt(more, |t|, s, k);
    }
  }

  lemma HasTableMore(t: seq<Line>, l: Line, s: string)
    ensures HasTable(t + [l], s) <==> HasTable(t, s) || (l.Table? && l.name == s)
  {
    var more := t + [l];
    assert more[|t|] == l;
    assert forall i :: 0 <= i < |t| ==> more[i] == t[i];
  }

  ghost predicate Clashing(t: seq<Line>) {
    exists i: nat :: Clashes(t, i)
  }

  lemma ClashingMore(t: seq<Line>, l: Line)
    ensures Clashing(t + [l]) <==>
            Clashing(t) || l.Broken? || (l.Table? && HasTable(t, l.name)) || (l.Setting? && IsSet(t, SectionAt(t, |t|), l.key))
  {
    var more := t + [l];
    forall i: nat | i <= |t|
      ensures more[..i] == t[..i] && SectionAt(more, i) == SectionAt(t, i)
    {
      SectionOfPrefix(more, |t|, i);
      assert more[..|t|] == t;
    }
    assert t[..|t|] == t;
    if Clashing(more) {
      var i: nat :| Clashes(more, i);
      assert i < |t| ==> Clashes(t, i);
    }
    if Clashing(t) {
      var i: nat :| Clashes(t, i);
      assert Clashes(more, i);
    }
    if l.Broken? || (l.Table? && HasTable(t, l.name)) || (l.Setting? && IsSet(t, SectionAt(t, |t|), l.key)) {
      assert Clashes(more, |t|);
    }
  }

  /** What the last line adds to the loaded document. */
  predicate Adds(doc: Doc, cur: string, l: Line, d: Doc) {
    && cur in doc
    && (l.Table? ==> l.name !in doc && d == doc[l.name := map[]])
    && (l.Setting? ==> l.key !in doc[cur] && d == Put(doc, cur, l.key, l.value))
    && (!l.Table? && !l.Setting? ==> d == doc)
  }

  lemma AddsTable(doc: Doc, cur: string, l: Line, d: Doc, s: string)
    requires Adds(doc, cur, l, d)
    ensures s in d <==> s in doc || (l.Table? && l.name == s)
  {
  }

  lemma AddsKey(doc: Doc, cur: string, l: Line, d: Doc, s: string, k: string)
    requires Adds(doc, cur, l, d)
    ensures s in d && k in d[s] <==> (s in doc && k in doc[s]) || (l.Setting? && l.key == k && cur == s)
    ensures s in doc && k in doc[s] ==> d[s][k] == doc[s][k]
    ensures l.Setting? && l.key == k && cur == s ==> d[s][k] == l.value
  {
  }

  lemma AddsValue(t: seq<Line>, doc: Doc, l: Line, d: Doc, i: nat)
    requires Reads(t, doc) && Adds(doc, SectionAt(t, |t|), l, d) && i <= |t| && (t + [l])[i].Setting?
    ensures var (s, k) := (SectionAt(t + [l], i), (t + [l])[i].key); s in d && k in d[s] && d[s][k] == (t + [l])[i].value
  {
    var more := t + [l];
    SectionOfPrefix(more, |t|, i);
    assert more[..|t|] == t;
    AddsKey(doc, SectionAt(t, |t|), l, d, SectionAt(t, i), more[i].key);
    assert i < |t| ==> more[i] == t[i];
  }

  lemma ReadsMore(t: seq<Line>, doc: Doc, l: Line, d: Doc)
    requires Reads(t, doc) && Adds(doc, SectionAt(t, |t|), l, d)
    ensures Reads(t + [l], d)
  {
    forall s
      ensures s in d <==> HasTable(t + [l], s)
    {
      HasTableMore(t, l, s);
      AddsTable(doc, SectionAt(t, |t|), l, d, s);
    }
    forall s, k
      ensures s in d && k in d[s] <==> IsSet(t + [l], s, k)
    {
      IsSetMore(t, l, s, k);
      AddsKey(doc, SectionAt(t, |t|), l, d, s, k);
      assert IsSet(t, s, k) <==> s in doc && k in doc[s];
    }
    forall i: nat | i <= |t| && (t + [l])[i].Setting?
      ensures var (s, k) := (SectionAt(t + [l], i), (t + [l])[i].key); s in d && k in d[s] && d[s][k] == (t + [l])[i].value
    {
      AddsValue(t, doc, l, d, i);
    }
  }

  /** A text is loaded exactly if no line is broken, no table comes twice and no key twice in its
      table; then every setting is there, in the table it stands in, with its value, and nothing
      else is. */
  lemma {:induction false} LoadingReads(t: seq<Line>)
    ensures Load(t).None? <==> Clashing(t)
    ensures Load(t).Some? ==> Reads(t, Load(t).value)
  {
    if t != [] {
      var (front, l) := (t[..|t| - 1], t[|t| - 1]);
      assert t == front + [l];
      LoadingReads(front);
      LoadLast(front, l);
      ClashingMore(front, l);
      if Load(front).Some? && Load(t).Some? {
        ReadsMore(front, Load(front).value, l, Load(t).value);
      }
      if Load(front).Some? {
        assert Reads(front, Load(front).value);
      }
    }
  }

  // ---------------------------------------------------------------- meaning

  /** The file names a version from 2 on. */
  predicate IsCurrent(doc: Doc, asInt: string -> Option<int>) {
    VERSION_KEY in Get(doc, TOP) && asInt(Get(doc, TOP)[VERSION_KEY]).Some? && asInt(Get(doc, TOP)[VERSION_KEY]).value >= 2
  }

  function Found(doc: Doc, s: string, k: string): Option<string> {
    if k in Get(doc, s) then Some(Get(doc, s)[k]) else None
  }

  /** The value a setting has: the one that is written, or in a file from before version 2 the
      default of that time. */
  function ValueOf(doc: Doc, asInt: string -> Option<int>, s: string, k: string): Option<string> {
    if Found(doc, s, k).Some? then Found(doc, s, k)
    else if IsCurrent(doc, asInt) then None
    else if s == "desktop" && k == "ocr_languages" then Some("\"tur+eng\"")
    else if s == "desktop" && k == "screenshot_max_pixels" then Some("0")
    else None
  }

  lemma FoundPut(doc: Doc, s: string, k: string, v: string, s2: string, k2: string)
    ensures Found(Put(doc, s, k, v), s2, k2) == if s2 == s && k2 == k then Some(v) else Found(doc, s2, k2)
  {
  }

  lemma TwoPins(doc: Doc, a: Pin, b: Pin, s: string, k: string)
    requires a.section != b.section || a.key != b.key
    ensures Found(Defaults(doc, [a, b]), s, k) ==
            if Found(doc, s, k).Some? then Found(doc, s, k)
            else if s == a.section && k == a.key then Some(a.value)
            else if s == b.section && k == b.key then Some(b.value) else None
  {
    var one := if a.key in Get(doc, a.section) then doc else Put(doc, a.section, a.key, a.value);
    assert [a, b][1..] == [b] && [b][1..] == [];
    FoundPut(doc, a.section, a.key, a.value, s, k);
    FoundPut(one, b.section, b.key, b.value, s, k);
    FoundPut(doc, a.section, a.key, a.value, b.section, b.key);
    assert Defaults(doc, [a, b]) == Defaults(one, [b]);
  }

  lemma ThePins()
    ensures PinsOf(2) == [Pin("desktop", "ocr_languages", "\"tur+eng\""), Pin("desktop", "screenshot_max_pixels", "0")]
    ensures "ocr_languages" != "screenshot_max_pixels"
  {
    assert |"ocr_languages"| == 13 && |"screenshot_max_pixels"| == 21;
  }

  lemma DefaultsOfVersion(doc: Doc, asInt: string -> Option<int>, s: string, k: string)
    ensures Found(Defaults(doc, PinsSince(FileVersion(doc, asInt) + 1)), s, k) == ValueOf(doc, asInt, s, k)
  {
    var version := FileVersion(doc, asInt);
    if IsCurrent(doc, asInt) {
      assert PinsSince(version + 1) == [];
    } else {
      PinsSinceAre(version + 1);
      ThePins();
      var pins := PinsOf(2);
      TwoPins(doc, pins[0], pins[1], s, k);
      assert pins == [pins[0], pins[1]];
    }
  }

  lemma FoundForget(d: Doc, s: string, k: string)
    ensures Found(Forget(d, TOP, VERSION_KEY), s, k) == if s == TOP && k == VERSION_KEY then None else Found(d, s, k)
  {
  }

  lemma SettingsOf(t: seq<Line>, doc: Doc, asInt: string -> Option<int>, d: Doc)
    requires Load(t) == Some(doc) && d == Defaults(doc, PinsSince(FileVersion(doc, asInt) + 1))
    ensures Settings(t, asInt) == Some(Forget(d, TOP, VERSION_KEY))
  {
  }

  /** What a text means, setting by setting; the version itself is none of the settings. */
  lemma SettingsAre(t: seq<Line>, asInt: string -> Option<int>, s: string, k: string)
    ensures Settings(t, asInt).None? <==> Clashing(t)
    ensures Settings(t, asInt).Some? ==>
              Load(t).Some? && Reads(t, Load(t).value)
              && Found(Settings(t, asInt).value, s, k) == if s == TOP && k == VERSION_KEY then None else ValueOf(Load(t).value, asInt, s, k)
  {
    LoadingReads(t);
    if Load(t).Some? {
      var doc := Load(t).value;
      var d := Defaults(doc, PinsSince(FileVersion(doc, asInt) + 1));
      DefaultsOfVersion(doc, asInt, s, k);
      SettingsOf(t, doc, asInt, d);
      FoundForget(d, s, k);
    }
  }

  /** A file of the current version or a later one is left as it is; an older one is given the
      current version, at the top, as long as it has none of its own. */
  lemma CurrentFilesStay(t: Lines, asInt: string -> Option<int>)
    ensures Migrate(t, asInt) == Err(Unreadable) <==> Clashing(t)
    ensures Load(t).Some? && IsCurrent(Load(t).value, asInt) ==> Migrate(t, asInt).Ok? && Migrate(t, asInt).value.0 == t
    ensures Migrate(t, asInt).Ok? && !IsCurrent(Load(t).value, asInt) && !IsSet(t, TOP, VERSION_KEY) ==>
              var out := Migrate(t, asInt).value.0; |out| >= 3 && out[1] == Setting("config_version", "2", true) && SectionAt(out, 1) == TOP
  {
    LoadingReads(t);
    if Load(t).Some? {
      var doc := Load(t).value;
      assert IsSet(t, TOP, VERSION_KEY) <==> TOP in doc && VERSION_KEY in doc[TOP];
    }
  }
}
