/** Bringing a config file to the current version (pcbridge/config.py), on the lines of a TOML
    text: table headers, settings, and lines that say nothing. Values are kept as written. */
module Migration {
  import opened Wrappers

  /** `plain` says that the line is written so that the migration's patterns find it: at the
      very start of the line, without quotes or inner spaces. A header may carry a comment. */
  datatype Line =
    | Table(name: string, plain: bool, comment: string)
    | Setting(key: string, value: string, plain: bool)
    | Silent(text: string)
    | Broken

  /** The text cut at its newlines: never empty, and ending in an empty piece if the text ends
      in a newline. */
  type Lines = t: seq<Line> | t != [] witness [Silent("")]

  type Section = map<string, string>
  type Doc = map<string, Section>

  const TOP: string := ""
  const VERSION_KEY: string := "config_version"
  const CURRENT: string := "2"
  const EMPTY: Line := Silent("")
  const CONFIG_VERSION := 2

  datatype Pin = Pin(section: string, key: string, value: string)

  /** The defaults that changed in a version, with their old values. */
  function PinsOf(version: int): seq<Pin> {
    if version == 2 then
      [Pin("desktop", "ocr_languages", "\"tur+eng\""), Pin("desktop", "screenshot_max_pixels", "0")]
    else []
  }

  function PinsSince(version: int): seq<Pin>
    decreases CONFIG_VERSION + 1 - version
  {
    if version > CONFIG_VERSION then [] else PinsOf(version) + PinsSince(version + 1)
  }

  // ---------------------------------------------------------------- loading

  function Get(doc: Doc, section: string): Section {
    if section in doc then doc[section] else map[]
  }

  function Put(doc: Doc, section: string, key: string, value: string): Doc {
    doc[section := Get(doc, section)[key := value]]
  }

  function Run(t: seq<Line>, cur: string, doc: Doc): Option<Doc>
    requires cur in doc
  {
    if t == [] then Some(doc)
    else match t[0]
      case Table(name, _, _) => if name in doc then None else Run(t[1..], name, doc[name := map[]])
      case Setting(key, value, _) => if key in doc[cur] then None else Run(t[1..], cur, Put(doc, cur, key, value))
      case Silent(_) => Run(t[1..], cur, doc)
      case Broken => None
  }

  /** `tomllib.loads`: no table and no key may come twice. */
  function Load(t: seq<Line>): Option<Doc> {
    Run(t, TOP, map[TOP := map[]])
  }

  /** `_file_version`; `asInt` is what `int` makes of a value. */
  function FileVersion(doc: Doc, asInt: string -> Option<int>): int {
    if VERSION_KEY !in Get(doc, TOP) then 1
    else match asInt(Get(doc, TOP)[VERSION_KEY])
      case Some(n) => n
      case None => 1
  }

  /** `_apply_version_defaults`: the old defaults for keys that are not set. */
  function Defaults(doc: Doc, pins: seq<Pin>): Doc
    decreases |pins|
  {
    if pins == [] then doc
    else
      var p := pins[0];
      Defaults(if p.key in Get(doc, p.section) then doc else Put(doc, p.section, p.key, p.value), pins[1..])
  }

  function Forget(doc: Doc, section: string, key: string): Doc {
    doc[section := Get(doc, section) - {key}]
  }

  /** What a text means: its settings and the defaults of its version. */
  function Settings(t: seq<Line>, asInt: string -> Option<int>): Option<Doc> {
    match Load(t)
    case None => None
    case Some(doc) => Some(Forget(Defaults(doc, PinsSince(FileVersion(doc, asInt) + 1)), TOP, VERSION_KEY))
  }

  // -------------------------------------------------------------- migrating

  predicate IsHeader(line: Line, section: string) {
    line.Table? && line.name == section && line.plain
  }

  function Header(section: string): Line {
    Table(section, true, "")
  }

  /** The first line the header pattern finds. */
  function FirstHeader(t: seq<Line>, section: string): Option<nat> {
    if t == [] then None
    else if IsHeader(t[0], section) then Some(0)
    else match FirstHeader(t[1..], section)
      case Some(i) => Some(i + 1)
      case None => None
  }

  lemma {:induction false} HeaderThere(t: seq<Line>, section: string)
    ensures FirstHeader(t, section).Some? ==> FirstHeader(t, section).value < |t| && IsHeader(t[FirstHeader(t, section).value], section)
  {
    if t != [] {
      HeaderThere(t[1..], section);
    }
  }

  /** The text of a setting as it is written in. */
  function Written(line: Line): string {
    if line.Setting? then line.key + " = " + line.value else ""
  }

  /** A header without a newline behind it runs into the line put after it: the comment takes
      the line up, or nothing that can be read is left. */
  function Glued(header: Line, line: Line): Line
    requires header.Table?
  {
    if header.comment == "" then Broken else header.(comment := header.comment + Written(line))
  }

  function SetInSection(t: Lines, section: string, line: Line): Lines {
    HeaderThere(t, section);
    match FirstHeader(t, section)
    case Some(i) =>
      if i < |t| - 1 then t[..i + 1] + [line] + t[i + 1..] else t[..i] + [Glued(t[i], line), EMPTY]
    case None =>
      (if t[|t| - 1] == EMPTY then t[..|t| - 1] else t) + [EMPTY, Header(section), line, EMPTY]
  }

  function PinLines(t: Lines, doc: Doc, pins: seq<Pin>): Lines
    decreases |pins|
  {
    if pins == [] then t
    else
      var p := pins[0];
      PinLines(if p.key in Get(doc, p.section) then t else SetInSection(t, p.section, Setting(p.key, p.value, true)), doc, pins[1..])
  }

  /** The first line the version pattern finds gets the current version. */
  function SetVersion(t: seq<Line>): seq<Line> {
    if t == [] then []
    else if t[0].Setting? && t[0].key == VERSION_KEY && t[0].plain then [Setting(VERSION_KEY, CURRENT, true)] + t[1..]
    else [t[0]] + SetVersion(t[1..])
  }

  const COMMENT: Line := Silent("# Written by pcbridge 2.x migration; see config.example.toml.")

  function Stamped(t: seq<Line>): seq<Line> {
    [COMMENT, Setting(VERSION_KEY, CURRENT, true), EMPTY] + t
  }

  datatype Error = Unreadable | WouldNotLoad

  /** The text of an older version with its defaults and the current version written in. */
  function Upgraded(t: Lines, doc: Doc, start: int): seq<Line> {
    var pinned := PinLines(t, doc, PinsSince(start + 1));
    if VERSION_KEY in Get(doc, TOP) then SetVersion(pinned) else Stamped(pinned)
  }

  function Migrate(t: Lines, asInt: string -> Option<int>): Result<(seq<Line>, int), Error> {
    match Load(t)
    case None => Err(Unreadable)
    case Some(doc) =>
      var start := FileVersion(doc, asInt);
      if start >= CONFIG_VERSION then Ok((t, start))
      else
        var out := Upgraded(t, doc, start);
        if Load(out).None? then Err(WouldNotLoad) else Ok((out, start))
  }

  lemma MigratedText(t: Lines, doc: Doc, asInt: string -> Option<int>)
    requires Load(t) == Some(doc) && Migrate(t, asInt).Ok?
    ensures var start := FileVersion(doc, asInt);
            Migrate(t, asInt).value == (if start >= CONFIG_VERSION then (t, start) else (Upgraded(t, doc, start), start))
  {
  }

  lemma {:induction false} SetVersionLength(t: seq<Line>)
    ensures |SetVersion(t)| == |t|
  {
    if t != [] {
      SetVersionLength(t[1..]);
    }
  }

  // ------------------------------------------------------- loading, in parts

  function CurAfter(t: seq<Line>, cur: string): string {
    if t == [] then cur else CurAfter(t[1..], if t[0].Table? then t[0].name else cur)
  }

  lemma {:induction false} RunSplit(a: seq<Line>, b: seq<Line>, cur: string, doc: Doc)
    requires cur in doc
    ensures Run(a, cur, doc).Some? ==>
              CurAfter(a, cur) in Run(a, cur, doc).value
              && Run(a + b, cur, doc) == Run(b, CurAfter(a, cur), Run(a, cur, doc).value)
    ensures Run(a, cur, doc).None? ==> Run(a + b, cur, doc).None?
    decreases |a|
  {
    if a == [] {
      assert a + b == b;
    } else {
      assert (a + b)[1..] == a[1..] + b;
      match a[0]
      case Table(name, _, _) => if name !in doc { RunSplit(a[1..], b, name, doc[name := map[]]); }
      case Setting(key, value, _) => if key !in doc[cur] { RunSplit(a[1..], b, cur, Put(doc, cur, key, value)); }
      case Silent(_) => RunSplit(a[1..], b, cur, doc);
      case Broken =>
    }
  }

  /** Loading only adds. */
  lemma {:induction false} RunGrows(t: seq<Line>, cur: string, doc: Doc, section: string, key: string)
    requires cur in doc && section in doc && Run(t, cur, doc).Some?
    ensures section in Run(t, cur, doc).value
    ensures key in doc[section] ==>
              key in Run(t, cur, doc).value[section] && Run(t, cur, doc).value[section][key] == doc[section][key]
    decreases |t|
  {
    if t != [] {
      match t[0]
      case Table(name, _, _) => RunGrows(t[1..], name, doc[name := map[]], section, key);
      case Setting(k, value, _) => RunGrows(t[1..], cur, Put(doc, cur, k, value), section, key);
      case Silent(_) => RunGrows(t[1..], cur, doc, section, key);
    }
  }

  lemma PutsInOne(doc: Doc, s: string, k: string, v: string, k2: string, v2: string)
    requires k != k2
    ensures Put(Put(doc, s, k, v), s, k2, v2) == doc[s := Get(doc, s)[k := v][k2 := v2]]
    ensures Get(doc, s)[k := v][k2 := v2] == Get(doc, s)[k2 := v2][k := v]
  {
  }

  lemma PutsInTwo(doc: Doc, s: string, k: string, v: string, s2: string, k2: string, v2: string)
    requires s != s2
    ensures Put(Put(doc, s, k, v), s2, k2, v2) == Put(Put(doc, s2, k2, v2), s, k, v)
  {
    assert Get(Put(doc, s, k, v), s2) == Get(doc, s2) && Get(Put(doc, s2, k2, v2), s) == Get(doc, s);
  }

  lemma PutsCommute(doc: Doc, s: string, k: string, v: string, s2: string, k2: string, v2: string)
    requires s != s2 || k != k2
    ensures Put(Put(doc, s, k, v), s2, k2, v2) == Put(Put(doc, s2, k2, v2), s, k, v)
  {
    if s == s2 {
      PutsInOne(doc, s, k, v, k2, v2);
      PutsInOne(doc, s, k2, v2, k, v);
    } else {
      PutsInTwo(doc, s, k, v, s2, k2, v2);
    }
  }

  lemma PutTwice(doc: Doc, s: string, k: string, v: string, v2: string)
    ensures Put(Put(doc, s, k, v), s, k, v2) == Put(doc, s, k, v2)
  {
    var m := Get(doc, s);
    assert m[k := v][k := v2] == m[k := v2];
  }

  lemma PutTable(doc: Doc, s: string, k: string, v: string, name: string)
    requires s in doc && name !in doc
    ensures Put(doc, s, k, v)[name := map[]] == Put(doc[name := map[]], s, k, v)
  {
  }

  /** A setting put in beforehand is there afterwards and changes nothing else, if it replaces
      one that is already there or that the text never makes. */
  lemma {:induction false} RunPut(t: seq<Line>, cur: string, doc: Doc, s: string, k: string, v: string)
    requires cur in doc && s in doc && Run(t, cur, doc).Some?
    requires k in doc[s] || k !in Get(Run(t, cur, doc).value, s)
    ensures Run(t, cur, Put(doc, s, k, v)) == Some(Put(Run(t, cur, doc).value, s, k, v))
    decreases |t|
  {
    if t != [] {
      match t[0]
      case Table(name, _, _) =>
        PutTable(doc, s, k, v, name);
        RunPut(t[1..], name, doc[name := map[]], s, k, v);
      case Setting(key, value, _) =>
        if cur == s && key == k {
          RunGrows(t[1..], cur, Put(doc, cur, key, value), s, k);
          assert false;
        } else {
          PutsCommute(doc, s, k, v, cur, key, value);
          RunPut(t[1..], cur, Put(doc, cur, key, value), s, k, v);
        }
      case Silent(_) => RunPut(t[1..], cur, doc, s, k, v);
    }
  }

  // --------------------------------------------------- texts that cannot load

  function Tables(t: seq<Line>, name: string): nat {
    if t == [] then 0 else (if t[0].Table? && t[0].name == name then 1 else 0) + Tables(t[1..], name)
  }

  lemma {:induction false} TablesJoin(a: seq<Line>, b: seq<Line>, name: string)
    ensures Tables(a + b, name) == Tables(a, name) + Tables(b, name)
  {
    if a == [] {
      assert a + b == b;
    } else {
      TablesJoin(a[1..], b, name);
      assert (a + b)[1..] == a[1..] + b;
    }
  }

  /** A line ran into another, or a table comes twice. */
  ghost predicate Doomed(t: seq<Line>) {
    Broken in t || exists name :: Tables(t, name) >= 2
  }

  lemma {:induction false} LoadedTables(t: seq<Line>, cur: string, doc: Doc, name: string)
    requires cur in doc && Run(t, cur, doc).Some?
    ensures Broken !in t && Tables(t, name) <= (if name in doc then 0 else 1)
    ensures name in Run(t, cur, doc).value <==> name in doc || Tables(t, name) >= 1
    decreases |t|
  {
    if t != [] {
      match t[0]
      case Table(n, _, _) => LoadedTables(t[1..], n, doc[n := map[]], name);
      case Setting(key, value, _) => LoadedTables(t[1..], cur, Put(doc, cur, key, value), name);
      case Silent(_) => LoadedTables(t[1..], cur, doc, name);
    }
  }

  lemma DoomedDoesNotLoad(t: seq<Line>)
    requires Doomed(t)
    ensures Load(t).None?
  {
    if Load(t).Some? {
      LoadedTables(t, TOP, map[TOP := map[]], TOP);
      var name :| Tables(t, name) >= 2;
      LoadedTables(t, TOP, map[TOP := map[]], name);
    }
  }

  // -------------------------------------------------- putting in one setting

  /** A setting can be put into the section: the first header the pattern finds is followed by
      a newline, or the section has no header at all. */
  predicate Settable(t: Lines, section: string) {
    match FirstHeader(t, section)
    case Some(i) => i < |t| - 1
    case None => Tables(t, section) == 0
  }

  /** The comment of a header at the very end takes up the first setting put into the section. */
  predicate Swallows(t: Lines, section: string) {
    FirstHeader(t, section) == Some(|t| - 1) && t[|t| - 1].Table? && t[|t| - 1].comment != ""
  }

  lemma Cut(t: seq<Line>, i: nat)
    requires i < |t|
    ensures t == t[..i] + [t[i]] + t[i + 1..]
    ensures t[..i + 1] == t[..i] + [t[i]]
  {
  }

  /** A new setting right below its header. */
  lemma LoadBelow(a: seq<Line>, header: Line, b: seq<Line>, s: string, k: string, v: string, d: Doc)
    requires header.Table? && header.name == s && Load(a + [header] + b) == Some(d) && k !in Get(d, s)
    ensures Load(a + [header] + [Setting(k, v, true)] + b) == Some(Put(d, s, k, v))
  {
    var head := a + [header];
    var start: Doc := map[TOP := map[]];
    RunSplit(a, [header], TOP, start);
    RunSplit(head, b, TOP, start);
    CurJoin(a, [header], TOP);
    var mid := Run(head, TOP, start).value;
    assert CurAfter(head, TOP) == s && mid[s] == map[];
    RunSplit(head, [Setting(k, v, true)], TOP, start);
    CurJoin(head, [Setting(k, v, true)], TOP);
    assert Run([Setting(k, v, true)], s, mid) == Some(Put(mid, s, k, v));
    RunSplit(head + [Setting(k, v, true)], b, TOP, start);
    RunPut(b, s, mid, s, k, v);
  }

  lemma {:induction false} CurJoin(a: seq<Line>, b: seq<Line>, cur: string)
    ensures CurAfter(a + b, cur) == CurAfter(b, CurAfter(a, cur))
  {
    if a == [] {
      assert a + b == b;
    } else {
      CurJoin(a[1..], b, if a[0].Table? then a[0].name else cur);
      assert (a + b)[1..] == a[1..] + b;
    }
  }

  lemma EndRuns(cur: string, d: Doc, s: string, k: string, v: string)
    requires cur in d && s !in d
    ensures Run([EMPTY, Header(s), Setting(k, v, true), EMPTY], cur, d) == Some(Put(d, s, k, v))
  {
    var line := Setting(k, v, true);
    var all := [EMPTY, Header(s), line, EMPTY];
    var made := d[s := map[]];
    assert [EMPTY][1..] == [] && [line, EMPTY][1..] == [EMPTY];
    assert [Header(s), line, EMPTY][1..] == [line, EMPTY];
    assert all[1..] == [Header(s), line, EMPTY];
    assert Put(made, s, k, v) == Put(d, s, k, v);
    assert Run([EMPTY], s, Put(d, s, k, v)) == Some(Put(d, s, k, v));
    assert Run([line, EMPTY], s, made) == Run([EMPTY], s, Put(made, s, k, v));
    assert Run([Header(s), line, EMPTY], cur, d) == Run([line, EMPTY], s, made);
  }

  lemma LoadAppended(t: seq<Line>, s: string, k: string, v: string, d: Doc)
    requires Load(t) == Some(d) && s !in d
    ensures Load(t + [EMPTY, Header(s), Setting(k, v, true), EMPTY]) == Some(Put(d, s, k, v))
  {
    RunSplit(t, [EMPTY, Header(s), Setting(k, v, true), EMPTY], TOP, map[TOP := map[]]);
    EndRuns(CurAfter(t, TOP), d, s, k, v);
  }

  lemma LoadWithoutEnd(t: Lines)
    requires t[|t| - 1] == EMPTY
    ensures Load(t[..|t| - 1]) == Load(t)
    ensures forall name :: Tables(t[..|t| - 1], name) == Tables(t, name)
  {
    var front := t[..|t| - 1];
    assert t == front + [EMPTY];
    EndSaysNothing(front);
  }

  lemma EndSaysNothing(front: seq<Line>)
    ensures Load(front + [EMPTY]) == Load(front)
    ensures forall name :: Tables(front + [EMPTY], name) == Tables(front, name)
  {
    assert [EMPTY][1..] == [];
    RunSplit(front, [EMPTY], TOP, map[TOP := map[]]);
    forall name
      ensures Tables(front + [EMPTY], name) == Tables(front, name)
    {
      TablesJoin(front, [EMPTY], name);
    }
  }

  /** Putting in a setting that is not there gives the settings with it, when it can be done. */
  lemma SetLoads(t: Lines, d: Doc, s: string, k: string, v: string)
    requires Load(t) == Some(d) && s != TOP && k !in Get(d, s) && Settable(t, s)
    ensures Load(SetInSection(t, s, Setting(k, v, true))) == Some(Put(d, s, k, v))
  {
    HeaderThere(t, s);
    if FirstHeader(t, s).Some? {
      var i := FirstHeader(t, s).value;
      Cut(t, i);
      LoadBelow(t[..i], t[i], t[i + 1..], s, k, v, d);
    } else {
      LoadedTables(t, TOP, map[TOP := map[]], s);
      if t[|t| - 1] == EMPTY {
        LoadWithoutEnd(t);
        LoadAppended(t[..|t| - 1], s, k, v, d);
      } else {
        LoadAppended(t, s, k, v, d);
      }
    }
  }

  lemma AppendedTables(t: seq<Line>, s: string, line: Line, name: string)
    requires line.Setting?
    ensures Tables(t + [EMPTY, Header(s), line, EMPTY], name) == Tables(t, name) + (if name == s then 1 else 0)
  {
    var all := [EMPTY, Header(s), line, EMPTY];
    TablesJoin(t, all, name);
    assert [EMPTY][1..] == [] && [line, EMPTY][1..] == [EMPTY];
    assert [Header(s), line, EMPTY][1..] == [line, EMPTY];
    assert all[1..] == [Header(s), line, EMPTY];
    assert Tables([EMPTY], name) == 0;
    assert Tables([line, EMPTY], name) == 0;
    assert Tables([Header(s), line, EMPTY], name) == (if name == s then 1 else 0);
  }

  lemma InsertedTables(t: seq<Line>, i: nat, line: Line, name: string)
    requires i < |t| && line.Setting?
    ensures Tables(t[..i + 1] + [line] + t[i + 1..], name) == Tables(t, name)
  {
    TablesJoin(t[..i + 1], [line], name);
    TablesJoin(t[..i + 1] + [line], t[i + 1..], name);
    TablesJoin(t[..i + 1], t[i + 1..], name);
    assert t == t[..i + 1] + t[i + 1..];
  }

  /** When it cannot be done the text is spoilt for good. */
  lemma SetDooms(t: Lines, s: string, line: Line)
    requires line.Setting? && !Settable(t, s) && !Swallows(t, s)
    ensures Doomed(SetInSection(t, s, line))
  {
    HeaderThere(t, s);
    var out := SetInSection(t, s, line);
    if FirstHeader(t, s).Some? {
      var i := FirstHeader(t, s).value;
      assert out[i] == Broken;
    } else {
      if t[|t| - 1] == EMPTY {
        LoadWithoutEnd(t);
        AppendedTables(t[..|t| - 1], s, line, s);
      } else {
        AppendedTables(t, s, line, s);
      }
    }
  }

  lemma SetKeepsDoom(t: Lines, s: string, line: Line)
    requires line.Setting? && Doomed(t)
    ensures Doomed(SetInSection(t, s, line))
  {
    if Settable(t, s) {
      HeaderThere(t, s);
      var out := SetInSection(t, s, line);
      if FirstHeader(t, s).Some? {
        var i := FirstHeader(t, s).value;
        assert forall x :: x in t ==> x in out by { Cut(t, i); }
        forall name
          ensures Tables(out, name) == Tables(t, name)
        {
          InsertedTables(t, i, line, name);
        }
      } else {
        var front := if t[|t| - 1] == EMPTY then t[..|t| - 1] else t;
        assert forall x :: x in t && x != EMPTY ==> x in front;
        forall name
          ensures Tables(out, name) >= Tables(t, name)
        {
          if t[|t| - 1] == EMPTY {
            LoadWithoutEnd(t);
          }
          AppendedTables(front, s, line, name);
        }
      }
    } else if Swallows(t, s) {
      SwallowIs(t, s, line);
      var front := t[..|t| - 1];
      forall name
        ensures Tables(SetInSection(t, s, line), name) == Tables(t, name)
      {
        SwallowTables(front, t[|t| - 1], Glued(t[|t| - 1], line), name);
      }
    } else {
      SetDooms(t, s, line);
    }
  }

  // ------------------------------------------------------- swallowed settings

  lemma SwallowIs(t: Lines, s: string, line: Line)
    requires Swallows(t, s)
    ensures var (front, last) := (t[..|t| - 1], t[|t| - 1]);
            && t == front + [last]
            && SetInSection(t, s, line) == front + [Glued(last, line), EMPTY]
            && IsHeader(last, s) && IsHeader(Glued(last, line), s)
  {
    HeaderThere(t, s);
  }

  lemma SwallowTables(front: seq<Line>, last: Line, glued: Line, name: string)
    requires last.Table? && glued.Table? && last.name == glued.name
    ensures Tables(front + [glued, EMPTY], name) == Tables(front + [last], name)
  {
    TablesJoin(front, [last], name);
    TablesJoin(front, [glued, EMPTY], name);
    assert [glued, EMPTY][1..] == [EMPTY] && [EMPTY][1..] == [] && [last][1..] == [];
    assert Tables([EMPTY], name) == 0;
    assert Tables([glued, EMPTY], name) == Tables([last], name);
  }

  lemma EndsAlike(cur: string, d: Doc, last: Line, glued: Line)
    requires cur in d && last.Table? && glued.Table? && last.name == glued.name
    ensures Run([glued, EMPTY], cur, d) == Run([last], cur, d)
    ensures Spot([glued, EMPTY], cur).None? && Spot([last], cur).None?
  {
    assert [glued, EMPTY][1..] == [EMPTY] && [EMPTY][1..] == [] && [last][1..] == [];
    if last.name !in d {
      var made := d[last.name := map[]];
      assert Run([EMPTY], last.name, made) == Some(made);
    }
    assert Spot([EMPTY], last.name).None?;
  }

  lemma {:induction false} NoHeaderBefore(t: seq<Line>, s: string)
    requires FirstHeader(t, s).Some?
    ensures FirstHeader(t, s).value < |t| && FirstHeader(t[..FirstHeader(t, s).value], s).None?
  {
    var i := FirstHeader(t, s).value;
    if !IsHeader(t[0], s) {
      NoHeaderBefore(t[1..], s);
      assert t[..i][1..] == t[1..][..i - 1];
    }
  }

  /** A setting taken up by a comment changes nothing, but the next one can be put in. */
  lemma SwallowLoads(t: Lines, s: string, line: Line)
    requires Swallows(t, s) && Load(t).Some?
    ensures var out := SetInSection(t, s, line);
            Load(out) == Load(t) && Settable(out, s) && Spot(out, TOP) == Spot(t, TOP)
  {
    var front, last := t[..|t| - 1], t[|t| - 1];
    var glued := Glued(last, line);
    var start: Doc := map[TOP := map[]];
    SwallowIs(t, s, line);
    RunSplit(front, [last], TOP, start);
    RunSplit(front, [glued, EMPTY], TOP, start);
    SpotJoin(front, [last], TOP);
    SpotJoin(front, [glued, EMPTY], TOP);
    EndsAlike(CurAfter(front, TOP), Run(front, TOP, start).value, last, glued);
    SwallowSettable(t, s, line);
  }

  lemma SwallowSettable(t: Lines, s: string, line: Line)
    requires Swallows(t, s)
    ensures Settable(SetInSection(t, s, line), s)
  {
    var front, glued := t[..|t| - 1], Glued(t[|t| - 1], line);
    SwallowIs(t, s, line);
    NoHeaderBefore(t, s);
    HeaderJoin(front, [glued, EMPTY], s);
    assert FirstHeader([glued, EMPTY], s) == Some(0);
  }

  lemma {:induction false} HeaderJoin(a: seq<Line>, b: seq<Line>, s: string)
    ensures FirstHeader(a, s).Some? ==> FirstHeader(a + b, s) == FirstHeader(a, s)
    ensures FirstHeader(a, s).None? && FirstHeader(b, s).Some? ==> FirstHeader(a + b, s) == Some(|a| + FirstHeader(b, s).value)
  {
    if a == [] {
      assert a + b == b;
    } else {
      HeaderJoin(a[1..], b, s);
      assert (a + b)[1..] == a[1..] + b;
    }
  }

  lemma {:induction false} FirstOfPrefix(t: seq<Line>, s: string)
    requires FirstHeader(t, s).Some?
    ensures FirstHeader(t, s).value < |t| && FirstHeader(t[..FirstHeader(t, s).value + 1], s) == FirstHeader(t, s)
  {
    var i := FirstHeader(t, s).value;
    if !IsHeader(t[0], s) {
      FirstOfPrefix(t[1..], s);
      assert t[..i + 1][1..] == t[1..][..i];
    }
  }

  lemma {:induction false} NoHeaderInFront(t: seq<Line>, n: nat, s: string)
    requires FirstHeader(t, s).None? && n <= |t|
    ensures FirstHeader(t[..n], s).None?
  {
    if n > 0 {
      NoHeaderInFront(t[1..], n - 1, s);
      assert t[..n][1..] == t[1..][..n - 1];
    }
  }

  /** Once it can be done, it can be done again. */
  lemma SettableAgain(t: Lines, s: string, line: Line)
    requires Settable(t, s) && line.Setting?
    ensures Settable(SetInSection(t, s, line), s)
  {
    HeaderThere(t, s);
    var out := SetInSection(t, s, line);
    if FirstHeader(t, s).Some? {
      var i := FirstHeader(t, s).value;
      FirstOfPrefix(t, s);
      HeaderJoin(t[..i + 1], [line] + t[i + 1..], s);
      assert out == t[..i + 1] + ([line] + t[i + 1..]);
    } else {
      var front := if t[|t| - 1] == EMPTY then t[..|t| - 1] else t;
      var all := [EMPTY, Header(s), line, EMPTY];
      NoHeaderInFront(t, |front|, s);
      assert all[1..][0] == Header(s);
      HeaderJoin(front, all, s);
    }
  }

  // ------------------------------------------------------ putting in the pins

  predicate NeedsPin(doc: Doc, pins: seq<Pin>) {
    pins != [] && (pins[0].key !in Get(doc, pins[0].section) || NeedsPin(doc, pins[1..]))
  }

  /** Pins of one section, with different keys. */
  ghost predicate OneSection(pins: seq<Pin>, s: string) {
    && s != TOP
    && (forall i :: 0 <= i < |pins| ==> pins[i].section == s && pins[i].key != VERSION_KEY)
    && (forall i, j :: 0 <= i < j < |pins| ==> pins[i].key != pins[j].key)
  }

  /** As far as these pins go, the two set the same keys. */
  ghost predicate Agree(doc: Doc, d: Doc, pins: seq<Pin>) {
    forall i :: 0 <= i < |pins| ==> (pins[i].key in Get(doc, pins[i].section) <==> pins[i].key in Get(d, pins[i].section))
  }

  lemma {:induction false} NothingNeeded(t: Lines, doc: Doc, d: Doc, pins: seq<Pin>)
    requires !NeedsPin(doc, pins) && Agree(doc, d, pins)
    ensures PinLines(t, doc, pins) == t && Defaults(d, pins) == d
    decreases |pins|
  {
    if pins != [] {
      var p := pins[0];
      assert p.key in Get(d, p.section);
      assert forall i :: 0 <= i < |pins[1..]| ==> pins[1..][i] == pins[i + 1];
      NothingNeeded(t, doc, d, pins[1..]);
    }
  }

  lemma {:induction false} PinsLoad(t: Lines, doc: Doc, d: Doc, s: string, pins: seq<Pin>)
    requires OneSection(pins, s) && Agree(doc, d, pins) && Load(t) == Some(d) && Settable(t, s)
    ensures Load(PinLines(t, doc, pins)) == Some(Defaults(d, pins))
    decreases |pins|
  {
    if pins != [] {
      var p := pins[0];
      assert pins[1..] != [] ==> pins[1..][0] == pins[1];
      assert forall i :: 0 <= i < |pins[1..]| ==> pins[1..][i] == pins[i + 1];
      if p.key in Get(doc, s) {
        assert p.key in Get(d, s);
        PinsLoad(t, doc, d, s, pins[1..]);
      } else {
        assert p.key !in Get(d, s);
        var line := Setting(p.key, p.value, true);
        SetLoads(t, d, s, p.key, p.value);
        SettableAgain(t, s, line);
        PinsLoad(SetInSection(t, s, line), doc, Put(d, s, p.key, p.value), s, pins[1..]);
      }
    }
  }

  lemma {:induction false} PinsKeepDoom(t: Lines, doc: Doc, pins: seq<Pin>)
    requires Doomed(t)
    ensures Doomed(PinLines(t, doc, pins))
    decreases |pins|
  {
    if pins != [] {
      var p := pins[0];
      var line := Setting(p.key, p.value, true);
      SetKeepsDoom(t, p.section, line);
      PinsKeepDoom(if p.key in Get(doc, p.section) then t else SetInSection(t, p.section, line), doc, pins[1..]);
    }
  }

  lemma {:induction false} PinsDoom(t: Lines, doc: Doc, s: string, pins: seq<Pin>)
    requires OneSection(pins, s) && NeedsPin(doc, pins) && !Settable(t, s) && !Swallows(t, s)
    ensures Doomed(PinLines(t, doc, pins))
    decreases |pins|
  {
    var p := pins[0];
    assert forall i :: 0 <= i < |pins[1..]| ==> pins[1..][i] == pins[i + 1];
    if p.key in Get(doc, s) {
      PinsDoom(t, doc, s, pins[1..]);
    } else {
      var line := Setting(p.key, p.value, true);
      SetDooms(t, s, line);
      PinsKeepDoom(SetInSection(t, s, line), doc, pins[1..]);
    }
  }

  /** The pins behind the first one that is needed. */
  function AfterFirst(doc: Doc, pins: seq<Pin>): seq<Pin> {
    if pins == [] then [] else if pins[0].key !in Get(doc, pins[0].section) then pins[1..] else AfterFirst(doc, pins[1..])
  }

  /** With a comment in the way the first needed pin is lost and the others are written. */
  lemma {:induction false} PinsSwallowed(t: Lines, doc: Doc, s: string, pins: seq<Pin>)
    requires OneSection(pins, s) && Load(t) == Some(doc) && Swallows(t, s) && NeedsPin(doc, pins)
    ensures var pinned := PinLines(t, doc, pins);
            Load(pinned) == Some(Defaults(doc, AfterFirst(doc, pins))) && Spot(pinned, TOP) == Spot(t, TOP) && Settable(pinned, s)
    decreases |pins|
  {
    var p := pins[0];
    assert forall i :: 0 <= i < |pins[1..]| ==> pins[1..][i] == pins[i + 1];
    if p.key in Get(doc, s) {
      PinsSwallowed(t, doc, s, pins[1..]);
    } else {
      var line := Setting(p.key, p.value, true);
      SwallowLoads(t, s, line);
      PinsLoad(SetInSection(t, s, line), doc, doc, s, pins[1..]);
      PinsKeepSpot(SetInSection(t, s, line), doc, s, pins[1..]);
      PinsStaySettable(SetInSection(t, s, line), doc, s, pins[1..]);
    }
  }

  lemma {:induction false} PinsStaySettable(t: Lines, doc: Doc, s: string, pins: seq<Pin>)
    requires OneSection(pins, s) && Settable(t, s)
    ensures Settable(PinLines(t, doc, pins), s)
    ensures |PinLines(t, doc, pins)| >= |t| && (NeedsPin(doc, pins) ==> |PinLines(t, doc, pins)| > |t|)
    decreases |pins|
  {
    if pins != [] {
      var p := pins[0];
      assert forall i :: 0 <= i < |pins[1..]| ==> pins[1..][i] == pins[i + 1];
      if p.key in Get(doc, s) {
        PinsStaySettable(t, doc, s, pins[1..]);
      } else {
        var line := Setting(p.key, p.value, true);
        HeaderThere(t, s);
        SettableAgain(t, s, line);
        PinsStaySettable(SetInSection(t, s, line), doc, s, pins[1..]);
      }
    }
  }

  // ------------------------------------------------------------ the version

  /** Where the version pattern strikes: the table the line is in, and its value. */
  function Spot(t: seq<Line>, cur: string): Option<(string, string)> {
    if t == [] then None
    else match t[0]
      case Table(name, _, _) => Spot(t[1..], name)
      case Setting(key, value, plain) => if key == VERSION_KEY && plain then Some((cur, value)) else Spot(t[1..], cur)
      case Silent(_) => Spot(t[1..], cur)
      case Broken => Spot(t[1..], cur)
  }

  lemma {:induction false} SetVersionLoads(t: seq<Line>, cur: string, doc: Doc)
    requires cur in doc && Run(t, cur, doc).Some?
    ensures Spot(t, cur).None? ==> SetVersion(t) == t
    ensures Spot(t, cur).Some? ==>
              var (s, v) := Spot(t, cur).value;
              var d := Run(t, cur, doc).value;
              && s in d && VERSION_KEY in d[s] && d[s][VERSION_KEY] == v
              && Run(SetVersion(t), cur, doc) == Some(Put(d, s, VERSION_KEY, CURRENT))
    decreases |t|
  {
    if t != [] {
      assert [t[0]] + t[1..] == t;
      match t[0]
      case Table(name, _, _) =>
        SetVersionLoads(t[1..], name, doc[name := map[]]);
        assert SetVersion(t)[1..] == SetVersion(t[1..]);
      case Setting(key, value, plain) =>
        if key == VERSION_KEY && plain {
          var next := Put(doc, cur, key, value);
          RunGrows(t[1..], cur, next, cur, VERSION_KEY);
          RunPut(t[1..], cur, next, cur, VERSION_KEY, CURRENT);
          PutTwice(doc, cur, VERSION_KEY, value, CURRENT);
          assert SetVersion(t)[1..] == t[1..];
        } else {
          SetVersionLoads(t[1..], cur, Put(doc, cur, key, value));
          assert SetVersion(t)[1..] == SetVersion(t[1..]);
        }
      case Silent(_) =>
        SetVersionLoads(t[1..], cur, doc);
        assert SetVersion(t)[1..] == SetVersion(t[1..]);
    }
  }

  lemma {:induction false} SetVersionKeepsDoom(t: seq<Line>, name: string)
    ensures Tables(SetVersion(t), name) == Tables(t, name)
    ensures Broken in SetVersion(t) <==> Broken in t
  {
    if t != [] {
      SetVersionKeepsDoom(t[1..], name);
      if t[0].Setting? && t[0].key == VERSION_KEY && t[0].plain {
        assert SetVersion(t)[1..] == t[1..];
      } else {
        assert SetVersion(t)[1..] == SetVersion(t[1..]);
      }
    }
  }

  lemma StampLoads(t: seq<Line>, d: Doc)
    requires Load(t) == Some(d) && VERSION_KEY !in Get(d, TOP)
    ensures Load(Stamped(t)) == Some(Put(d, TOP, VERSION_KEY, CURRENT))
  {
    var start: Doc := map[TOP := map[]];
    var line := Setting(VERSION_KEY, CURRENT, true);
    RunPut(t, TOP, start, TOP, VERSION_KEY, CURRENT);
    var all := Stamped(t);
    assert all[1..] == [line, EMPTY] + t;
    assert ([line, EMPTY] + t)[1..] == [EMPTY] + t;
    assert ([EMPTY] + t)[1..] == t;
    var put := Put(start, TOP, VERSION_KEY, CURRENT);
    assert Run([EMPTY] + t, TOP, put) == Run(t, TOP, put);
    assert Run([line, EMPTY] + t, TOP, start) == Run([EMPTY] + t, TOP, put);
  }

  lemma StampTables(t: seq<Line>, name: string)
    ensures Tables(Stamped(t), name) == Tables(t, name)
  {
    var line := Setting(VERSION_KEY, CURRENT, true);
    assert Stamped(t)[1..] == [line, EMPTY] + t;
    assert ([line, EMPTY] + t)[1..] == [EMPTY] + t;
    assert ([EMPTY] + t)[1..] == t;
    assert Tables([EMPTY] + t, name) == Tables(t, name);
    assert Tables([line, EMPTY] + t, name) == Tables(t, name);
  }

  lemma VersionKeepsDoom(t: seq<Line>)
    requires Doomed(t)
    ensures Doomed(SetVersion(t)) && Doomed(Stamped(t))
  {
    SetVersionKeepsDoom(t, TOP);
    if Broken in t {
      assert Broken in Stamped(t);
    } else {
      var name :| Tables(t, name) >= 2;
      SetVersionKeepsDoom(t, name);
      StampTables(t, name);
    }
  }

  lemma {:induction false} SpotJoin(a: seq<Line>, b: seq<Line>, cur: string)
    ensures Spot(a + b, cur) == if Spot(a, cur).Some? then Spot(a, cur) else Spot(b, CurAfter(a, cur))
  {
    if a == [] {
      assert a + b == b;
    } else {
      SpotJoin(a[1..], b, if a[0].Table? then a[0].name else cur);
      assert (a + b)[1..] == a[1..] + b;
    }
  }

  /** Putting in another setting does not move the version line to another table. */
  lemma SetKeepsSpot(t: Lines, s: string, line: Line)
    requires Settable(t, s) && line.Setting? && line.key != VERSION_KEY
    ensures Spot(SetInSection(t, s, line), TOP) == Spot(t, TOP)
  {
    HeaderThere(t, s);
    if FirstHeader(t, s).Some? {
      var i := FirstHeader(t, s).value;
      var (a, b) := (t[..i + 1], t[i + 1..]);
      assert t == a + b;
      SpotJoin(a, b, TOP);
      SpotJoin(a, [line] + b, TOP);
      assert a + [line] + b == a + ([line] + b);
      assert ([line] + b)[1..] == b;
    } else {
      var front := if t[|t| - 1] == EMPTY then t[..|t| - 1] else t;
      var all := [EMPTY, Header(s), line, EMPTY];
      if t[|t| - 1] == EMPTY {
        assert t == front + [EMPTY];
        SpotJoin(front, [EMPTY], TOP);
        assert [EMPTY][1..] == [];
      }
      SpotJoin(front, all, TOP);
      assert all[1..] == [Header(s), line, EMPTY];
      assert [Header(s), line, EMPTY][1..] == [line, EMPTY];
      assert [line, EMPTY][1..] == [EMPTY] && [EMPTY][1..] == [];
      assert Spot([EMPTY], s).None?;
      assert Spot([line, EMPTY], s).None?;
      assert Spot([Header(s), line, EMPTY], CurAfter(front, TOP)).None?;
    }
  }

  lemma {:induction false} PinsKeepSpot(t: Lines, doc: Doc, s: string, pins: seq<Pin>)
    requires OneSection(pins, s) && (NeedsPin(doc, pins) ==> Settable(t, s))
    ensures Spot(PinLines(t, doc, pins), TOP) == Spot(t, TOP)
    decreases |pins|
  {
    if pins != [] {
      var p := pins[0];
      assert forall i :: 0 <= i < |pins[1..]| ==> pins[1..][i] == pins[i + 1];
      if p.key in Get(doc, s) {
        PinsKeepSpot(t, doc, s, pins[1..]);
      } else {
        var line := Setting(p.key, p.value, true);
        SetKeepsSpot(t, s, line);
        SettableAgain(t, s, line);
        PinsKeepSpot(SetInSection(t, s, line), doc, s, pins[1..]);
      }
    }
  }

  // ------------------------------------------------------------ the theorems

  const DESKTOP: string := "desktop"

  lemma CurrentPins(pins: seq<Pin>)
    requires pins == PinsOf(CONFIG_VERSION)
    ensures OneSection(pins, DESKTOP)
  {
    assert |pins| == 2 && pins[0].section == pins[1].section == DESKTOP;
    assert |pins[0].key| == 13 && |pins[1].key| == 21 && |VERSION_KEY| == 14;
  }

  lemma OlderPins(version: int)
    requires version < CONFIG_VERSION
    ensures PinsSince(version) == PinsSince(version + 1)
  {
    assert PinsOf(version) == [];
  }

  lemma LastPins()
    ensures PinsSince(CONFIG_VERSION) == PinsOf(CONFIG_VERSION)
  {
    assert PinsSince(CONFIG_VERSION + 1) == [];
  }

  lemma {:induction false} PinsSinceAre(version: int)
    ensures version <= CONFIG_VERSION ==> PinsSince(version) == PinsOf(CONFIG_VERSION)
    decreases CONFIG_VERSION + 1 - version
  {
    if version < CONFIG_VERSION {
      OlderPins(version);
      PinsSinceAre(version + 1);
    } else if version == CONFIG_VERSION {
      LastPins();
    }
  }

  lemma PinsAreForTheDesktop(version: int)
    ensures OneSection(PinsSince(version), DESKTOP)
  {
    PinsSinceAre(version);
    if version <= CONFIG_VERSION {
      CurrentPins(PinsSince(version));
    }
  }

  predicate Migratable(t: Lines, doc: Doc, start: int) {
    start >= CONFIG_VERSION || !NeedsPin(doc, PinsSince(start + 1)) || Settable(t, DESKTOP) || Swallows(t, DESKTOP)
  }

  /** A needed default is put behind a comment that takes it up. */
  predicate Loses(t: Lines, doc: Doc, start: int) {
    start < CONFIG_VERSION && NeedsPin(doc, PinsSince(start + 1)) && Swallows(t, DESKTOP)
  }

  /** The pins that end up as settings. */
  function PinsWritten(t: Lines, doc: Doc, start: int): seq<Pin> {
    if Loses(t, doc, start) then AfterFirst(doc, PinsSince(start + 1)) else PinsSince(start + 1)
  }

  lemma PinnedLoads(t: Lines, doc: Doc, start: int)
    requires Load(t) == Some(doc) && start < CONFIG_VERSION
    ensures var pinned := PinLines(t, doc, PinsSince(start + 1));
            if Migratable(t, doc, start) then
              Load(pinned) == Some(Defaults(doc, PinsWritten(t, doc, start))) && Spot(pinned, TOP) == Spot(t, TOP)
            else Doomed(pinned)
  {
    var pins := PinsSince(start + 1);
    PinsAreForTheDesktop(start + 1);
    if !NeedsPin(doc, pins) {
      NothingNeeded(t, doc, doc, pins);
    } else if Settable(t, DESKTOP) {
      PinsLoad(t, doc, doc, DESKTOP, pins);
      PinsKeepSpot(t, doc, DESKTOP, pins);
    } else if Swallows(t, DESKTOP) {
      PinsSwallowed(t, doc, DESKTOP, pins);
    } else {
      PinsDoom(t, doc, DESKTOP, pins);
    }
  }

  lemma {:induction false} AfterFirstFits(doc: Doc, pins: seq<Pin>, s: string)
    requires OneSection(pins, s)
    ensures OneSection(AfterFirst(doc, pins), s)
    decreases |pins|
  {
    if pins != [] {
      assert forall i :: 0 <= i < |pins[1..]| ==> pins[1..][i] == pins[i + 1];
      if pins[0].key in Get(doc, s) {
        AfterFirstFits(doc, pins[1..], s);
      }
    }
  }

  lemma WrittenAreForTheDesktop(t: Lines, doc: Doc, start: int)
    ensures OneSection(PinsWritten(t, doc, start), DESKTOP)
  {
    PinsAreForTheDesktop(start + 1);
    AfterFirstFits(doc, PinsSince(start + 1), DESKTOP);
  }

  lemma {:induction false} DefaultsKeepOthers(doc: Doc, pins: seq<Pin>, s: string, section: string)
    requires OneSection(pins, s) && section != s
    ensures Get(Defaults(doc, pins), section) == Get(doc, section)
    ensures section in Defaults(doc, pins) <==> section in doc
    decreases |pins|
  {
    if pins != [] {
      var p := pins[0];
      assert forall i :: 0 <= i < |pins[1..]| ==> pins[1..][i] == pins[i + 1];
      DefaultsKeepOthers(if p.key in Get(doc, p.section) then doc else Put(doc, p.section, p.key, p.value), pins[1..], s, section);
    }
  }

  /** Everything set before is set after. */
  ghost predicate Wider(doc: Doc, more: Doc) {
    forall s, k :: k in Get(doc, s) ==> k in Get(more, s)
  }

  lemma {:induction false} DefaultsFill(doc: Doc, pins: seq<Pin>)
    ensures Wider(doc, Defaults(doc, pins)) && !NeedsPin(Defaults(doc, pins), pins)
    decreases |pins|
  {
    if pins != [] {
      var p := pins[0];
      DefaultsFill(if p.key in Get(doc, p.section) then doc else Put(doc, p.section, p.key, p.value), pins[1..]);
    }
  }

  lemma {:induction false} WiderNeedsNoMore(doc: Doc, more: Doc, pins: seq<Pin>)
    requires Wider(doc, more) && !NeedsPin(doc, pins)
    ensures !NeedsPin(more, pins)
    decreases |pins|
  {
    if pins != [] {
      WiderNeedsNoMore(doc, more, pins[1..]);
    }
  }

  /** What the migrated text loads as. */
  function Outcome(t: Lines, doc: Doc, start: int): Doc {
    var d := Defaults(doc, PinsWritten(t, doc, start));
    if VERSION_KEY !in Get(doc, TOP) then Put(d, TOP, VERSION_KEY, CURRENT)
    else match Spot(t, TOP)
      case None => d
      case Some((s, _)) => Put(d, s, VERSION_KEY, CURRENT)
  }

  lemma OutLoads(t: Lines, doc: Doc, asInt: string -> Option<int>)
    requires Load(t) == Some(doc) && FileVersion(doc, asInt) < CONFIG_VERSION
    ensures Migrate(t, asInt).Ok? <==> Migratable(t, doc, FileVersion(doc, asInt))
    ensures Migrate(t, asInt).Ok? ==> Load(Migrate(t, asInt).value.0) == Some(Outcome(t, doc, FileVersion(doc, asInt)))
  {
    var start := FileVersion(doc, asInt);
    var pinned := PinLines(t, doc, PinsSince(start + 1));
    PinnedLoads(t, doc, start);
    if Migratable(t, doc, start) {
      WrittenAreForTheDesktop(t, doc, start);
      DefaultsKeepOthers(doc, PinsWritten(t, doc, start), DESKTOP, TOP);
      SetVersionLoads(pinned, TOP, map[TOP := map[]]);
      if VERSION_KEY !in Get(doc, TOP) {
        StampLoads(pinned, Defaults(doc, PinsWritten(t, doc, start)));
      }
    } else {
      VersionKeepsDoom(pinned);
      DoomedDoesNotLoad(SetVersion(pinned));
      DoomedDoesNotLoad(Stamped(pinned));
    }
  }

  /** Migrating fails exactly for a text that does not load, or that needs an old default
      written out and has no `[desktop]` header the pattern finds, yet has another, or has one
      without a comment at its very end and no newline behind it. */
  lemma MigrationFailsExactly(t: Lines, asInt: string -> Option<int>)
    ensures Migrate(t, asInt).Ok? <==> Load(t).Some? && Migratable(t, Load(t).value, FileVersion(Load(t).value, asInt))
  {
    if Load(t).Some? && FileVersion(Load(t).value, asInt) < CONFIG_VERSION {
      OutLoads(t, Load(t).value, asInt);
    }
  }

  /** The version pattern strikes a setting of some table instead of the file's version. */
  predicate StrikesElsewhere(t: Lines, doc: Doc, start: int) {
    && start < CONFIG_VERSION && VERSION_KEY in Get(doc, TOP)
    && Spot(t, TOP).Some? && Spot(t, TOP).value.0 != TOP && Spot(t, TOP).value.1 != CURRENT
  }

  lemma ForgetPut(d: Doc, v: string)
    ensures Forget(Put(d, TOP, VERSION_KEY, v), TOP, VERSION_KEY) == Forget(d, TOP, VERSION_KEY)
  {
    assert Get(d, TOP)[VERSION_KEY := v] - {VERSION_KEY} == Get(d, TOP) - {VERSION_KEY};
  }

  lemma ForgetElsewhere(d: Doc, s: string, k: string, v: string)
    requires s in d && s != TOP && k in d[s]
    ensures Forget(Put(d, s, k, v), TOP, VERSION_KEY) == Forget(d, TOP, VERSION_KEY) <==> d[s][k] == v
  {
    var (a, b) := (Forget(Put(d, s, k, v), TOP, VERSION_KEY), Forget(d, TOP, VERSION_KEY));
    assert a[s][k] == v && b[s][k] == d[s][k];
    if d[s][k] == v {
      assert d[s][k := v] == d[s];
      assert Put(d, s, k, v) == d;
    }
  }

  lemma DefaultsAgain(d: Doc, more: Doc, pins: seq<Pin>)
    requires Wider(Defaults(d, pins), more)
    ensures Defaults(more, pins) == more && !NeedsPin(more, pins)
  {
    DefaultsFill(d, pins);
    WiderNeedsNoMore(Defaults(d, pins), more, pins);
    NothingNeeded([EMPTY], more, more, pins);
  }

  /** A setting none of the pins is about goes through the defaults unchanged. */
  lemma {:induction false} DefaultsPut(d: Doc, pins: seq<Pin>, s: string, k: string, v: string)
    requires forall i :: 0 <= i < |pins| ==> pins[i].section != s || pins[i].key != k
    ensures Defaults(Put(d, s, k, v), pins) == Put(Defaults(d, pins), s, k, v)
    ensures k in Get(Defaults(d, pins), s) <==> k in Get(d, s)
    decreases |pins|
  {
    if pins != [] {
      var p := pins[0];
      assert forall i :: 0 <= i < |pins[1..]| ==> pins[1..][i] == pins[i + 1];
      PutsCommute(d, s, k, v, p.section, p.key, p.value);
      DefaultsPut(if p.key in Get(d, p.section) then d else Put(d, p.section, p.key, p.value), pins[1..], s, k, v);
    }
  }

  /** The key of the first needed pin stays unset by the others, and filling in all defaults
      afterwards gives what filling them in at once gives. */
  lemma {:induction false} LaterFilled(doc: Doc, s: string, pins: seq<Pin>) returns (lost: Pin)
    requires OneSection(pins, s) && NeedsPin(doc, pins)
    ensures lost in pins && lost.section == s && lost.key !in Get(Defaults(doc, AfterFirst(doc, pins)), s)
    ensures Defaults(Defaults(doc, AfterFirst(doc, pins)), pins) == Defaults(doc, pins)
    decreases |pins|
  {
    var p := pins[0];
    var rest := pins[1..];
    assert forall i :: 0 <= i < |rest| ==> rest[i] == pins[i + 1];
    if p.key in Get(doc, s) {
      lost := LaterFilled(doc, s, rest);
      DefaultsFill(doc, AfterFirst(doc, rest));
      assert p.key in Get(Defaults(doc, AfterFirst(doc, rest)), s);
    } else {
      lost := p;
      DefaultsPut(doc, rest, s, p.key, p.value);
      DefaultsAgain(Put(doc, s, p.key, p.value), Defaults(Put(doc, s, p.key, p.value), rest), rest);
    }
  }

  lemma {:induction false} NeededIsNeeded(doc: Doc, pins: seq<Pin>, p: Pin)
    requires p in pins && p.key !in Get(doc, p.section)
    ensures NeedsPin(doc, pins)
    decreases |pins|
  {
    if p != pins[0] {
      NeededIsNeeded(doc, pins[1..], p);
    }
  }

  lemma SpotIsThere(t: Lines, doc: Doc, start: int)
    requires Load(t) == Some(doc) && Spot(t, TOP).Some?
    ensures var (s, v) := Spot(t, TOP).value;
            var d := Defaults(doc, PinsSince(start + 1));
            s in d && VERSION_KEY in d[s] && d[s][VERSION_KEY] == v
  {
    var s := Spot(t, TOP).value.0;
    PinsAreForTheDesktop(start + 1);
    SetVersionLoads(t, TOP, map[TOP := map[]]);
    DefaultsKeepKeys(doc, PinsSince(start + 1), s, VERSION_KEY);
  }

  lemma {:induction false} DefaultsKeepKeys(doc: Doc, pins: seq<Pin>, s: string, k: string)
    requires s in doc && k in doc[s]
    ensures s in Defaults(doc, pins) && k in Defaults(doc, pins)[s] && Defaults(doc, pins)[s][k] == doc[s][k]
    decreases |pins|
  {
    if pins != [] {
      var p := pins[0];
      DefaultsKeepKeys(if p.key in Get(doc, p.section) then doc else Put(doc, p.section, p.key, p.value), pins[1..], s, k);
    }
  }

  /** Does the migrated file say the current version? */
  predicate SaysCurrent(t: Lines, doc: Doc) {
    VERSION_KEY !in Get(doc, TOP) || (Spot(t, TOP).Some? && Spot(t, TOP).value.0 == TOP)
  }

  lemma OutcomeVersion(t: Lines, doc: Doc, asInt: string -> Option<int>)
    requires Load(t) == Some(doc) && asInt(CURRENT) == Some(CONFIG_VERSION)
    ensures var start := FileVersion(doc, asInt);
            var after := Outcome(t, doc, start);
            FileVersion(after, asInt) == (if SaysCurrent(t, doc) then CONFIG_VERSION else start)
            && (!SaysCurrent(t, doc) ==> VERSION_KEY in Get(after, TOP))
  {
    var start := FileVersion(doc, asInt);
    WrittenAreForTheDesktop(t, doc, start);
    DefaultsKeepOthers(doc, PinsWritten(t, doc, start), DESKTOP, TOP);
  }

  lemma FilledDesktop(t: Lines, doc: Doc, start: int)
    ensures var pins := PinsSince(start + 1);
            Defaults(Defaults(doc, PinsWritten(t, doc, start)), pins) == Defaults(doc, pins)
    ensures var pins := PinsSince(start + 1);
            Forget(Defaults(doc, PinsWritten(t, doc, start)), TOP, VERSION_KEY) == Forget(Defaults(doc, pins), TOP, VERSION_KEY)
            <==> !Loses(t, doc, start)
  {
    var pins := PinsSince(start + 1);
    PinsAreForTheDesktop(start + 1);
    if Loses(t, doc, start) {
      var lost := LaterFilled(doc, DESKTOP, pins);
      DefaultsFill(doc, pins);
      FilledHas(Defaults(doc, pins), pins, lost);
      var a := Forget(Defaults(doc, PinsWritten(t, doc, start)), TOP, VERSION_KEY);
      var b := Forget(Defaults(doc, pins), TOP, VERSION_KEY);
      assert lost.key !in Get(a, DESKTOP) && lost.key in Get(b, DESKTOP);
    } else {
      DefaultsAgain(doc, Defaults(doc, pins), pins);
    }
  }

  lemma {:induction false} FilledHas(d: Doc, pins: seq<Pin>, p: Pin)
    requires !NeedsPin(d, pins) && p in pins
    ensures p.key in Get(d, p.section)
    decreases |pins|
  {
    if p != pins[0] {
      FilledHas(d, pins[1..], p);
    }
  }

  /** What the migrated text means, given what it loads as. */
  function Meaning(t: Lines, doc: Doc, start: int): Doc {
    var d := Defaults(doc, PinsSince(start + 1));
    if SaysCurrent(t, doc) then Forget(Defaults(doc, PinsWritten(t, doc, start)), TOP, VERSION_KEY)
    else match Spot(t, TOP)
      case None => Forget(d, TOP, VERSION_KEY)
      case Some((s, _)) => Forget(Put(d, s, VERSION_KEY, CURRENT), TOP, VERSION_KEY)
  }

  /** The settings of what a migrated text loads as. */
  lemma OutcomeMeans(t: Lines, doc: Doc, asInt: string -> Option<int>)
    requires Load(t) == Some(doc) && asInt(CURRENT) == Some(CONFIG_VERSION) && FileVersion(doc, asInt) < CONFIG_VERSION
    ensures var start := FileVersion(doc, asInt);
            var after := Outcome(t, doc, start);
            Forget(Defaults(after, PinsSince(FileVersion(after, asInt) + 1)), TOP, VERSION_KEY) == Meaning(t, doc, start)
  {
    var start := FileVersion(doc, asInt);
    OutcomeVersion(t, doc, asInt);
    if SaysCurrent(t, doc) {
      ForgetPut(Defaults(doc, PinsWritten(t, doc, start)), CURRENT);
      assert PinsSince(CONFIG_VERSION + 1) == [];
    } else {
      OldOutcomeMeans(t, doc, start);
    }
  }

  lemma OldOutcomeMeans(t: Lines, doc: Doc, start: int)
    requires !SaysCurrent(t, doc)
    ensures Forget(Defaults(Outcome(t, doc, start), PinsSince(start + 1)), TOP, VERSION_KEY) == Meaning(t, doc, start)
  {
    FilledDesktop(t, doc, start);
    PinsAreForTheDesktop(start + 1);
    if Spot(t, TOP).Some? {
      DefaultsPut(Defaults(doc, PinsWritten(t, doc, start)), PinsSince(start + 1), Spot(t, TOP).value.0, VERSION_KEY, CURRENT);
    }
  }

  lemma MeaningCompared(t: Lines, doc: Doc, start: int)
    requires Load(t) == Some(doc) && start < CONFIG_VERSION
    ensures Meaning(t, doc, start) == Forget(Defaults(doc, PinsSince(start + 1)), TOP, VERSION_KEY)
            <==> !StrikesElsewhere(t, doc, start) && !(Loses(t, doc, start) && SaysCurrent(t, doc))
  {
    if SaysCurrent(t, doc) {
      FilledDesktop(t, doc, start);
    } else if Spot(t, TOP).Some? {
      SpotIsThere(t, doc, start);
      ForgetElsewhere(Defaults(doc, PinsSince(start + 1)), Spot(t, TOP).value.0, VERSION_KEY, CURRENT);
    }
  }

  /** Migration keeps the meaning of a file, default values included: a migrated text has the
      settings the original has under the defaults of its own version. There are two exceptions.
      A default is lost when the text ends in a commented `[desktop]` header without a newline
      behind it and gets the current version. And a `config_version` setting of some table is
      overwritten when the pattern cannot see the file's own. */
  lemma MigrationKeepsTheSettings(t: Lines, asInt: string -> Option<int>)
    requires Migrate(t, asInt).Ok? && asInt(CURRENT) == Some(CONFIG_VERSION)
    ensures var doc := Load(t).value;
            var start := FileVersion(doc, asInt);
            Settings(Migrate(t, asInt).value.0, asInt) == Settings(t, asInt)
            <==> !StrikesElsewhere(t, doc, start) && !(Loses(t, doc, start) && SaysCurrent(t, doc))
  {
    var doc := Load(t).value;
    var start := FileVersion(doc, asInt);
    if start < CONFIG_VERSION {
      OutLoads(t, doc, asInt);
      MeaningOf(t, doc, asInt, Migrate(t, asInt).value.0);
      MeaningCompared(t, doc, start);
    }
  }

  lemma MeaningOf(t: Lines, doc: Doc, asInt: string -> Option<int>, out: seq<Line>)
    requires Load(t) == Some(doc) && asInt(CURRENT) == Some(CONFIG_VERSION) && FileVersion(doc, asInt) < CONFIG_VERSION
    requires Load(out) == Some(Outcome(t, doc, FileVersion(doc, asInt)))
    ensures Settings(out, asInt) == Some(Meaning(t, doc, FileVersion(doc, asInt)))
  {
    OutcomeMeans(t, doc, asInt);
  }

  // ------------------------------------------------------- texts that fail

  lemma LoadsEmpty(header: Line, s: string)
    requires header.Table? && header.name == s && s != TOP
    ensures Load([header]) == Some(map[TOP := map[]][s := map[]])
  {
    var made: Doc := map[TOP := map[]][s := map[]];
    assert [header][1..] == [];
    assert Run([header][1..], s, made) == Some(made);
  }

  lemma DesktopNeedsPins(doc: Doc)
    requires Get(doc, DESKTOP) == map[]
    ensures NeedsPin(doc, PinsSince(2))
  {
    PinsSinceAre(2);
    PinsAreForTheDesktop(2);
    assert PinsSince(2)[0].section == DESKTOP;
  }

  lemma OneHeader(header: Line, asInt: string -> Option<int>)
    requires header.Table? && header.name == DESKTOP && header.plain
    ensures var doc := map[TOP := map[]][DESKTOP := map[]];
            && Load([header]) == Some(doc) && FileVersion(doc, asInt) == 1 && NeedsPin(doc, PinsSince(2))
            && VERSION_KEY !in Get(doc, TOP) && FirstHeader([header], DESKTOP) == Some(0)
  {
    LoadsEmpty(header, DESKTOP);
    var doc: Doc := map[TOP := map[]][DESKTOP := map[]];
    assert Get(doc, TOP) == map[] && Get(doc, DESKTOP) == map[];
    DesktopNeedsPins(doc);
  }

  /** The text `[desktop] # note`, without a newline, migrates, loses a default and with it the
      meaning it had, and its header line is changed. */
  lemma CommentedHeaderLosesADefault(asInt: string -> Option<int>)
    requires asInt(CURRENT) == Some(CONFIG_VERSION)
    ensures var t := [Table(DESKTOP, true, "# note")];
            && Migrate(t, asInt).Ok?
            && Settings(Migrate(t, asInt).value.0, asInt) != Settings(t, asInt)
            && !Within(OtherLines(t), Migrate(t, asInt).value.0)
  {
    var t := [Table(DESKTOP, true, "# note")];
    OneHeader(t[0], asInt);
    MigrationFailsExactly(t, asInt);
    MigrationKeepsTheSettings(t, asInt);
    OtherLinesSurvive(t, asInt);
  }

  /** With the version quoted in the line above, the same header makes a file that a second
      migration changes again. */
  lemma CommentedHeaderIsNotSettled(one: string, asInt: string -> Option<int>)
    requires asInt(CURRENT) == Some(CONFIG_VERSION) && asInt(one) == Some(1)
    ensures var t := [Setting(VERSION_KEY, one, false)] + [Table(DESKTOP, true, "# note")];
            && Migrate(t, asInt).Ok? && Migrate(t, asInt).value.0 != []
            && Migrate(Migrate(t, asInt).value.0, asInt).Ok?
            && Migrate(Migrate(t, asInt).value.0, asInt).value.0 != Migrate(t, asInt).value.0
  {
    var header := [Table(DESKTOP, true, "# note")];
    var t := [Setting(VERSION_KEY, one, false)] + header;
    var top: Doc := map[TOP := map[VERSION_KEY := one]];
    var doc := top[DESKTOP := map[]];
    assert t[1..] == header && header[1..] == [];
    assert Put(map[TOP := map[]], TOP, VERSION_KEY, one) == top;
    assert Run([], DESKTOP, doc) == Some(doc);
    assert Run(header, TOP, top) == Some(doc);
    assert Load(t) == Some(doc) && FileVersion(doc, asInt) == 1;
    assert Spot(header, TOP).None? && Spot(t, TOP).None?;
    assert FirstHeader(header, DESKTOP) == Some(0) && FirstHeader(t, DESKTOP) == Some(1);
    assert Get(doc, DESKTOP) == map[];
    DesktopNeedsPins(doc);
    MigrationFailsExactly(t, asInt);
    MigratingAgainChangesNothing(t, asInt);
  }

  /** The text `[desktop]`, without a newline, does not migrate. */
  lemma BareHeaderFails(asInt: string -> Option<int>)
    ensures var t := [Table(DESKTOP, true, "")];
            Load(t).Some? && Migrate(t, asInt).Err?
  {
    var t := [Table(DESKTOP, true, "")];
    OneHeader(t[0], asInt);
    MigrationFailsExactly(t, asInt);
  }

  /** A file whose own version is quoted, with a table `[a]` that has a setting of that name: it
      migrates, and the setting of the table is overwritten. */
  lemma AnotherVersionIsOverwritten(one: string, five: string, asInt: string -> Option<int>)
    requires asInt(CURRENT) == Some(CONFIG_VERSION) && asInt(one) == Some(1) && five != CURRENT
    ensures var t := QuotedVersion(one, five);
            Migrate(t, asInt).Ok? && Settings(Migrate(t, asInt).value.0, asInt) != Settings(t, asInt)
  {
    var t := QuotedVersion(one, five);
    QuotedVersionLoads(one, five);
    var doc := Load(t).value;
    assert FileVersion(doc, asInt) == 1;
    assert Settable(t, DESKTOP) by {
      QuotedVersionHasNoDesktop(one, five);
    }
    MigrationFailsExactly(t, asInt);
    MigrationKeepsTheSettings(t, asInt);
  }

  function QuotedVersion(one: string, five: string): Lines {
    [Setting(VERSION_KEY, one, false)] + ([Table("a", true, "")] + ([Setting(VERSION_KEY, five, true)] + [EMPTY]))
  }

  lemma QuotedVersionLoads(one: string, five: string)
    ensures var t := QuotedVersion(one, five);
            && Load(t) == Some(map[TOP := map[VERSION_KEY := one]]["a" := map[VERSION_KEY := five]])
            && Spot(t, TOP) == Some(("a", five))
  {
    var last := [Setting(VERSION_KEY, five, true)] + [EMPTY];
    var table := [Table("a", true, "")] + last;
    var t := [Setting(VERSION_KEY, one, false)] + table;
    assert t[1..] == table && table[1..] == last && last[1..] == [EMPTY] && [EMPTY][1..] == [];
    var top: Doc := map[TOP := map[VERSION_KEY := one]];
    assert Put(map[TOP := map[]], TOP, VERSION_KEY, one) == top;
    var made := top["a" := map[]];
    var full := top["a" := map[VERSION_KEY := five]];
    assert "a" !in top;
    assert Put(made, "a", VERSION_KEY, five) == full;
    assert Run([EMPTY], "a", full) == Some(full);
    assert Run(last, "a", made) == Some(full);
    assert Run(table, TOP, top) == Some(full);
    assert Spot(last, "a") == Some(("a", five));
    assert Spot(table, TOP) == Some(("a", five));
  }

  lemma QuotedVersionHasNoDesktop(one: string, five: string)
    ensures FirstHeader(QuotedVersion(one, five), DESKTOP).None? && Tables(QuotedVersion(one, five), DESKTOP) == 0
  {
    var last := [Setting(VERSION_KEY, five, true)] + [EMPTY];
    var table := [Table("a", true, "")] + last;
    var t := [Setting(VERSION_KEY, one, false)] + table;
    assert t[1..] == table && table[1..] == last && last[1..] == [EMPTY] && [EMPTY][1..] == [];
    assert |DESKTOP| == 7;
    assert FirstHeader([], DESKTOP).None? && Tables([], DESKTOP) == 0;
    assert FirstHeader([EMPTY], DESKTOP).None?;
    assert Tables([EMPTY], DESKTOP) == Tables([EMPTY][1..], DESKTOP);
    assert FirstHeader(last, DESKTOP).None? && Tables(last, DESKTOP) == 0;
    assert FirstHeader(table, DESKTOP).None? && Tables(table, DESKTOP) == 0;
  }

  lemma {:induction false} SetVersionTwice(t: seq<Line>)
    ensures SetVersion(SetVersion(t)) == SetVersion(t)
  {
    if t != [] {
      SetVersionTwice(t[1..]);
      if t[0].Setting? && t[0].key == VERSION_KEY && t[0].plain {
        assert SetVersion(t)[1..] == t[1..];
      } else {
        assert SetVersion(t)[1..] == SetVersion(t[1..]);
      }
    }
  }

  /** A text that needs no default and whose version the pattern leaves alone stays as it is. */
  lemma SettledStays(out: Lines, doc: Doc, asInt: string -> Option<int>)
    requires Load(out) == Some(doc) && VERSION_KEY in Get(doc, TOP) && SetVersion(out) == out
    requires !NeedsPin(doc, PinsSince(FileVersion(doc, asInt) + 1))
    ensures Migrate(out, asInt).Ok? && Migrate(out, asInt).value.0 == out
  {
    NothingNeeded(out, doc, doc, PinsSince(FileVersion(doc, asInt) + 1));
  }

  lemma CurrentStays(out: Lines, doc: Doc, asInt: string -> Option<int>)
    requires Load(out) == Some(doc) && FileVersion(doc, asInt) >= CONFIG_VERSION
    ensures Migrate(out, asInt).Ok? && Migrate(out, asInt).value.0 == out
  {
  }

  lemma UpgradedIsSettled(t: Lines, doc: Doc, start: int)
    ensures Upgraded(t, doc, start) != []
    ensures VERSION_KEY in Get(doc, TOP) ==> SetVersion(Upgraded(t, doc, start)) == Upgraded(t, doc, start)
  {
    var pinned := PinLines(t, doc, PinsSince(start + 1));
    SetVersionLength(pinned);
    SetVersionTwice(pinned);
  }

  /** The text a file is given, and that its version line is settled. */
  lemma OutOf(t: Lines, doc: Doc, asInt: string -> Option<int>)
    requires Load(t) == Some(doc) && FileVersion(doc, asInt) < CONFIG_VERSION && Migrate(t, asInt).Ok?
    ensures var out := Migrate(t, asInt).value.0;
            out != [] && (VERSION_KEY in Get(doc, TOP) ==> SetVersion(out) == out)
  {
    MigratedText(t, doc, asInt);
    UpgradedIsSettled(t, doc, FileVersion(doc, asInt));
  }

  lemma OldMigratesForGood(t: Lines, doc: Doc, asInt: string -> Option<int>)
    requires Load(t) == Some(doc) && FileVersion(doc, asInt) < CONFIG_VERSION
    requires Migrate(t, asInt).Ok? && asInt(CURRENT) == Some(CONFIG_VERSION)
    requires !Loses(t, doc, FileVersion(doc, asInt)) || SaysCurrent(t, doc)
    ensures var out := Migrate(t, asInt).value.0;
            out != [] && Migrate(out, asInt).Ok? && Migrate(out, asInt).value.0 == out
  {
    var start := FileVersion(doc, asInt);
    var after := Outcome(t, doc, start);
    OutLoads(t, doc, asInt);
    OutOf(t, doc, asInt);
    OutcomeVersion(t, doc, asInt);
    if SaysCurrent(t, doc) {
      CurrentStays(Migrate(t, asInt).value.0, after, asInt);
    } else {
      OutcomeIsWide(t, doc, start);
      DefaultsAgain(doc, after, PinsSince(start + 1));
      SettledStays(Migrate(t, asInt).value.0, after, asInt);
    }
  }

  lemma OutcomeIsWide(t: Lines, doc: Doc, start: int)
    ensures Wider(Defaults(doc, PinsWritten(t, doc, start)), Outcome(t, doc, start))
  {
  }

  lemma {:induction false} SetVersionKeepsHeader(t: seq<Line>, s: string)
    ensures FirstHeader(SetVersion(t), s) == FirstHeader(t, s)
  {
    if t != [] {
      SetVersionKeepsHeader(t[1..], s);
      if t[0].Setting? && t[0].key == VERSION_KEY && t[0].plain {
        assert SetVersion(t)[1..] == t[1..];
      } else {
        assert SetVersion(t)[1..] == SetVersion(t[1..]);
      }
    }
  }

  lemma SetVersionStaysSettable(t: Lines, s: string)
    requires Settable(t, s)
    ensures SetVersion(t) != [] && Settable(SetVersion(t), s)
  {
    SetVersionLength(t);
    SetVersionKeepsHeader(t, s);
    SetVersionKeepsDoom(t, s);
  }

  lemma NextTime(out: Lines, after: Doc, asInt: string -> Option<int>)
    requires Load(out) == Some(after) && FileVersion(after, asInt) < CONFIG_VERSION && VERSION_KEY in Get(after, TOP)
    requires NeedsPin(after, PinsSince(FileVersion(after, asInt) + 1)) && Settable(out, DESKTOP)
    ensures Migrate(out, asInt).Ok? && |Migrate(out, asInt).value.0| > |out|
  {
    OutLoads(out, after, asInt);
    MigratedText(out, after, asInt);
    NextIsLonger(out, after, FileVersion(after, asInt));
  }

  lemma NextIsLonger(out: Lines, after: Doc, start: int)
    requires NeedsPin(after, PinsSince(start + 1)) && Settable(out, DESKTOP) && VERSION_KEY in Get(after, TOP)
    ensures |Upgraded(out, after, start)| > |out|
  {
    PinsAreForTheDesktop(start + 1);
    PinsStaySettable(out, after, DESKTOP, PinsSince(start + 1));
    SetVersionLength(PinLines(out, after, PinsSince(start + 1)));
  }

  lemma LosingLeaves(t: Lines, doc: Doc, asInt: string -> Option<int>)
    requires Load(t) == Some(doc) && Migrate(t, asInt).Ok?
    requires Loses(t, doc, FileVersion(doc, asInt)) && !SaysCurrent(t, doc)
    ensures var out := Migrate(t, asInt).value.0;
            out != [] && Settable(out, DESKTOP)
  {
    var pins := PinsSince(FileVersion(doc, asInt) + 1);
    PinsAreForTheDesktop(FileVersion(doc, asInt) + 1);
    PinsSwallowed(t, doc, DESKTOP, pins);
    SetVersionStaysSettable(PinLines(t, doc, pins), DESKTOP);
  }

  lemma LosingNeedsAgain(t: Lines, doc: Doc, start: int, after: Doc)
    requires Loses(t, doc, start) && after == Outcome(t, doc, start)
    ensures NeedsPin(after, PinsSince(start + 1))
  {
    var pins := PinsSince(start + 1);
    PinsAreForTheDesktop(start + 1);
    var lost := LaterFilled(doc, DESKTOP, pins);
    LostStaysLost(t, doc, start, lost);
    NeededIsNeeded(after, pins, lost);
  }

  /** A default that was lost in a file that keeps its old version is written the next time. */
  lemma LostIsWrittenNextTime(t: Lines, doc: Doc, asInt: string -> Option<int>)
    requires Load(t) == Some(doc) && FileVersion(doc, asInt) < CONFIG_VERSION
    requires Migrate(t, asInt).Ok? && asInt(CURRENT) == Some(CONFIG_VERSION)
    requires Loses(t, doc, FileVersion(doc, asInt)) && !SaysCurrent(t, doc)
    ensures var out := Migrate(t, asInt).value.0;
            out != [] && Migrate(out, asInt).Ok? && |Migrate(out, asInt).value.0| > |out|
  {
    OutLoads(t, doc, asInt);
    LosingLeaves(t, doc, asInt);
    LosingNext(t, doc, asInt, Migrate(t, asInt).value.0, Outcome(t, doc, FileVersion(doc, asInt)));
  }

  lemma LosingNext(t: Lines, doc: Doc, asInt: string -> Option<int>, out: Lines, after: Doc)
    requires Load(t) == Some(doc) && FileVersion(doc, asInt) < CONFIG_VERSION && asInt(CURRENT) == Some(CONFIG_VERSION)
    requires Loses(t, doc, FileVersion(doc, asInt)) && !SaysCurrent(t, doc)
    requires after == Outcome(t, doc, FileVersion(doc, asInt)) && Load(out) == Some(after) && Settable(out, DESKTOP)
    ensures Migrate(out, asInt).Ok? && |Migrate(out, asInt).value.0| > |out|
  {
    var start := FileVersion(doc, asInt);
    OutcomeVersion(t, doc, asInt);
    LosingNeedsAgain(t, doc, start, after);
    assert FileVersion(after, asInt) == start;
    NextTime(out, after, asInt);
  }

  lemma LostStaysLost(t: Lines, doc: Doc, start: int, lost: Pin)
    requires lost.key !in Get(Defaults(doc, PinsWritten(t, doc, start)), lost.section) && lost.key != VERSION_KEY
    ensures lost.key !in Get(Outcome(t, doc, start), lost.section)
  {
  }

  /** Migrating a migrated text changes nothing, unless a default was lost and the file still
      says its old version: then the next migration writes it. */
  lemma MigratingAgainChangesNothing(t: Lines, asInt: string -> Option<int>)
    requires Migrate(t, asInt).Ok? && asInt(CURRENT) == Some(CONFIG_VERSION)
    ensures var doc := Load(t).value;
            var out := Migrate(t, asInt).value.0;
            && out != [] && Migrate(out, asInt).Ok?
            && (Migrate(out, asInt).value.0 == out
                <==> !(Loses(t, doc, FileVersion(doc, asInt)) && !SaysCurrent(t, doc)))
  {
    var doc := Load(t).value;
    if FileVersion(doc, asInt) < CONFIG_VERSION {
      if Loses(t, doc, FileVersion(doc, asInt)) && !SaysCurrent(t, doc) {
        LostIsWrittenNextTime(t, doc, asInt);
      } else {
        OldMigratesForGood(t, doc, asInt);
      }
    }
  }

  // ------------------------------------------------------ surviving lines

  /** `a` can be had from `b` by leaving lines out. */
  ghost predicate Within(a: seq<Line>, b: seq<Line>) {
    a == [] || (b != [] && ((a[0] == b[0] && Within(a[1..], b[1..])) || Within(a, b[1..])))
  }

  lemma {:induction false} WithinSelf(a: seq<Line>)
    ensures Within(a, a)
  {
    if a != [] {
      WithinSelf(a[1..]);
    }
  }

  lemma {:induction false} WithinJoin(a: seq<Line>, b: seq<Line>, c: seq<Line>, d: seq<Line>)
    requires Within(a, b) && Within(c, d)
    ensures Within(a + c, b + d)
    decreases |a| + |b|
  {
    if b == [] {
      assert a + c == c && b + d == d;
    } else {
      assert (b + d)[1..] == b[1..] + d;
      if a == [] {
        assert a + c == c;
        WithinJoin(a, b[1..], c, d);
      } else if a[0] == b[0] && Within(a[1..], b[1..]) {
        WithinJoin(a[1..], b[1..], c, d);
        assert (a + c)[1..] == a[1..] + c;
      } else {
        WithinJoin(a, b[1..], c, d);
      }
    }
  }

  lemma {:induction false} WithinTrans(a: seq<Line>, b: seq<Line>, c: seq<Line>)
    requires Within(a, b) && Within(b, c)
    ensures Within(a, c)
    decreases |a| + |b| + |c|
  {
    if a != [] {
      if b[0] == c[0] && Within(b[1..], c[1..]) {
        if a[0] == b[0] && Within(a[1..], b[1..]) {
          WithinTrans(a[1..], b[1..], c[1..]);
        } else {
          WithinTrans(a, b[1..], c[1..]);
        }
      } else {
        WithinTrans(a, b, c[1..]);
      }
    }
  }

  predicate IsVersion(line: Line) {
    line.Setting? && line.key == VERSION_KEY && line.plain
  }

  /** The lines the version pattern does not match. */
  function OtherLines(t: seq<Line>): seq<Line> {
    if t == [] then [] else (if IsVersion(t[0]) then [] else [t[0]]) + OtherLines(t[1..])
  }

  lemma SetWithin(t: Lines, s: string, line: Line)
    requires Settable(t, s)
    ensures Within(t, SetInSection(t, s, line))
  {
    HeaderThere(t, s);
    var out := SetInSection(t, s, line);
    if FirstHeader(t, s).Some? {
      var i := FirstHeader(t, s).value;
      var (a, b) := (t[..i + 1], t[i + 1..]);
      WithinSelf(a);
      WithinSelf(b);
      assert Within([], [line]);
      WithinJoin(a, a, [], [line]);
      WithinJoin(a + [], a + [line], b, b);
      assert t == a + [] + b;
    } else {
      var front := if t[|t| - 1] == EMPTY then t[..|t| - 1] else t;
      var rest := if t[|t| - 1] == EMPTY then [EMPTY] else [];
      var all := [EMPTY, Header(s), line, EMPTY];
      WithinSelf(front);
      assert [EMPTY][1..] == [];
      assert Within(rest, all);
      WithinJoin(front, front, rest, all);
      assert t == front + rest;
    }
  }

  lemma {:induction false} PinsWithin(t: Lines, doc: Doc, s: string, pins: seq<Pin>)
    requires OneSection(pins, s) && (NeedsPin(doc, pins) ==> Settable(t, s))
    ensures Within(t, PinLines(t, doc, pins))
    decreases |pins|
  {
    if pins == [] {
      WithinSelf(t);
    } else {
      var p := pins[0];
      assert forall i :: 0 <= i < |pins[1..]| ==> pins[1..][i] == pins[i + 1];
      if p.key in Get(doc, s) {
        PinsWithin(t, doc, s, pins[1..]);
      } else {
        var line := Setting(p.key, p.value, true);
        SetWithin(t, s, line);
        SettableAgain(t, s, line);
        PinsWithin(SetInSection(t, s, line), doc, s, pins[1..]);
        WithinTrans(t, SetInSection(t, s, line), PinLines(t, doc, pins));
      }
    }
  }

  lemma {:induction false} OthersWithin(a: seq<Line>, b: seq<Line>)
    requires Within(a, b)
    ensures Within(OtherLines(a), OtherLines(b))
    decreases |b|
  {
    if a != [] {
      if a[0] == b[0] && Within(a[1..], b[1..]) {
        OthersWithin(a[1..], b[1..]);
        WithinSelf([a[0]]);
        if IsVersion(a[0]) {
          assert OtherLines(a) == OtherLines(a[1..]) && OtherLines(b) == OtherLines(b[1..]);
        } else {
          WithinJoin([a[0]], [b[0]], OtherLines(a[1..]), OtherLines(b[1..]));
        }
      } else {
        OthersWithin(a, b[1..]);
        assert Within([], [b[0]]);
        WithinJoin([], if IsVersion(b[0]) then [] else [b[0]], OtherLines(a), OtherLines(b[1..]));
        assert [] + OtherLines(a) == OtherLines(a);
      }
    }
  }

  lemma {:induction false} OthersAreThere(t: seq<Line>)
    ensures Within(OtherLines(t), t) && OtherLines(SetVersion(t)) == OtherLines(t)
  {
    if t != [] {
      OthersAreThere(t[1..]);
      if IsVersion(t[0]) {
        assert SetVersion(t)[1..] == t[1..];
        assert OtherLines(t) == OtherLines(t[1..]);
      } else {
        assert SetVersion(t)[1..] == SetVersion(t[1..]);
        assert OtherLines(t)[1..] == OtherLines(t[1..]);
      }
    }
  }

  /** The version pattern changes at most one line, the first it matches. */
  lemma {:induction false} OneVersionLineChanges(t: seq<Line>, i: nat)
    requires i < |t|
    ensures |SetVersion(t)| == |t|
    ensures SetVersion(t)[i] == if IsVersion(t[i]) && OtherLines(t[..i]) == t[..i] then Setting(VERSION_KEY, CURRENT, true) else t[i]
  {
    SetVersionLength(t);
    if IsVersion(t[0]) {
      assert SetVersion(t)[1..] == t[1..];
      if i > 0 {
        OthersAreFewer(t[..i][1..]);
      }
    } else if i > 0 {
      OneVersionLineChanges(t[1..], i - 1);
      assert t[..i][1..] == t[1..][..i - 1];
      assert [t[0]] + t[1..][..i - 1] == t[..i];
      assert ([t[0]] + OtherLines(t[1..][..i - 1]))[1..] == OtherLines(t[1..][..i - 1]);
      assert SetVersion(t)[1..] == SetVersion(t[1..]);
    }
  }

  lemma {:induction false} OthersAreFewer(t: seq<Line>)
    ensures |OtherLines(t)| <= |t|
  {
    if t != [] {
      OthersAreFewer(t[1..]);
    }
  }

  lemma LinesSurvivePinning(t: Lines, doc: Doc, version: int)
    requires NeedsPin(doc, PinsSince(version)) ==> Settable(t, DESKTOP)
    ensures Within(OtherLines(t), OtherLines(PinLines(t, doc, PinsSince(version))))
  {
    PinsAreForTheDesktop(version);
    PinsWithin(t, doc, DESKTOP, PinsSince(version));
    OthersWithin(t, PinLines(t, doc, PinsSince(version)));
  }

  lemma {:induction false} WithinMembers(a: seq<Line>, b: seq<Line>, x: Line)
    requires Within(a, b) && x in a
    ensures x in b
    decreases |b|
  {
    if a[0] == b[0] && Within(a[1..], b[1..]) {
      if x != a[0] {
        WithinMembers(a[1..], b[1..], x);
      }
    } else {
      WithinMembers(a, b[1..], x);
    }
  }

  lemma {:induction false} OthersHold(t: seq<Line>, x: Line)
    requires x in t && !IsVersion(x)
    ensures x in OtherLines(t)
  {
    if x != t[0] {
      OthersHold(t[1..], x);
    }
  }

  lemma {:induction false} TwoTables(t: seq<Line>, x: Line, y: Line)
    requires x in t && y in t && x != y && x.Table? && y.Table? && x.name == y.name
    ensures Tables(t, x.name) >= 2
  {
    if t[0] == x {
      OneTable(t[1..], y);
    } else if t[0] == y {
      OneTable(t[1..], x);
    } else {
      TwoTables(t[1..], x, y);
    }
  }

  lemma {:induction false} OneTable(t: seq<Line>, x: Line)
    requires x in t && x.Table?
    ensures Tables(t, x.name) >= 1
  {
    if t[0] != x {
      OneTable(t[1..], x);
    }
  }

  /** Behind a comment in the way the lines in front survive, and so does the header with the
      lost setting in its comment. */
  lemma {:induction false} LinesSurviveSwallowing(t: Lines, doc: Doc, s: string, pins: seq<Pin>) returns (glued: Line)
    requires OneSection(pins, s) && Swallows(t, s) && NeedsPin(doc, pins)
    ensures var (front, last) := (t[..|t| - 1], t[|t| - 1]);
            && glued.Table? && IsHeader(last, s) && glued.name == s && glued != last
            && Within(OtherLines(front + [glued]), OtherLines(PinLines(t, doc, pins)))
    decreases |pins|
  {
    var p := pins[0];
    assert forall i :: 0 <= i < |pins[1..]| ==> pins[1..][i] == pins[i + 1];
    if p.key in Get(doc, s) {
      glued := LinesSurviveSwallowing(t, doc, s, pins[1..]);
    } else {
      var line := Setting(p.key, p.value, true);
      var front, last := t[..|t| - 1], t[|t| - 1];
      SwallowIs(t, s, line);
      glued := Glued(last, line);
      assert |glued.comment| > |last.comment|;
      var next := SetInSection(t, s, line);
      WithinSelf(front + [glued]);
      assert Within([], [EMPTY]);
      WithinJoin(front + [glued], front + [glued], [], [EMPTY]);
      assert (front + [glued]) + [] == front + [glued] && (front + [glued]) + [EMPTY] == next;
      SwallowSettable(t, s, line);
      PinsWithin(next, doc, s, pins[1..]);
      WithinTrans(front + [glued], next, PinLines(next, doc, pins[1..]));
      OthersWithin(front + [glued], PinLines(next, doc, pins[1..]));
    }
  }

  lemma LinesSurviveTheVersion(lines: seq<Line>, pinned: seq<Line>)
    requires Within(lines, OtherLines(pinned))
    ensures Within(lines, SetVersion(pinned)) && Within(lines, Stamped(pinned))
  {
    OthersAreThere(pinned);
    OthersAreThere(SetVersion(pinned));
    WithinTrans(lines, OtherLines(pinned), SetVersion(pinned));
    WithinTrans(lines, OtherLines(pinned), pinned);
    var stamp := [COMMENT, Setting(VERSION_KEY, CURRENT, true), EMPTY];
    assert Within([], stamp);
    WithinJoin([], stamp, lines, pinned);
    assert [] + lines == lines;
  }

  lemma GluedSurvives(t: Lines, doc: Doc, start: int) returns (glued: Line, kept: seq<Line>)
    requires Loses(t, doc, start)
    ensures var last := t[|t| - 1];
            && glued.Table? && last.Table? && glued.name == last.name && glued != last
            && kept == t[..|t| - 1] + [glued] && Within(OtherLines(kept), Upgraded(t, doc, start))
  {
    PinsAreForTheDesktop(start + 1);
    glued := LinesSurviveSwallowing(t, doc, DESKTOP, PinsSince(start + 1));
    kept := t[..|t| - 1] + [glued];
    LinesSurviveTheVersion(OtherLines(kept), PinLines(t, doc, PinsSince(start + 1)));
  }

  /** Two headers of one table are not in one text that loads. */
  lemma HeaderIsReplaced(t: seq<Line>, kept: seq<Line>, last: Line, glued: Line, out: seq<Line>)
    requires glued.Table? && last.Table? && glued.name == last.name && glued != last
    requires last in t && glued in kept && Within(OtherLines(kept), out) && Load(out).Some?
    ensures !Within(OtherLines(t), out)
  {
    OthersHold(kept, glued);
    WithinMembers(OtherLines(kept), out, glued);
    if Within(OtherLines(t), out) {
      OthersHold(t, last);
      WithinMembers(OtherLines(t), out, last);
      TwoTables(out, last, glued);
      LoadedTables(out, TOP, map[TOP := map[]], last.name);
    }
  }

  lemma PartSurvives(part: seq<Line>, of: seq<Line>, out: seq<Line>)
    requires Within(part, of) && Within(OtherLines(of), out)
    ensures Within(OtherLines(part), out)
  {
    OthersWithin(part, of);
    WithinTrans(OtherLines(part), OtherLines(of), out);
  }

  lemma WithinMore(front: seq<Line>, more: seq<Line>)
    ensures Within(front, front + more)
  {
    WithinSelf(front);
    assert Within([], more);
    WithinJoin(front, front, [], more);
    assert front + [] == front;
  }

  /** All lines of a migrated file but its version line survive, in order, exactly unless a
      default is lost in the comment of the header at the end; then the others do. */
  lemma OtherLinesSurvive(t: Lines, asInt: string -> Option<int>)
    requires Migrate(t, asInt).Ok?
    ensures var doc := Load(t).value;
            var out := Migrate(t, asInt).value.0;
            && (Within(OtherLines(t), out) <==> !Loses(t, doc, FileVersion(doc, asInt)))
            && Within(OtherLines(t[..|t| - 1]), out)
  {
    var doc := Load(t).value;
    var start := FileVersion(doc, asInt);
    MigrationFailsExactly(t, asInt);
    MigratedText(t, doc, asInt);
    if start < CONFIG_VERSION {
      OutLoads(t, doc, asInt);
    }
    LinesOf(t, doc, start, t[..|t| - 1], Migrate(t, asInt).value.0);
  }

  lemma LosingLines(t: Lines, doc: Doc, start: int, front: seq<Line>, out: seq<Line>)
    requires Loses(t, doc, start) && front == t[..|t| - 1] && out == Upgraded(t, doc, start) && Load(out).Some?
    ensures !Within(OtherLines(t), out)
    ensures Within(OtherLines(front), out)
  {
    var glued, kept := GluedSurvives(t, doc, start);
    HeaderIsReplaced(t, kept, t[|t| - 1], glued, out);
    WithinMore(front, [glued]);
    PartSurvives(front, kept, out);
  }

  lemma FrontWithin(t: Lines, front: seq<Line>)
    requires front == t[..|t| - 1]
    ensures Within(front, t)
  {
    WithinMore(front, [t[|t| - 1]]);
    assert front + [t[|t| - 1]] == t;
  }

  lemma KeepingLines(t: Lines, doc: Doc, start: int, front: seq<Line>, out: seq<Line>)
    requires Migratable(t, doc, start) && !Loses(t, doc, start) && Within(front, t)
    requires out == if start >= CONFIG_VERSION then t else Upgraded(t, doc, start)
    ensures Within(OtherLines(t), out)
    ensures Within(OtherLines(front), out)
  {
    SurviveOutright(t, doc, start, out);
    PartSurvives(front, t, out);
  }

  lemma LinesOf(t: Lines, doc: Doc, start: int, front: seq<Line>, out: seq<Line>)
    requires Migratable(t, doc, start) && Load(out).Some? && front == t[..|t| - 1]
    requires out == if start >= CONFIG_VERSION then t else Upgraded(t, doc, start)
    ensures Within(OtherLines(t), out) <==> !Loses(t, doc, start)
    ensures Within(OtherLines(front), out)
  {
    if Loses(t, doc, start) {
      LosingLines(t, doc, start, front, out);
    } else {
      FrontWithin(t, front);
      KeepingLines(t, doc, start, front, out);
    }
  }

  lemma SurviveOutright(t: Lines, doc: Doc, start: int, out: seq<Line>)
    requires Migratable(t, doc, start) && !Loses(t, doc, start)
    requires out == if start >= CONFIG_VERSION then t else Upgraded(t, doc, start)
    ensures Within(OtherLines(t), out)
  {
    if start < CONFIG_VERSION {
      LinesSurvivePinning(t, doc, start + 1);
      LinesSurviveTheVersion(OtherLines(t), PinLines(t, doc, PinsSince(start + 1)));
    } else {
      OthersAreThere(t);
    }
  }
}

/** The migration as the program runs it, version by version and pin by pin. */
module MigrationLoops {
  import opened Wrappers
  import opened Migration

  lemma {:induction false} PinsInTwo(t: Lines, doc: Doc, a: seq<Pin>, b: seq<Pin>)
    ensures PinLines(t, doc, a + b) == PinLines(PinLines(t, doc, a), doc, b)
    decreases |a|
  {
    if a == [] {
      assert a + b == b;
    } else {
      var p := a[0];
      assert (a + b)[1..] == a[1..] + b;
      PinsInTwo(if p.key in Get(doc, p.section) then t else SetInSection(t, p.section, Setting(p.key, p.value, true)), doc, a[1..], b);
    }
  }

  lemma {:induction false} DefaultsInTwo(doc: Doc, a: seq<Pin>, b: seq<Pin>)
    ensures Defaults(doc, a + b) == Defaults(Defaults(doc, a), b)
    decreases |a|
  {
    if a == [] {
      assert a + b == b;
    } else {
      var p := a[0];
      assert (a + b)[1..] == a[1..] + b;
      DefaultsInTwo(if p.key in Get(doc, p.section) then doc else Put(doc, p.section, p.key, p.value), a[1..], b);
    }
  }

  /** One version more. */
  lemma VersionByVersion(t: Lines, doc: Doc, d: Doc, version: int)
    requires version <= CONFIG_VERSION
    ensures PinLines(t, doc, PinsSince(version)) == PinLines(PinLines(t, doc, PinsOf(version)), doc, PinsSince(version + 1))
    ensures Defaults(d, PinsSince(version)) == Defaults(Defaults(d, PinsOf(version)), PinsSince(version + 1))
  {
    PinsInTwo(t, doc, PinsOf(version), PinsSince(version + 1));
    DefaultsInTwo(d, PinsOf(version), PinsSince(version + 1));
  }

  method WritePins(t: Lines, doc: Doc, pins: seq<Pin>) returns (out: Lines)
    ensures out == PinLines(t, doc, pins)
  {
    out := t;
    for i := 0 to |pins|
      invariant PinLines(out, doc, pins[i..]) == PinLines(t, doc, pins)
    {
      var p := pins[i];
      assert pins[i..][0] == p && pins[i..][1..] == pins[i + 1..];
      if p.key !in Get(doc, p.section) {
        out := SetInSection(out, p.section, Setting(p.key, p.value, true));
      }
    }
  }

  /** The loops over the versions and their pins. */
  method WriteVersions(t: Lines, doc: Doc, start: int) returns (pinned: Lines)
    requires start < CONFIG_VERSION
    ensures pinned == PinLines(t, doc, PinsSince(start + 1))
  {
    pinned := t;
    for version := start + 1 to CONFIG_VERSION + 1
      invariant PinLines(pinned, doc, PinsSince(version)) == PinLines(t, doc, PinsSince(start + 1))
    {
      VersionByVersion(pinned, doc, doc, version);
      pinned := WritePins(pinned, doc, PinsOf(version));
    }
  }

  method MigrateText(t: Lines, asInt: string -> Option<int>) returns (r: Result<(seq<Line>, int), Error>)
    ensures r == Migrate(t, asInt)
  {
    var raw := Load(t);
    if raw.None? {
      return Err(Unreadable);
    }
    var doc := raw.value;
    var start := FileVersion(doc, asInt);
    if start >= CONFIG_VERSION {
      return Ok((t, start));
    }
    var pinned := WriteVersions(t, doc, start);
    var out := if VERSION_KEY in Get(doc, TOP) then SetVersion(pinned) else Stamped(pinned);
    assert out == Upgraded(t, doc, start);
    if Load(out).None? {
      return Err(WouldNotLoad);
    }
    return Ok((out, start));
  }

  /** A loaded document given the defaults of its own version, in place. */
  class RawConfig {
    var doc: Doc

    constructor (doc: Doc)
      ensures this.doc == doc
    {
      this.doc := doc;
    }

    method FillPins(pins: seq<Pin>)
      modifies this
      ensures doc == Defaults(old(doc), pins)
    {
      for i := 0 to |pins|
        invariant Defaults(doc, pins[i..]) == Defaults(old(doc), pins)
      {
        var p := pins[i];
        assert pins[i..][0] == p && pins[i..][1..] == pins[i + 1..];
        if p.key !in Get(doc, p.section) {
          doc := Put(doc, p.section, p.key, p.value);
        }
      }
    }

    method ApplyVersionDefaults(version: int)
      modifies this
      ensures doc == Defaults(old(doc), PinsSince(version + 1))
    {
      var newer := version + 1;
      while newer < CONFIG_VERSION + 1
        invariant Defaults(doc, PinsSince(newer)) == Defaults(old(doc), PinsSince(version + 1))
        decreases CONFIG_VERSION + 1 - newer
      {
        VersionByVersion([EMPTY], doc, doc, newer);
        FillPins(PinsOf(newer));
        newer := newer + 1;
      }
    }
  }
}
