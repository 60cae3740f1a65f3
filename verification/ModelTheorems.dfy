/** Which agent, model and effort a request gets (pcbridge/models.py), in terms of what its texts
    stand for. */
module ModelTheorems {
  import opened Wrappers
  import opened Strings
  import opened Models

  // ------------------------------------------------------------ what texts mean

  /** What a key stands for with the first `n` aliases: the last of them that has the key counts,
      by what its value stands for without it and those after it; without an alias it is the last
      model with the key, else the last effort, else the level. */
  function Meaning(a: Agent, n: nat, key: string): Option<string>
    requires n <= |a.aliases|
  {
    if n == 0 then
      Either(LastWith(Known(a), key), Either(LastWith(AllEfforts(a.efforts, a.modelEfforts), key), LastWith(EFFORT_ORDER, key)))
    else
      var (text, value) := a.aliases[n - 1];
      if Normalize(text) != key then Meaning(a, n - 1, key)
      else Either(Meaning(a, n - 1, Normalize(value)), Some(value))
  }

  function StandsFor(a: Agent, text: string): Option<string> {
    Meaning(a, |a.aliases|, Normalize(text))
  }

  function Resolved(t: Table, value: string): string {
    if Normalize(value) in t then t[Normalize(value)] else value
  }

  lemma {:induction false} AliasedLast(t: Table, aliases: seq<(string, string)>)
    requires aliases != []
    ensures var before := Aliased(t, aliases[..|aliases| - 1]);
            var (text, value) := aliases[|aliases| - 1];
            Aliased(t, aliases) == before[Normalize(text) := Resolved(before, value)]
    decreases |aliases|
  {
    var (text, value) := aliases[0];
    var next := t[Normalize(text) := Resolved(t, value)];
    if |aliases| > 1 {
      AliasedLast(next, aliases[1..]);
      assert aliases[1..][..|aliases| - 2] == aliases[..|aliases| - 1][1..];
    } else {
      assert aliases[..0] == [] && aliases[1..] == [];
    }
  }

  function Names(a: Agent): Table {
    Named(Named(Named(map[], EFFORT_ORDER), AllEfforts(a.efforts, a.modelEfforts)), Known(a))
  }

  lemma NamesSay(a: Agent, key: string)
    ensures At(Names(a), key) == Meaning(a, 0, key)
  {
    var levels := Named(map[], EFFORT_ORDER);
    NamedSays(Named(levels, AllEfforts(a.efforts, a.modelEfforts)), Known(a), key);
    NamedSays(levels, AllEfforts(a.efforts, a.modelEfforts), key);
    NamedSays(map[], EFFORT_ORDER, key);
  }

  lemma AliasedUpTo(t: Table, aliases: seq<(string, string)>, n: nat, k: string, v: string)
    requires 0 < n <= |aliases| && k == Normalize(aliases[n - 1].0) && v == Normalize(aliases[n - 1].1)
    ensures var before := Aliased(t, aliases[..n - 1]);
            Aliased(t, aliases[..n]) == before[k := if v in before then before[v] else aliases[n - 1].1]
  {
    assert aliases[..n][..n - 1] == aliases[..n - 1];
    AliasedLast(t, aliases[..n]);
  }

  lemma AliasSays(before: Table, k: string, v: string, value: string, key: string)
    ensures At(before[k := if v in before then before[v] else value], key)
            == if k != key then At(before, key) else Either(At(before, v), Some(value))
  {
  }

  lemma MeaningStep(a: Agent, n: nat, key: string, k: string, v: string)
    requires 0 < n <= |a.aliases| && k == Normalize(a.aliases[n - 1].0) && v == Normalize(a.aliases[n - 1].1)
    ensures Meaning(a, n, key) == if k != key then Meaning(a, n - 1, key) else Either(Meaning(a, n - 1, v), Some(a.aliases[n - 1].1))
  {
  }

  /** The table with the first `n` aliases says what keys stand for with those. */
  ghost predicate Says(a: Agent, names: Table, n: nat)
    requires n <= |a.aliases|
  {
    forall key :: At(Aliased(names, a.aliases[..n]), key) == Meaning(a, n, key)
  }

  lemma OneAliasMore(a: Agent, names: Table, n: nat, k: string, v: string)
    requires 0 < n <= |a.aliases| && Says(a, names, n - 1)
    requires k == Normalize(a.aliases[n - 1].0) && v == Normalize(a.aliases[n - 1].1)
    ensures Says(a, names, n)
  {
    var before := Aliased(names, a.aliases[..n - 1]);
    AliasedUpTo(names, a.aliases, n, k, v);
    forall key
      ensures At(Aliased(names, a.aliases[..n]), key) == Meaning(a, n, key)
    {
      AliasSays(before, k, v, a.aliases[n - 1].1, key);
      MeaningStep(a, n, key, k, v);
      assert At(before, key) == Meaning(a, n - 1, key);
      assert At(before, v) == Meaning(a, n - 1, v);
    }
  }

  lemma {:induction false} TableSays(a: Agent, names: Table, n: nat)
    requires n <= |a.aliases| && Says(a, names, 0)
    ensures Says(a, names, n)
  {
    if n > 0 {
      TableSays(a, names, n - 1);
      OneAliasMore(a, names, n, Normalize(a.aliases[n - 1].0), Normalize(a.aliases[n - 1].1));
    }
  }

  lemma NamesSayAll(a: Agent)
    ensures Says(a, Names(a), 0)
  {
    forall key
      ensures At(Aliased(Names(a), a.aliases[..0]), key) == Meaning(a, 0, key)
    {
      NamesSay(a, key);
    }
  }

  lemma LookupAt(a: Agent, key: string)
    ensures At(Lookup(a), key) == At(Aliased(Names(a), a.aliases), key)
  {
  }

  /** The table finds what the text stands for. */
  lemma CanonIsMeaning(a: Agent, text: string)
    ensures Canon(a, text) == StandsFor(a, text)
  {
    NamesSayAll(a);
    TableSays(a, Names(a), |a.aliases|);
    LookupAt(a, Normalize(text));
    assert a.aliases[..|a.aliases|] == a.aliases;
  }

  lemma {:induction false} WithNewHas(seen: seq<string>, more: seq<string>, x: string)
    ensures x in WithNew(seen, more) <==> x in seen || x in more
    ensures seen <= WithNew(seen, more)
    decreases |more|
  {
    if more != [] {
      WithNewHas(if more[0] in seen then seen else seen + [more[0]], more[1..], x);
    }
  }

  /** The efforts of an agent are its own, first, and those of its models. */
  lemma {:induction false} AllEffortsHas(seen: seq<string>, lists: seq<(string, seq<string>)>, x: string)
    ensures x in AllEfforts(seen, lists) <==> x in seen || exists i :: 0 <= i < |lists| && x in lists[i].1
    ensures seen <= AllEfforts(seen, lists)
    decreases |lists|
  {
    if lists != [] {
      WithNewHas(seen, lists[0].1, x);
      AllEffortsHas(WithNew(seen, lists[0].1), lists[1..], x);
      assert forall i :: 1 <= i < |lists| ==> lists[i] == lists[1..][i - 1];
    }
  }

  function Joined(ws: seq<string>): string {
    if ws == [] then [] else ws[0] + Joined(ws[1..])
  }

  function LettersAndDigits(s: string): string {
    if s == [] then [] else (if 'a' <= s[0] <= 'z' || '0' <= s[0] <= '9' then [s[0]] else []) + LettersAndDigits(s[1..])
  }

  lemma {:induction false} RunIsKept(s: string, n: nat)
    requires n <= |s| && forall i :: 0 <= i < n ==> 'a' <= s[i] <= 'z' || '0' <= s[i] <= '9'
    ensures LettersAndDigits(s) == s[..n] + LettersAndDigits(s[n..])
    decreases n
  {
    if n > 0 {
      RunIsKept(s[1..], n - 1);
      assert s[1..][n - 1..] == s[n..] && s[..n] == [s[0]] + s[1..][..n - 1];
    }
  }

  /** A text's words are its letters and digits, in their order. */
  lemma {:induction false} WordsAreTheText(s: string)
    ensures Joined(Words(s)) == LettersAndDigits(s)
    decreases |s|
  {
    if s != [] {
      if KindOf(s[0]) == Separator {
        WordsAreTheText(s[1..]);
      } else {
        var n := RunLength(s, KindOf(s[0]));
        WordsAreTheText(s[n..]);
        RunIsKept(s, n);
      }
    }
  }

  // ------------------------------------------------------------------ efforts

  /** The name asked for: what the text stands for, or the text itself when that is nothing. */
  function AskedName(a: Agent, text: string): string {
    if Empty(StandsFor(a, text)) then Normalize(text) else StandsFor(a, text).value
  }

  /** The level a request starts from, empty if there is none: the one asked for, else the
      model's own, else the agent's. */
  function Wish(a: Agent, model: Option<string>, effort: Option<string>): string {
    var own := Get(a.modelEffort, if model.Some? then model.value else "");
    if effort.Some? then AskedName(a, effort.value)
    else if !Empty(own) then own.value
    else a.defaultEffort
  }

  predicate IsHighest(allowed: seq<string>, r: string) {
    r in EFFORT_ORDER && r in allowed
    && forall i :: 0 <= i < |EFFORT_ORDER| && EFFORT_ORDER[i] in allowed ==> i <= Rank(EFFORT_ORDER, r)
  }

  lemma HighestKept(allowed: seq<string>)
    requires Kept(EFFORT_ORDER, allowed) != []
    ensures var kept := Kept(EFFORT_ORDER, allowed); IsHighest(allowed, kept[|kept| - 1])
  {
    var kept := Kept(EFFORT_ORDER, allowed);
    LevelsAreDistinct();
    KeptRises(EFFORT_ORDER, 0, allowed);
    assert EFFORT_ORDER[0..] == EFFORT_ORDER;
    KeptIsAllowed(EFFORT_ORDER, allowed, kept[|kept| - 1]);
    forall i | 0 <= i < |EFFORT_ORDER| && EFFORT_ORDER[i] in allowed
      ensures i <= Rank(EFFORT_ORDER, kept[|kept| - 1])
    {
      KeptIsAllowed(EFFORT_ORDER, allowed, EFFORT_ORDER[i]);
      RankIsPosition(EFFORT_ORDER, i);
      LastIsHighest(EFFORT_ORDER, kept, EFFORT_ORDER[i]);
    }
  }

  lemma NoneKept(allowed: seq<string>)
    ensures Kept(EFFORT_ORDER, allowed) == [] <==> forall i :: 0 <= i < |allowed| ==> allowed[i] !in EFFORT_ORDER
  {
    var kept := Kept(EFFORT_ORDER, allowed);
    if kept != [] {
      KeptIsAllowed(EFFORT_ORDER, allowed, kept[0]);
    }
    forall i | 0 <= i < |allowed| && allowed[i] in EFFORT_ORDER
      ensures kept != []
    {
      KeptIsAllowed(EFFORT_ORDER, allowed, allowed[i]);
    }
  }

  /** The effort a request gets, given the level it starts from. */
  ghost predicate Fits(wish: string, allowed: seq<string>, r: Option<string>) {
    if wish == "" || allowed == [] then Empty(r)
    else
      && r.Some?
      && (wish in allowed ==> r.value == wish)
      && (wish !in allowed && (forall i :: 0 <= i < |allowed| ==> allowed[i] !in EFFORT_ORDER) ==> r.value == allowed[0])
      && (wish !in allowed && !(forall i :: 0 <= i < |allowed| ==> allowed[i] !in EFFORT_ORDER) ==>
            if wish in EFFORT_ORDER then BestBelow(EFFORT_ORDER, wish, allowed, r.value) else IsHighest(allowed, r.value))
  }

  lemma ClampFits(wish: string, allowed: seq<string>)
    requires wish != "" && allowed != []
    ensures Fits(wish, allowed, Some(Clamp(EFFORT_ORDER, wish, allowed)))
  {
    NoneKept(allowed);
    if wish !in allowed && Kept(EFFORT_ORDER, allowed) != [] {
      if wish in EFFORT_ORDER {
        LevelsAreDistinct();
        ClampPicksTheBest(EFFORT_ORDER, wish, allowed);
      } else {
        HighestKept(allowed);
      }
    }
  }

  lemma WishIsWanted(a: Agent, model: Option<string>, effort: Option<string>)
    ensures Wish(a, model, effort) == if Empty(WantedEffort(a, model, effort)) then "" else WantedEffort(a, model, effort).value
  {
    if effort.Some? {
      CanonIsMeaning(a, effort.value);
    }
  }

  /** What is asked for and accepted is taken, an accepted default too; a known level that is not
      accepted is lowered to the next one that is, an unknown one becomes the highest. */
  lemma EffortFits(a: Agent, model: Option<string>, effort: Option<string>)
    ensures Fits(Wish(a, model, effort), EffortsFor(a, model), ChooseEffort(a, model, effort))
  {
    WishIsWanted(a, model, effort);
    if Wish(a, model, effort) != "" && EffortsFor(a, model) != [] {
      ClampFits(Wish(a, model, effort), EffortsFor(a, model));
    }
  }

  /** With a loaded configuration a model's own effort is taken as it is. */
  lemma OwnEffortIsTaken(a: Agent, model: string)
    requires Fine(a) && !Empty(Get(a.modelEffort, model))
    ensures ChooseEffort(a, Some(model), None) == Get(a.modelEffort, model)
  {
    EffortFits(a, Some(model), None);
    FoundIsThere(a.modelEffort, model);
  }

  /** And only a model of the agent has a list of its own. */
  lemma OwnListsAreForItsModels(a: Agent, model: string)
    requires Fine(a) && Known(a) != [] && EffortsFor(a, Some(model)) != a.efforts
    ensures model in Known(a)
  {
    FoundIsThere(a.modelEfforts, model);
  }

  // ------------------------------------------------------------------- models

  predicate Selects(a: Agent) {
    a.modelArgs || a.effortArgs
  }

  /** What the text stands for is a model of the agent. */
  predicate NamesAModel(a: Agent, text: string) {
    StandsFor(a, text).Some? && StandsFor(a, text).value in Known(a)
  }

  /** Which error, if any, the choice of a model and an effort ends with. */
  ghost predicate FailsRightly(a: Agent, model: Option<string>, r: Result<Resolution, Error>) {
    var chosen := if model.Some? then StandsFor(a, model.value) else if a.defaultModel == "" then None else Some(a.defaultModel);
    && (r == Err(NotAModel) <==> Selects(a) && model.Some? && !NamesAModel(a, model.value))
    && (r == Err(ModelBlocked) <==> Selects(a) && model.Some? && NamesAModel(a, model.value) && !Empty(chosen) && chosen.value in a.blocked)
    && (r == Err(DefaultIsRestricted) <==> Selects(a) && model.None? && !Empty(chosen) && chosen.value in a.restricted)
    && (r.Err? ==> r.error == NotAModel || r.error == ModelBlocked || r.error == DefaultIsRestricted || r.error == EffortNeeded)
    && (r.Ok? && Selects(a) ==> r.value.model == chosen)
    && (r == Err(EffortNeeded) ==> a.effortRequired && !Empty(chosen) && EffortsFor(a, chosen) != [])
  }

  lemma NamedModel(a: Agent, text: string)
    ensures ChooseModel(a, Some(text)) ==
            if !NamesAModel(a, text) then Err(NotAModel)
            else if StandsFor(a, text).value != "" && StandsFor(a, text).value in a.blocked then Err(ModelBlocked)
            else Ok(StandsFor(a, text))
  {
    CanonIsMeaning(a, text);
  }

  lemma SettledModel(name: string, a: Agent, model: Option<string>, effort: Option<string>)
    ensures var (r, picked) := (Settle(name, a, model, effort), ChooseModel(a, model));
            && (!Selects(a) ==> r == Ok(Resolution(name, None, None)))
            && (Selects(a) && picked.Err? ==> r == Err(picked.error))
            && (r.Ok? ==> r.value.agent == name && (Selects(a) ==> picked == Ok(r.value.model)))
            && (Selects(a) && picked.Ok? && r.Err? ==>
                  r.error == EffortNeeded && a.effortRequired && !Empty(picked.value) && EffortsFor(a, picked.value) != [])
  {
  }

  /** The model that is named is the one chosen, unless it is none of the agent's or blocked;
      without one it is the default, unless that is restricted; an agent that does not select
      gets neither model nor effort. */
  lemma ModelIsTheOneNamed(name: string, a: Agent, model: Option<string>, effort: Option<string>)
    ensures FailsRightly(a, model, Settle(name, a, model, effort))
    ensures !Selects(a) ==> Settle(name, a, model, effort) == Ok(Resolution(name, None, None))
    ensures Settle(name, a, model, effort).Ok? ==> Settle(name, a, model, effort).value.agent == name
  {
    SettledModel(name, a, model, effort);
    if model.Some? {
      NamedModel(a, model.value);
    }
  }

  /** And the effort fits it, or the request fails where an effort must be given. */
  lemma EffortFitsTheModel(name: string, a: Agent, model: Option<string>, effort: Option<string>)
    requires Selects(a)
    ensures var r := Settle(name, a, model, effort);
            && (r.Ok? ==> Fits(Wish(a, r.value.model, effort), EffortsFor(a, r.value.model), r.value.effort))
            && (r.Ok? && a.effortRequired && !Empty(r.value.model) && EffortsFor(a, r.value.model) != [] ==>
                  Wish(a, r.value.model, effort) != "")
  {
    if ChooseModel(a, model).Ok? {
      EffortFits(a, ChooseModel(a, model).value, effort);
    }
  }

  /** In a loaded configuration a request without a model gets the default: one of the agent's
      own models if it lists any, never a blocked or restricted one, and none for an agent that
      cannot pass it on. */
  lemma LoadedDefaultIsChosen(name: string, a: Agent, effort: Option<string>)
    requires Fine(a) && Selects(a)
    ensures var r := Settle(name, a, None, effort);
            && (r.Err? ==> r.error == EffortNeeded)
            && (r.Ok? ==> (r.value.model.None? <==> a.defaultModel == ""))
            && (r.Ok? && r.value.model.Some? ==>
                  var m := r.value.model.value;
                  a.modelArgs && m !in a.blocked && m !in a.restricted && (a.models != [] ==> m in a.models))
  {
    ModelIsTheOneNamed(name, a, None, effort);
  }

  /** And an effort of its own is only given for a model of the agent. */
  lemma OwnEffortsAreForItsModels(a: Agent, model: string)
    requires Fine(a) && Known(a) != [] && Get(a.modelEffort, model).Some?
    ensures model in Known(a)
  {
    FoundIsThere(a.modelEffort, model);
  }

  // ------------------------------------------------------------------- agents

  lemma {:induction false} KeyFound(agents: seq<(string, Agent)>, key: string)
    ensures ByKey(agents, key).None? <==> forall i :: 0 <= i < |agents| ==> Normalize(agents[i].0) != Normalize(key)
    ensures ByKey(agents, key).Some? ==>
              exists i :: 0 <= i < |agents| && ByKey(agents, key).value == agents[i].0 && Normalize(agents[i].0) == Normalize(key)
                          && forall j :: 0 <= j < i ==> Normalize(agents[j].0) != Normalize(key)
  {
    if agents != [] && Normalize(agents[0].0) != Normalize(key) {
      KeyFound(agents[1..], key);
      assert forall i :: 0 <= i < |agents[1..]| ==> agents[1..][i] == agents[i + 1];
      if ByKey(agents, key).Some? {
        var i :| 0 <= i < |agents[1..]| && ByKey(agents[1..], key).value == agents[1..][i].0
                 && Normalize(agents[1..][i].0) == Normalize(key)
                 && forall j :: 0 <= j < i ==> Normalize(agents[1..][j].0) != Normalize(key);
        forall j | 0 <= j < i + 1
          ensures Normalize(agents[j].0) != Normalize(key)
        {
          if j > 0 {
            assert agents[j] == agents[1..][j - 1];
          }
        }
        assert ByKey(agents, key).value == agents[i + 1].0;
      }
    }
  }

  lemma {:induction false} NameIsThere(agents: seq<(string, Agent)>, name: string)
    ensures Get(agents, name).Some? <==> exists i :: 0 <= i < |agents| && agents[i].0 == name
  {
    if agents != [] && agents[0].0 != name {
      NameIsThere(agents[1..], name);
      assert forall i :: 0 <= i < |agents[1..]| ==> agents[1..][i] == agents[i + 1];
      if exists i :: 0 <= i < |agents| && agents[i].0 == name {
        var i :| 0 <= i < |agents| && agents[i].0 == name;
        assert agents[1..][i - 1].0 == name;
      }
    }
  }

  /** The agent meant by a text: the one of that name, else the first one whose name is the same
      but for case, punctuation and spaces. */
  ghost predicate Means(agents: seq<(string, Agent)>, text: string, i: nat) {
    && i < |agents|
    && if agents[i].0 == text then true
       else
         && (forall j :: 0 <= j < |agents| ==> agents[j].0 != text)
         && Normalize(agents[i].0) == Normalize(text)
         && (forall j :: 0 <= j < i ==> Normalize(agents[j].0) != Normalize(text))
  }

  ghost predicate NobodyMeant(agents: seq<(string, Agent)>, text: string) {
    forall i: nat :: !Means(agents, text, i)
  }

  function NameFor(agents: seq<(string, Agent)>, key: string): Option<string> {
    if Get(agents, key).Some? then Some(key) else ByKey(agents, key)
  }

  lemma NameIsMeant(agents: seq<(string, Agent)>, key: string)
    ensures NameFor(agents, key).None? <==> NobodyMeant(agents, key)
    ensures NameFor(agents, key).Some? ==>
              Get(agents, NameFor(agents, key).value).Some?
              && exists i: nat :: Means(agents, key, i) && agents[i].0 == NameFor(agents, key).value
  {
    NameIsThere(agents, key);
    KeyFound(agents, key);
    if Get(agents, key).Some? {
      var i :| 0 <= i < |agents| && agents[i].0 == key;
      assert Means(agents, key, i);
    } else if ByKey(agents, key).Some? {
      var i :| 0 <= i < |agents| && ByKey(agents, key).value == agents[i].0 && Normalize(agents[i].0) == Normalize(key)
               && forall j :: 0 <= j < i ==> Normalize(agents[j].0) != Normalize(key);
      assert Means(agents, key, i);
      NameIsThere(agents, agents[i].0);
    } else {
      assert forall i: nat :: i < |agents| ==> Normalize(agents[i].0) != Normalize(key) && agents[i].0 != key;
    }
  }

  /** A named agent is the one taken if it is enabled, whatever model is asked for; a disabled or
      unknown one is an error. */
  lemma NamedAgentIsTaken(cfg: Config, text: string, model: Option<string>)
    requires text != ""
    ensures var r := ChooseAgent(cfg, Some(text), model);
            var name := NameFor(cfg.agents, Strip(text));
            && (r == Err(NoSuchAgent) <==> NobodyMeant(cfg.agents, Strip(text)))
            && (r != Err(NoSuchAgent) ==>
                  exists i: nat :: Means(cfg.agents, Strip(text), i) && name == Some(cfg.agents[i].0) && Get(cfg.agents, name.value).Some?
                                   && r == if Get(cfg.agents, name.value).value.enabled then Ok(cfg.agents[i].0) else Err(AgentDisabled))
  {
    NameIsMeant(cfg.agents, Strip(text));
  }

  /** An enabled agent for which the text stands for one of its models. */
  predicate Knows(a: Agent, text: string) {
    a.enabled && NamesAModel(a, text)
  }

  lemma {:induction false} FirstHit(agents: seq<(string, Agent)>, yes: Agent -> bool)
    ensures HitsOf(agents, yes) == [] <==> forall i :: 0 <= i < |agents| ==> !yes(agents[i].1)
    ensures forall i :: 0 <= i < |agents| && yes(agents[i].1) ==> agents[i].0 in HitsOf(agents, yes)
    ensures forall i :: 0 <= i < |agents| && yes(agents[i].1) && (forall j :: 0 <= j < i ==> !yes(agents[j].1))
                        ==> HitsOf(agents, yes) != [] && HitsOf(agents, yes)[0] == agents[i].0
  {
    if agents != [] {
      FirstHit(agents[1..], yes);
      assert forall i :: 0 <= i < |agents[1..]| ==> agents[1..][i] == agents[i + 1];
      assert forall i :: 1 <= i < |agents| ==> agents[i] == agents[1..][i - 1];
      forall i | 0 <= i < |agents| && yes(agents[i].1) && forall j :: 0 <= j < i ==> !yes(agents[j].1)
        ensures HitsOf(agents, yes) != [] && HitsOf(agents, yes)[0] == agents[i].0
      {
        if i > 0 {
          assert yes(agents[1..][i - 1].1);
          assert forall j :: 0 <= j < i - 1 ==> !yes(agents[1..][j].1);
        }
      }
    }
  }

  lemma {:induction false} SelectionIsThere(agents: seq<(string, Agent)>)
    ensures AnySelection(agents) <==> exists i :: 0 <= i < |agents| && agents[i].1.enabled && Selects(agents[i].1)
  {
    if agents != [] {
      SelectionIsThere(agents[1..]);
      assert forall i :: 1 <= i < |agents| ==> agents[i] == agents[1..][i - 1];
    }
  }

  lemma KnowsIsRecognising(a: Agent, text: string)
    ensures Recognises(a, text) <==> Knows(a, text)
  {
    CanonIsMeaning(a, text);
  }

  predicate IsFirst(agents: seq<(string, Agent)>, text: string, i: nat) {
    i < |agents| && Knows(agents[i].1, text) && forall j :: 0 <= j < i ==> !Knows(agents[j].1, text)
  }

  lemma KnowingHits(agents: seq<(string, Agent)>, text: string, yes: Agent -> bool)
    requires forall a :: yes(a) <==> Knows(a, text)
    ensures HitsOf(agents, yes) == [] <==> forall i :: 0 <= i < |agents| ==> !Knows(agents[i].1, text)
    ensures forall i :: 0 <= i < |agents| && Knows(agents[i].1, text) ==> agents[i].0 in HitsOf(agents, yes)
    ensures forall i: nat :: IsFirst(agents, text, i) ==> HitsOf(agents, yes) != [] && HitsOf(agents, yes)[0] == agents[i].0
  {
    FirstHit(agents, yes);
  }

  lemma HitsAreKnowing(agents: seq<(string, Agent)>, text: string)
    ensures Hits(agents, text) == [] <==> forall i :: 0 <= i < |agents| ==> !Knows(agents[i].1, text)
    ensures forall i :: 0 <= i < |agents| && Knows(agents[i].1, text) ==> agents[i].0 in Hits(agents, text)
    ensures forall i: nat :: IsFirst(agents, text, i) ==> Hits(agents, text) != [] && Hits(agents, text)[0] == agents[i].0
  {
    var yes := (a: Agent) => Recognises(a, text);
    forall a
      ensures yes(a) <==> Knows(a, text)
    {
      KnowsIsRecognising(a, text);
    }
    KnowingHits(agents, text, yes);
  }

  lemma {:induction false} AmongOthers(names: seq<string>, name: string)
    requires name !in names
    ensures Among(names, name, true) == [] && Among(names, name, false) == names
  {
    if names != [] {
      AmongOthers(names[1..], name);
    }
  }

  lemma FirstOfFound(cfg: Config, text: string)
    requires Hits(cfg.agents, text) != []
    ensures AgentsForModel(cfg, text) != []
    ensures AgentsForModel(cfg, text)[0] ==
            if cfg.defaultAgent in Hits(cfg.agents, text) then cfg.defaultAgent else Hits(cfg.agents, text)[0]
  {
    var hits := Hits(cfg.agents, text);
    AgentsForModelAreThose(cfg, text, hits[0]);
    if cfg.defaultAgent !in hits {
      AmongOthers(hits, cfg.defaultAgent);
    }
  }

  /** The agent of that name, in some place, is enabled and knows the model. */
  predicate NameKnows(cfg: Config, name: string, text: string) {
    exists i :: 0 <= i < |cfg.agents| && cfg.agents[i].0 == name && Knows(cfg.agents[i].1, text)
  }

  lemma KnowingIsHit(cfg: Config, name: string, text: string)
    ensures NameKnows(cfg, name, text) <==> name in Hits(cfg.agents, text)
  {
    HitsAreKnowing(cfg.agents, text);
    if name in Hits(cfg.agents, text) {
      HitsSayYes(cfg.agents, (a: Agent) => Recognises(a, text), name);
      var i :| 0 <= i < |cfg.agents| && cfg.agents[i].0 == name && Recognises(cfg.agents[i].1, text);
      KnowsIsRecognising(cfg.agents[i].1, text);
    }
  }

  /** Without a named agent: the default one if it knows the model or none is asked for, else the
      first enabled one that knows it; if none does, the default one where nothing can be
      selected at all, and an error otherwise. */
  lemma AgentForTheModel(cfg: Config, agent: Option<string>, model: Option<string>)
    requires Empty(agent)
    ensures var r := ChooseAgent(cfg, agent, model);
            && (model.None? || NameKnows(cfg, cfg.defaultAgent, model.value) ==> r == Ok(cfg.defaultAgent))
            && (model.Some? && !NameKnows(cfg, cfg.defaultAgent, model.value) ==>
                  forall i: nat :: IsFirst(cfg.agents, model.value, i) ==> r == Ok(cfg.agents[i].0))
            && (model.Some? && (forall i :: 0 <= i < |cfg.agents| ==> !Knows(cfg.agents[i].1, model.value)) ==>
                  r == if exists i :: 0 <= i < |cfg.agents| && cfg.agents[i].1.enabled && Selects(cfg.agents[i].1)
                       then Err(ModelNowhere) else Ok(cfg.defaultAgent))
  {
    if model.Some? {
      HitsAreKnowing(cfg.agents, model.value);
      KnowingIsHit(cfg, cfg.defaultAgent, model.value);
      SelectionIsThere(cfg.agents);
      if Hits(cfg.agents, model.value) != [] {
        FirstOfFound(cfg, model.value);
      } else {
        assert AgentsForModel(cfg, model.value) == [];
      }
    }
  }

  lemma {:induction false} StripIsEmpty(s: string)
    ensures Strip(s) == [] <==> forall i :: 0 <= i < |s| ==> IsSpace(s[i])
    decreases |s|
  {
    if s != [] && IsSpace(s[0]) {
      StripIsEmpty(s[1..]);
      assert forall i :: 1 <= i < |s| ==> s[i] == s[1..][i - 1];
    } else if s != [] && IsSpace(s[|s| - 1]) {
      StripIsEmpty(s[..|s| - 1]);
    }
  }

  /** A text asks for something if it is more than white space. */
  lemma GivenIsMoreThanSpace(text: Option<string>)
    ensures Given(text).Some? <==> text.Some? && exists i :: 0 <= i < |text.value| && !IsSpace(text.value[i])
    ensures Given(text).Some? ==> Given(text).value == Strip(text.value)
  {
    if text.Some? {
      StripIsEmpty(text.value);
    }
  }

  /** What a request that succeeds gets: the model its text stands for or the default, and the
      effort that fits what it asked for or the defaults. */
  lemma ResolvedAsAsked(cfg: Config, agent: Option<string>, model: Option<string>, effort: Option<string>)
    requires Resolve(cfg, agent, model, effort).Ok?
    ensures var r := Resolve(cfg, agent, model, effort).value;
            && ChooseAgent(cfg, agent, Given(model)) == Ok(r.agent) && Get(cfg.agents, r.agent).Some?
            && var a := Get(cfg.agents, r.agent).value;
               if !Selects(a) then r.model.None? && r.effort.None?
               else
                 && r.model == (if Given(model).Some? then StandsFor(a, Given(model).value) else NonEmpty(a.defaultModel))
                 && Fits(Wish(a, r.model, Given(effort)), EffortsFor(a, r.model), r.effort)
  {
    var r := Resolve(cfg, agent, model, effort).value;
    var a := Get(cfg.agents, ChooseAgent(cfg, agent, Given(model)).value).value;
    ModelIsTheOneNamed(r.agent, a, Given(model), Given(effort));
    if Selects(a) {
      EffortFitsTheModel(r.agent, a, Given(model), Given(effort));
    }
  }
}
