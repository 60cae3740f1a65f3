/** Turning a free-text choice of agent, model and effort into settled names
    (pcbridge/models.py), and the checks made when the configuration is loaded
    (pcbridge/config.py) that it relies on. */
module Models {
  import opened Wrappers
  import opened Strings

  /** An agent's settings. Dictionaries are sequences of pairs in their order; of the argument
      lists only whether they are there matters. */
  datatype Agent = Agent(
    enabled: bool,
    modelArgs: bool,
    effortArgs: bool,
    models: seq<string>,
    restricted: seq<string>,
    blocked: seq<string>,
    efforts: seq<string>,
    modelEfforts: seq<(string, seq<string>)>,
    defaultModel: string,
    defaultEffort: string,
    modelEffort: seq<(string, string)>,
    effortRequired: bool,
    aliases: seq<(string, string)>)

  datatype Config = Config(agents: seq<(string, Agent)>, defaultAgent: string)

  function Get<V>(pairs: seq<(string, V)>, key: string): Option<V> {
    if pairs == [] then None
    else if pairs[0].0 == key then Some(pairs[0].1)
    else Get(pairs[1..], key)
  }

  function Known(a: Agent): seq<string> {
    a.models + a.restricted + a.blocked
  }

  /** The efforts a model accepts: its own list if it has one, else the agent's. */
  function EffortsFor(a: Agent, model: Option<string>): seq<string> {
    if model.Some? && Get(a.modelEfforts, model.value).Some? then Get(a.modelEfforts, model.value).value
    else a.efforts
  }

  // ------------------------------------------------------------ loading checks

  /** What a loaded configuration guarantees of every agent. */
  predicate Fine(a: Agent) {
    && (a.modelArgs || (a.models == [] && a.defaultModel == ""))
    && (a.defaultModel != "" ==> a.defaultModel !in a.blocked && a.defaultModel !in a.restricted)
    && (a.defaultModel != "" && a.models != [] ==> a.defaultModel in a.models)
    && (Known(a) != [] ==> forall i :: 0 <= i < |a.modelEffort| ==> a.modelEffort[i].0 in Known(a))
    && (Known(a) != [] ==> forall i :: 0 <= i < |a.modelEfforts| ==> a.modelEfforts[i].0 in Known(a))
    && (forall i :: 0 <= i < |a.modelEffort| ==> a.modelEffort[i].1 in EffortsFor(a, Some(a.modelEffort[i].0)))
  }

  datatype ConfigError = NoModelArgs | DefaultBlocked | DefaultRestricted | DefaultUnlisted | UnknownModelKey | NoEffort | BadEffort

  method CheckKeys<V>(known: seq<string>, pairs: seq<(string, V)>) returns (ok: bool)
    ensures ok <==> known == [] || forall i :: 0 <= i < |pairs| ==> pairs[i].0 in known
  {
    for i := 0 to |pairs|
      invariant known == [] || forall j :: 0 <= j < i ==> pairs[j].0 in known
    {
      if known != [] && pairs[i].0 !in known {
        return false;
      }
    }
    return true;
  }

  method CheckEfforts(a: Agent) returns (bad: Option<ConfigError>)
    ensures bad.None? <==> forall i :: 0 <= i < |a.modelEffort| ==> a.modelEffort[i].1 in EffortsFor(a, Some(a.modelEffort[i].0))
  {
    for i := 0 to |a.modelEffort|
      invariant forall j :: 0 <= j < i ==> a.modelEffort[j].1 in EffortsFor(a, Some(a.modelEffort[j].0))
    {
      var allowed := EffortsFor(a, Some(a.modelEffort[i].0));
      if allowed == [] {
        return Some(NoEffort);
      }
      if a.modelEffort[i].1 !in allowed {
        return Some(BadEffort);
      }
    }
    return None;
  }

  method CheckAgent(a: Agent) returns (bad: Option<ConfigError>)
    ensures bad.None? <==> Fine(a)
  {
    if !a.modelArgs && (a.models != [] || a.defaultModel != "") {
      return Some(NoModelArgs);
    }
    if a.defaultModel != "" {
      if a.defaultModel in a.blocked {
        return Some(DefaultBlocked);
      }
      if a.defaultModel in a.restricted {
        return Some(DefaultRestricted);
      }
      if a.models != [] && a.defaultModel !in a.models {
        return Some(DefaultUnlisted);
      }
    }
    var ok := CheckKeys(Known(a), a.modelEffort);
    if !ok {
      return Some(UnknownModelKey);
    }
    ok := CheckKeys(Known(a), a.modelEfforts);
    if !ok {
      return Some(UnknownModelKey);
    }
    bad := CheckEfforts(a);
  }

  predicate Accepted(cfg: Config) {
    forall i :: 0 <= i < |cfg.agents| ==> Fine(cfg.agents[i].1)
  }

  /** A configuration is loaded exactly when every agent in it is fine. */
  method CheckAgents(cfg: Config) returns (bad: Option<(string, ConfigError)>)
    ensures bad.None? <==> Accepted(cfg)
  {
    for i := 0 to |cfg.agents|
      invariant forall j :: 0 <= j < i ==> Fine(cfg.agents[j].1)
    {
      var e := CheckAgent(cfg.agents[i].1);
      if e.Some? {
        return Some((cfg.agents[i].0, e.value));
      }
    }
    return None;
  }

  // ------------------------------------------------------------ matching text

  datatype Kind = Letter | Digit | Separator

  function KindOf(c: char): Kind {
    if 'a' <= c <= 'z' then Letter else if '0' <= c <= '9' then Digit else Separator
  }

  /** The runs of letters and the runs of digits of a text, each on its own. */
  function Words(s: string): (ws: seq<string>)
    decreases |s|
  {
    if s == [] then []
    else if KindOf(s[0]) == Separator then Words(s[1..])
    else
      var n := RunLength(s, KindOf(s[0]));
      [s[..n]] + Words(s[n..])
  }

  function RunLength(s: string, k: Kind): (n: nat)
    ensures n <= |s|
    ensures forall i :: 0 <= i < n ==> KindOf(s[i]) == k
    ensures n < |s| ==> KindOf(s[n]) != k
    ensures s != [] && KindOf(s[0]) == k ==> n > 0
  {
    if s == [] || KindOf(s[0]) != k then 0 else 1 + RunLength(s[1..], k)
  }

  function Spaced(ws: seq<string>): string {
    if ws == [] then [] else if |ws| == 1 then ws[0] else ws[0] + " " + Spaced(ws[1..])
  }

  /** The key under which texts that differ only in case, in punctuation or in the space
      between letters and digits are the same. */
  function Normalize(s: string): string {
    Spaced(Words(Lower(s)))
  }

  // --------------------------------------------------------------- the table

  type Table = map<string, string>

  const EFFORT_ORDER: seq<string> := ["low", "medium", "high", "xhigh", "max", "ultracode"]

  function Named(t: Table, names: seq<string>): Table
    decreases |names|
  {
    if names == [] then t else Named(t[Normalize(names[0]) := names[0]], names[1..])
  }

  function Aliased(t: Table, aliases: seq<(string, string)>): Table
    decreases |aliases|
  {
    if aliases == [] then t
    else
      var (text, canon) := aliases[0];
      Aliased(t[Normalize(text) := if Normalize(canon) in t then t[Normalize(canon)] else canon], aliases[1..])
  }

  function WithNew(seen: seq<string>, more: seq<string>): seq<string>
    decreases |more|
  {
    if more == [] then seen else WithNew(if more[0] in seen then seen else seen + [more[0]], more[1..])
  }

  function AllEfforts(seen: seq<string>, modelEfforts: seq<(string, seq<string>)>): seq<string>
    decreases |modelEfforts|
  {
    if modelEfforts == [] then seen else AllEfforts(WithNew(seen, modelEfforts[0].1), modelEfforts[1..])
  }

  /** Later entries win: levels, the agent's efforts, its models, its aliases. */
  function Lookup(a: Agent): Table {
    Aliased(Named(Named(Named(map[], EFFORT_ORDER), AllEfforts(a.efforts, a.modelEfforts)), Known(a)), a.aliases)
  }

  function Canon(a: Agent, text: string): Option<string> {
    if Normalize(text) in Lookup(a) then Some(Lookup(a)[Normalize(text)]) else None
  }

  method CollectEfforts(a: Agent) returns (seen: seq<string>)
    ensures seen == AllEfforts(a.efforts, a.modelEfforts)
  {
    seen := a.efforts;
    for i := 0 to |a.modelEfforts|
      invariant AllEfforts(seen, a.modelEfforts[i..]) == AllEfforts(a.efforts, a.modelEfforts)
    {
      var values := a.modelEfforts[i].1;
      ghost var before := seen;
      for j := 0 to |values|
        invariant WithNew(seen, values[j..]) == WithNew(before, values)
      {
        assert values[j..][1..] == values[j + 1..];
        if values[j] !in seen {
          seen := seen + [values[j]];
        }
      }
      assert a.modelEfforts[i..][1..] == a.modelEfforts[i + 1..];
    }
  }

  method AddNames(t: Table, names: seq<string>) returns (r: Table)
    ensures r == Named(t, names)
  {
    r := t;
    for i := 0 to |names|
      invariant Named(r, names[i..]) == Named(t, names)
    {
      assert names[i..][1..] == names[i + 1..];
      r := r[Normalize(names[i]) := names[i]];
    }
  }

  method BuildLookup(a: Agent) returns (table: Table)
    ensures table == Lookup(a)
  {
    table := AddNames(map[], EFFORT_ORDER);
    var efforts := CollectEfforts(a);
    table := AddNames(table, efforts);
    table := AddNames(table, Known(a));
    ghost var before := table;
    for i := 0 to |a.aliases|
      invariant Aliased(table, a.aliases[i..]) == Aliased(before, a.aliases)
    {
      var (text, canon) := a.aliases[i];
      assert a.aliases[i..][1..] == a.aliases[i + 1..];
      table := table[Normalize(text) := if Normalize(canon) in table then table[Normalize(canon)] else canon];
    }
  }

  // ------------------------------------------------------------------ agents

  predicate Recognises(a: Agent, text: string) {
    a.enabled && Canon(a, text).Some? && Canon(a, text).value in Known(a)
  }

  function HitsOf(agents: seq<(string, Agent)>, yes: Agent -> bool): seq<string> {
    if agents == [] then [] else (if yes(agents[0].1) then [agents[0].0] else []) + HitsOf(agents[1..], yes)
  }

  function Hits(agents: seq<(string, Agent)>, text: string): seq<string> {
    HitsOf(agents, (a: Agent) => Recognises(a, text))
  }

  function Among(names: seq<string>, name: string, same: bool): seq<string> {
    if names == [] then [] else (if (names[0] == name) == same then [names[0]] else []) + Among(names[1..], name, same)
  }

  /** The default agent first, the others in their order. */
  function AgentsForModel(cfg: Config, text: string): seq<string> {
    var hits := Hits(cfg.agents, text);
    Among(hits, cfg.defaultAgent, true) + Among(hits, cfg.defaultAgent, false)
  }

  method Recognise(a: Agent, text: string) returns (yes: bool)
    ensures yes == Recognises(a, text)
  {
    if !a.enabled {
      return false;
    }
    var table := BuildLookup(a);
    var key := Normalize(text);
    return key in table && table[key] in Known(a);
  }

  lemma OneMoreAgent(hits: seq<string>, agents: seq<(string, Agent)>, i: nat, yes: Agent -> bool)
    requires i < |agents|
    ensures hits + HitsOf(agents[i..], yes) == (if yes(agents[i].1) then hits + [agents[i].0] else hits) + HitsOf(agents[i + 1..], yes)
  {
    assert agents[i..][1..] == agents[i + 1..];
  }

  method FindAgents(cfg: Config, text: string) returns (names: seq<string>)
    ensures names == AgentsForModel(cfg, text)
  {
    var hits: seq<string> := [];
    ghost var yes := (a: Agent) => Recognises(a, text);
    for i := 0 to |cfg.agents|
      invariant hits + HitsOf(cfg.agents[i..], yes) == HitsOf(cfg.agents, yes)
    {
      var (name, a) := cfg.agents[i];
      OneMoreAgent(hits, cfg.agents, i, yes);
      var hit := Recognise(a, text);
      if hit {
        hits := hits + [name];
      }
    }
    assert cfg.agents[|cfg.agents|..] == [];
    assert hits == HitsOf(cfg.agents, yes);
    return Among(hits, cfg.defaultAgent, true) + Among(hits, cfg.defaultAgent, false);
  }

  predicate AnySelection(agents: seq<(string, Agent)>) {
    agents != [] && ((agents[0].1.enabled && (agents[0].1.modelArgs || agents[0].1.effortArgs)) || AnySelection(agents[1..]))
  }

  /** The first agent whose name has the same key. */
  function ByKey(agents: seq<(string, Agent)>, key: string): Option<string> {
    if agents == [] then None
    else if Normalize(agents[0].0) == Normalize(key) then Some(agents[0].0)
    else ByKey(agents[1..], key)
  }

  // ----------------------------------------------------------------- clamping

  function Rank(order: seq<string>, level: string): nat {
    if order == [] || order[0] == level then 0 else 1 + Rank(order[1..], level)
  }

  /** The levels of the order that are allowed, in that order. */
  function Kept(order: seq<string>, allowed: seq<string>): seq<string> {
    if order == [] then [] else (if order[0] in allowed then [order[0]] else []) + Kept(order[1..], allowed)
  }

  function Below(order: seq<string>, levels: seq<string>, want: nat): seq<string> {
    if levels == [] then []
    else (if Rank(order, levels[0]) < want then [levels[0]] else []) + Below(order, levels[1..], want)
  }

  function Clamp(order: seq<string>, effort: string, allowed: seq<string>): string
    requires allowed != []
  {
    if effort in allowed then effort
    else
      var ordered := Kept(order, allowed);
      if ordered == [] then allowed[0]
      else if effort !in order then ordered[|ordered| - 1]
      else
        var lower := Below(order, ordered, Rank(order, effort));
        if lower != [] then lower[|lower| - 1] else ordered[0]
  }

  // ---------------------------------------------------------------- resolving

  datatype Resolution = Resolution(agent: string, model: Option<string>, effort: Option<string>)

  datatype Error =
    | NoSuchAgent
    | AgentDisabled
    | ModelNowhere
    | NotAModel
    | ModelBlocked
    | DefaultIsRestricted
    | EffortNeeded

  /** `(text or "").strip() or None`. */
  function Given(text: Option<string>): Option<string> {
    if text.None? || Strip(text.value) == "" then None else Some(Strip(text.value))
  }

  function NonEmpty(s: string): Option<string> {
    if s == "" then None else Some(s)
  }

  /** Which agent it is to be. */
  function ChooseAgent(cfg: Config, agent: Option<string>, model: Option<string>): Result<string, Error> {
    if agent.Some? && agent.value != "" then
      var key := Strip(agent.value);
      var name := if Get(cfg.agents, key).Some? then Some(key) else ByKey(cfg.agents, key);
      if name.None? || Get(cfg.agents, name.value).None? then Err(NoSuchAgent)
      else if !Get(cfg.agents, name.value).value.enabled then Err(AgentDisabled)
      else Ok(name.value)
    else if model.Some? then
      var hits := AgentsForModel(cfg, model.value);
      if hits != [] then Ok(hits[0])
      else if !AnySelection(cfg.agents) then Ok(cfg.defaultAgent)
      else Err(ModelNowhere)
    else Ok(cfg.defaultAgent)
  }

  /** The model asked for, or the agent's default. */
  function ChooseModel(a: Agent, model: Option<string>): Result<Option<string>, Error> {
    match model
    case Some(text) =>
      (match Canon(a, text)
       case None => Err(NotAModel)
       case Some(name) =>
         if name !in Known(a) then Err(NotAModel)
         else if name != "" && name in a.blocked then Err(ModelBlocked)
         else Ok(Some(name)))
    case None =>
      if a.defaultModel != "" && a.defaultModel in a.restricted then Err(DefaultIsRestricted)
      else Ok(NonEmpty(a.defaultModel))
  }

  function NamedEffort(a: Agent, text: string): string {
    match Canon(a, text)
    case Some(name) => if name != "" then name else Normalize(text)
    case None => Normalize(text)
  }

  function DefaultEffort(a: Agent, model: Option<string>): Option<string> {
    var own := Get(a.modelEffort, if model.Some? then model.value else "");
    if own.Some? && own.value != "" then own else NonEmpty(a.defaultEffort)
  }

  function WantedEffort(a: Agent, model: Option<string>, effort: Option<string>): Option<string> {
    if effort.Some? then Some(NamedEffort(a, effort.value)) else DefaultEffort(a, model)
  }

  /** The effort asked for, or the default one, brought within what the model accepts. */
  function ChooseEffort(a: Agent, model: Option<string>, effort: Option<string>): Option<string> {
    var allowed := EffortsFor(a, model);
    var wanted := WantedEffort(a, model, effort);
    if wanted.None? || wanted.value == "" then wanted
    else if allowed == [] then None
    else Some(Clamp(EFFORT_ORDER, wanted.value, allowed))
  }

  function Settle(name: string, a: Agent, model: Option<string>, effort: Option<string>): Result<Resolution, Error> {
    if !a.modelArgs && !a.effortArgs then Ok(Resolution(name, None, None))
    else match ChooseModel(a, model)
      case Err(e) => Err(e)
      case Ok(chosen) =>
        var eff := ChooseEffort(a, chosen, effort);
        if a.effortRequired && chosen.Some? && chosen.value != "" && EffortsFor(a, chosen) != [] && (eff.None? || eff.value == "")
        then Err(EffortNeeded)
        else Ok(Resolution(name, chosen, eff))
  }

  function Resolve(cfg: Config, agent: Option<string>, model: Option<string>, effort: Option<string>): Result<Resolution, Error> {
    match ChooseAgent(cfg, agent, Given(model))
    case Err(e) => Err(e)
    case Ok(name) =>
      match Get(cfg.agents, name)
      case None => Err(NoSuchAgent)
      case Some(a) => Settle(name, a, Given(model), Given(effort))
  }

  /** The same as a sequence of steps over local variables. */
  method ResolveRequest(cfg: Config, agent: Option<string>, model: Option<string>, effort: Option<string>)
    returns (r: Result<Resolution, Error>)
    ensures r == Resolve(cfg, agent, model, effort)
  {
    var modelText, effortText := Given(model), Given(effort);
    var name := cfg.defaultAgent;
    if agent.Some? && agent.value != "" {
      var key := Strip(agent.value);
      if Get(cfg.agents, key).None? {
        var same := ByKey(cfg.agents, key);
        if same.None? {
          return Err(NoSuchAgent);
        }
        key := same.value;
      }
      var found := Get(cfg.agents, key);
      if found.None? {
        return Err(NoSuchAgent);
      }
      if !found.value.enabled {
        return Err(AgentDisabled);
      }
      name := key;
    } else if modelText.Some? {
      var hits := FindAgents(cfg, modelText.value);
      if hits != [] {
        name := hits[0];
      } else if AnySelection(cfg.agents) {
        return Err(ModelNowhere);
      }
    }
    var a := Get(cfg.agents, name);
    if a.None? {
      return Err(NoSuchAgent);
    }
    r := SettleRequest(name, a.value, modelText, effortText);
  }

  /** What follows once the agent is known. */
  method SettleRequest(name: string, a: Agent, modelText: Option<string>, effortText: Option<string>)
    returns (r: Result<Resolution, Error>)
    ensures r == Settle(name, a, modelText, effortText)
  {
    if !a.modelArgs && !a.effortArgs {
      return Ok(Resolution(name, None, None));
    }
    var picked := PickModel(a, modelText);
    if picked.Err? {
      return Err(picked.error);
    }
    var chosen := picked.value;
    var allowed := EffortsFor(a, chosen);
    var eff := PickEffort(a, chosen, effortText);
    if eff.Some? && eff.value != "" && allowed == [] {
      eff := None;
    } else if eff.Some? && eff.value != "" && eff.value !in allowed {
      eff := Some(Clamp(EFFORT_ORDER, eff.value, allowed));
    }
    assert eff == ChooseEffort(a, chosen, effortText);
    if a.effortRequired && chosen.Some? && chosen.value != "" && allowed != [] && (eff.None? || eff.value == "") {
      return Err(EffortNeeded);
    }
    return Ok(Resolution(name, chosen, eff));
  }

  /** `_canon`. */
  method FindName(a: Agent, text: string) returns (name: Option<string>)
    ensures name == Canon(a, text)
  {
    var table := BuildLookup(a);
    var key := Normalize(text);
    if key in table {
      return Some(table[key]);
    }
    return None;
  }

  /** The model asked for, unless it is unknown or blocked, or the default. */
  method PickModel(a: Agent, modelText: Option<string>) returns (r: Result<Option<string>, Error>)
    ensures r == ChooseModel(a, modelText)
  {
    var chosen: Option<string> := None;
    if modelText.Some? {
      var canon := FindName(a, modelText.value);
      if canon.None? || canon.value !in Known(a) {
        return Err(NotAModel);
      }
      chosen := canon;
    }
    if chosen.Some? && chosen.value != "" && chosen.value in a.blocked {
      return Err(ModelBlocked);
    }
    if chosen.None? {
      chosen := if a.defaultModel != "" then Some(a.defaultModel) else None;
      if chosen.Some? && chosen.value in a.restricted {
        return Err(DefaultIsRestricted);
      }
    }
    return Ok(chosen);
  }

  /** The effort asked for, or the default. */
  method PickEffort(a: Agent, chosen: Option<string>, effortText: Option<string>) returns (eff: Option<string>)
    ensures eff == WantedEffort(a, chosen, effortText)
  {
    if effortText.Some? {
      eff := FindName(a, effortText.value);
      if eff.None? || eff.value == "" {
        eff := Some(Normalize(effortText.value));
      }
    } else {
      eff := Get(a.modelEffort, if chosen.Some? then chosen.value else "");
      if eff.None? || eff.value == "" {
        eff := if a.defaultEffort != "" then Some(a.defaultEffort) else None;
      }
    }
  }

  // --------------------------------------------------- what resolving promises

  lemma {:induction false} KeptIsAllowed(order: seq<string>, allowed: seq<string>, level: string)
    ensures level in Kept(order, allowed) <==> level in order && level in allowed
  {
    if order != [] {
      KeptIsAllowed(order[1..], allowed, level);
    }
  }

  lemma {:induction false} BelowIsKept(order: seq<string>, levels: seq<string>, want: nat, level: string)
    ensures level in Below(order, levels, want) <==> level in levels && Rank(order, level) < want
  {
    if levels != [] {
      BelowIsKept(order, levels[1..], want, level);
    }
  }

  /** What clamping picks is always accepted. */
  lemma ClampIsAllowed(order: seq<string>, effort: string, allowed: seq<string>)
    requires allowed != []
    ensures Clamp(order, effort, allowed) in allowed
  {
    var ordered := Kept(order, allowed);
    if effort !in allowed && ordered != [] {
      KeptIsAllowed(order, allowed, ordered[0]);
      KeptIsAllowed(order, allowed, ordered[|ordered| - 1]);
      var lower := Below(order, ordered, Rank(order, effort));
      if lower != [] {
        BelowIsKept(order, ordered, Rank(order, effort), lower[|lower| - 1]);
        KeptIsAllowed(order, allowed, lower[|lower| - 1]);
      }
    }
  }

  /** Levels in rising order. */
  ghost predicate Rising(order: seq<string>, levels: seq<string>) {
    forall i, j :: 0 <= i < j < |levels| ==> Rank(order, levels[i]) < Rank(order, levels[j])
  }

  lemma {:induction false} RankIsPosition(order: seq<string>, i: nat)
    requires i < |order| && forall j, k :: 0 <= j < k < |order| ==> order[j] != order[k]
    ensures Rank(order, order[i]) == i
  {
    if i > 0 {
      assert forall j, k :: 0 <= j < k < |order[1..]| ==> order[1..][j] == order[j + 1] && order[1..][k] == order[k + 1];
      RankIsPosition(order[1..], i - 1);
    }
  }

  lemma {:induction false} RankBound(order: seq<string>, level: string)
    ensures Rank(order, level) < |order| <==> level in order
    ensures Rank(order, level) <= |order|
    ensures level in order ==> order[Rank(order, level)] == level
  {
    if order != [] {
      RankBound(order[1..], level);
    }
  }

  /** The kept levels of the tail of an order, ranked in the whole of it, rise. */
  lemma {:induction false} KeptRises(order: seq<string>, n: nat, allowed: seq<string>)
    requires n <= |order| && forall j, k :: 0 <= j < k < |order| ==> order[j] != order[k]
    ensures Rising(order, Kept(order[n..], allowed))
    ensures forall i :: 0 <= i < |Kept(order[n..], allowed)| ==> Rank(order, Kept(order[n..], allowed)[i]) >= n
    decreases |order| - n
  {
    if n < |order| {
      KeptRises(order, n + 1, allowed);
      RankIsPosition(order, n);
      assert order[n..][1..] == order[n + 1..];
    }
  }

  lemma {:induction false} BelowRises(order: seq<string>, levels: seq<string>, want: nat)
    requires Rising(order, levels)
    ensures Rising(order, Below(order, levels, want))
  {
    if levels != [] {
      assert forall i, j :: 0 <= i < j < |levels[1..]| ==> levels[1..][i] == levels[i + 1] && levels[1..][j] == levels[j + 1];
      BelowRises(order, levels[1..], want);
      var rest := Below(order, levels[1..], want);
      forall i | 0 <= i < |rest|
        ensures Rank(order, levels[0]) < Rank(order, rest[i])
      {
        BelowIsKept(order, levels[1..], want, rest[i]);
        var j :| 0 <= j < |levels[1..]| && levels[1..][j] == rest[i];
        assert levels[j + 1] == rest[i];
      }
    }
  }

  lemma LastIsHighest(order: seq<string>, levels: seq<string>, level: string)
    requires Rising(order, levels) && level in levels
    ensures Rank(order, levels[0]) <= Rank(order, level) <= Rank(order, levels[|levels| - 1])
  {
  }

  /** Among the known levels: the highest allowed one that is not above `want`, or the lowest
      allowed one if all are above it. */
  ghost predicate BestBelow(order: seq<string>, want: string, allowed: seq<string>, r: string) {
    && r in order && r in allowed
    && (Rank(order, r) <= Rank(order, want) ==>
          forall level :: level in order && level in allowed && Rank(order, level) <= Rank(order, want) ==> Rank(order, level) <= Rank(order, r))
    && (Rank(order, r) > Rank(order, want) ==>
          forall level :: level in order && level in allowed ==> Rank(order, level) > Rank(order, want) && Rank(order, level) >= Rank(order, r))
  }

  /** A known level is brought to the highest allowed known level not above it, else to the
      lowest one there is. */
  lemma ClampPicksTheBest(order: seq<string>, effort: string, allowed: seq<string>)
    requires forall j, k :: 0 <= j < k < |order| ==> order[j] != order[k]
    requires effort in order && Kept(order, allowed) != [] && allowed != []
    ensures BestBelow(order, effort, allowed, Clamp(order, effort, allowed))
  {
    var r := Clamp(order, effort, allowed);
    if effort !in allowed {
      var ordered := Kept(order, allowed);
      var want := Rank(order, effort);
      var lower := Below(order, ordered, want);
      KeptRises(order, 0, allowed);
      assert order[0..] == order;
      BelowRises(order, ordered, want);
      KeptIsAllowed(order, allowed, ordered[0]);
      if lower != [] {
        BelowIsKept(order, ordered, want, r);
        KeptIsAllowed(order, allowed, r);
      }
      forall level | level in order && level in allowed
        ensures Rank(order, level) != want
        ensures lower != [] && Rank(order, level) < want ==> Rank(order, level) <= Rank(order, r)
        ensures lower == [] ==> Rank(order, level) > want && Rank(order, level) >= Rank(order, r)
      {
        RankBound(order, level);
        RankBound(order, effort);
        KeptIsAllowed(order, allowed, level);
        LastIsHighest(order, ordered, level);
        BelowIsKept(order, ordered, want, level);
        if level in lower {
          LastIsHighest(order, lower, level);
        }
      }
    }
  }

  /** A higher request is never brought to a lower level. */
  lemma ClampIsMonotone(order: seq<string>, low: string, high: string, allowed: seq<string>)
    requires forall j, k :: 0 <= j < k < |order| ==> order[j] != order[k]
    requires low in order && high in order && Rank(order, low) <= Rank(order, high)
    requires Kept(order, allowed) != [] && allowed != []
    ensures Rank(order, Clamp(order, low, allowed)) <= Rank(order, Clamp(order, high, allowed))
  {
    ClampPicksTheBest(order, low, allowed);
    ClampPicksTheBest(order, high, allowed);
  }

  lemma LevelsAreDistinct()
    ensures forall j, k :: 0 <= j < k < |EFFORT_ORDER| ==> EFFORT_ORDER[j] != EFFORT_ORDER[k]
  {
  }

  /** All this holds of the program's own levels. */
  lemma EffortsClampInOrder(low: string, high: string, allowed: seq<string>)
    requires low in EFFORT_ORDER && high in EFFORT_ORDER && Rank(EFFORT_ORDER, low) <= Rank(EFFORT_ORDER, high)
    requires Kept(EFFORT_ORDER, allowed) != [] && allowed != []
    ensures BestBelow(EFFORT_ORDER, low, allowed, Clamp(EFFORT_ORDER, low, allowed))
    ensures Rank(EFFORT_ORDER, Clamp(EFFORT_ORDER, low, allowed)) <= Rank(EFFORT_ORDER, Clamp(EFFORT_ORDER, high, allowed))
  {
    LevelsAreDistinct();
    ClampPicksTheBest(EFFORT_ORDER, low, allowed);
    ClampIsMonotone(EFFORT_ORDER, low, high, allowed);
  }

  predicate Empty(s: Option<string>) {
    s.None? || s.value == ""
  }

  lemma ChosenEffortIsAccepted(a: Agent, model: Option<string>, effort: Option<string>)
    ensures Empty(ChooseEffort(a, model, effort)) || ChooseEffort(a, model, effort).value in EffortsFor(a, model)
  {
    var allowed := EffortsFor(a, model);
    var wanted := WantedEffort(a, model, effort);
    if !Empty(wanted) && allowed != [] {
      ClampIsAllowed(EFFORT_ORDER, wanted.value, allowed);
    }
  }

  lemma {:induction false} FoundIsThere<V>(pairs: seq<(string, V)>, key: string)
    requires Get(pairs, key).Some?
    ensures exists i :: 0 <= i < |pairs| && pairs[i] == (key, Get(pairs, key).value)
  {
    if pairs[0].0 == key {
      assert pairs[0] == (key, Get(pairs, key).value);
    } else {
      FoundIsThere(pairs[1..], key);
      var i :| 0 <= i < |pairs[1..]| && pairs[1..][i] == (key, Get(pairs, key).value);
      assert pairs[i + 1] == (key, Get(pairs, key).value);
    }
  }

  /** What an agent's settled choice may be. */
  ghost predicate Allowed(a: Agent, model: Option<string>, r: Resolution) {
    && (!Empty(r.model) ==> r.model.value !in a.blocked)
    && (!Empty(r.model) && r.model.value in a.restricted ==> model.Some? && Canon(a, model.value) == r.model)
    && (!Empty(r.model) ==> r.model.value in Known(a) || (model.None? && r.model.value == a.defaultModel))
    && (Empty(r.effort) || r.effort.value in EffortsFor(a, r.model))
    && (a.effortRequired && !Empty(r.model) && EffortsFor(a, r.model) != [] ==> !Empty(r.effort))
  }

  lemma SettledIsAllowed(name: string, a: Agent, model: Option<string>, effort: Option<string>)
    requires Fine(a) && Settle(name, a, model, effort).Ok?
    ensures Allowed(a, model, Settle(name, a, model, effort).value)
  {
    if a.modelArgs || a.effortArgs {
      ChosenEffortIsAccepted(a, ChooseModel(a, model).value, effort);
    }
  }

  /** For every loaded configuration and every request: no blocked model is ever chosen, a
      restricted one only when the request's text stands for it, the effort is one the model
      accepts, and there is one where it must be. Neither the loading checks nor the resolver
      alone gives this. */
  lemma ResolvedIsAllowed(cfg: Config, agent: Option<string>, model: Option<string>, effort: Option<string>)
    requires Accepted(cfg) && Resolve(cfg, agent, model, effort).Ok?
    ensures var r := Resolve(cfg, agent, model, effort).value;
            Get(cfg.agents, r.agent).Some? && Allowed(Get(cfg.agents, r.agent).value, Given(model), r)
  {
    var name := ChooseAgent(cfg, agent, Given(model)).value;
    FoundIsThere(cfg.agents, name);
    SettledIsAllowed(name, Get(cfg.agents, name).value, Given(model), Given(effort));
  }

  lemma {:induction false} HitsSayYes(agents: seq<(string, Agent)>, yes: Agent -> bool, name: string)
    requires name in HitsOf(agents, yes)
    ensures exists i :: 0 <= i < |agents| && agents[i].0 == name && yes(agents[i].1)
  {
    if yes(agents[0].1) && agents[0].0 == name {
    } else {
      HitsSayYes(agents[1..], yes, name);
      var i :| 0 <= i < |agents[1..]| && agents[1..][i].0 == name && yes(agents[1..][i].1);
      assert agents[i + 1] == agents[1..][i];
    }
  }

  lemma HitsAreEnabled(agents: seq<(string, Agent)>, text: string, name: string)
    requires name in Hits(agents, text)
    ensures exists i :: 0 <= i < |agents| && agents[i].0 == name && agents[i].1.enabled
  {
    HitsSayYes(agents, (a: Agent) => Recognises(a, text), name);
  }

  lemma {:induction false} AmongThem(names: seq<string>, name: string, same: bool, x: string)
    ensures x in Among(names, name, same) <==> x in names && (x == name) == same
  {
    if names != [] {
      AmongThem(names[1..], name, same, x);
    }
  }

  /** The agents found for a model are those that are enabled and know it, the default first. */
  lemma AgentsForModelAreThose(cfg: Config, text: string, name: string)
    ensures name in AgentsForModel(cfg, text) <==> name in Hits(cfg.agents, text)
    ensures cfg.defaultAgent in Hits(cfg.agents, text) ==> AgentsForModel(cfg, text)[0] == cfg.defaultAgent
  {
    var hits := Hits(cfg.agents, text);
    AmongThem(hits, cfg.defaultAgent, true, name);
    AmongThem(hits, cfg.defaultAgent, false, name);
    if cfg.defaultAgent in hits {
      AmongThem(hits, cfg.defaultAgent, true, cfg.defaultAgent);
      AmongThem(hits, cfg.defaultAgent, true, Among(hits, cfg.defaultAgent, true)[0]);
    }
  }

  /** An agent that is named, or found by its model, is enabled. */
  lemma ChosenAgentIsEnabled(cfg: Config, agent: Option<string>, model: Option<string>)
    requires ChooseAgent(cfg, agent, model).Ok?
    requires (agent.Some? && agent.value != "") || (model.Some? && Hits(cfg.agents, model.value) != [])
    ensures var name := ChooseAgent(cfg, agent, model).value;
            exists i :: 0 <= i < |cfg.agents| && cfg.agents[i].0 == name && cfg.agents[i].1.enabled
  {
    var name := ChooseAgent(cfg, agent, model).value;
    if agent.Some? && agent.value != "" {
      FoundIsThere(cfg.agents, name);
    } else {
      var text := model.value;
      AgentsForModelAreThose(cfg, text, Hits(cfg.agents, text)[0]);
      AgentsForModelAreThose(cfg, text, name);
      HitsAreEnabled(cfg.agents, text, name);
    }
  }

  /** The loading check is what keeps a blocked default out: without it the resolver hands it
      on, whatever effort is asked for. */
  lemma OnlyLoadingCatchesABlockedDefault(name: string, a: Agent, effort: Option<string>)
    requires a.modelArgs && !a.effortRequired && a.defaultModel != "" && a.defaultModel !in a.restricted
    ensures Settle(name, a, None, effort).Ok?
    ensures Settle(name, a, None, effort).value.model.value in a.blocked <==> a.defaultModel in a.blocked
  {
  }

  // ----------------------------------------------------------------- the keys

  /** A run of letters or a run of digits. */
  ghost predicate Pure(w: string) {
    w != [] && KindOf(w[0]) != Separator && forall i :: 0 <= i < |w| ==> KindOf(w[i]) == KindOf(w[0])
  }

  lemma {:induction false} WordsArePure(s: string)
    ensures forall i :: 0 <= i < |Words(s)| ==> Pure(Words(s)[i])
    decreases |s|
  {
    if s != [] {
      if KindOf(s[0]) == Separator {
        WordsArePure(s[1..]);
      } else {
        WordsArePure(s[RunLength(s, KindOf(s[0]))..]);
      }
    }
  }

  lemma {:induction false} RunOfKind(w: string, rest: string, k: Kind)
    requires forall i :: 0 <= i < |w| ==> KindOf(w[i]) == k
    requires rest == [] || KindOf(rest[0]) != k
    ensures RunLength(w + rest, k) == |w|
  {
    if w == [] {
      assert w + rest == rest;
    } else {
      RunOfKind(w[1..], rest, k);
      assert (w + rest)[1..] == w[1..] + rest;
    }
  }

  lemma FirstWord(w: string, rest: string)
    requires Pure(w) && (rest == [] || KindOf(rest[0]) == Separator)
    ensures Words(w + rest) == [w] + Words(rest)
  {
    RunOfKind(w, rest, KindOf(w[0]));
    assert (w + rest)[..|w|] == w && (w + rest)[|w|..] == rest;
    assert (w + rest)[0] == w[0];
  }

  lemma AfterSpace(s: string)
    ensures Words(" " + s) == Words(s)
  {
    assert (" " + s)[1..] == s;
  }

  lemma SpacedMore(ws: seq<string>)
    requires |ws| > 1
    ensures Spaced(ws) == ws[0] + (" " + Spaced(ws[1..]))
  {
  }

  lemma {:induction false} WordsOfSpaced(ws: seq<string>)
    requires forall i :: 0 <= i < |ws| ==> Pure(ws[i])
    ensures Words(Spaced(ws)) == ws
  {
    if |ws| == 1 {
      FirstWord(ws[0], []);
      assert ws[0] + [] == ws[0];
      assert ws == [ws[0]] + [];
    } else if |ws| > 1 {
      WordsOfSpaced(ws[1..]);
      SpacedMore(ws);
      AfterSpace(Spaced(ws[1..]));
      FirstWord(ws[0], " " + Spaced(ws[1..]));
      assert ws == [ws[0]] + ws[1..];
    }
  }

  lemma {:induction false} SpacedIsLower(ws: seq<string>)
    requires forall i :: 0 <= i < |ws| ==> Pure(ws[i])
    ensures forall i :: 0 <= i < |Spaced(ws)| ==> KindOf(Spaced(ws)[i]) != Separator || Spaced(ws)[i] == ' '
  {
    if ws != [] {
      assert Pure(ws[0]);
      if |ws| > 1 {
        SpacedIsLower(ws[1..]);
      }
    }
  }

  /** Two texts have the same key exactly when, in lower case, they are the same runs of letters
      and digits in the same order. */
  lemma SameKeyMeansSameWords(s: string, t: string)
    ensures Normalize(s) == Normalize(t) <==> Words(Lower(s)) == Words(Lower(t))
  {
    WordsArePure(Lower(s));
    WordsArePure(Lower(t));
    WordsOfSpaced(Words(Lower(s)));
    WordsOfSpaced(Words(Lower(t)));
  }

  /** A key is its own key. */
  lemma NormalizeTwice(s: string)
    ensures Normalize(Normalize(s)) == Normalize(s)
  {
    var ws := Words(Lower(s));
    WordsArePure(Lower(s));
    SpacedIsLower(ws);
    assert Lower(Spaced(ws)) == Spaced(ws);
    WordsOfSpaced(ws);
  }

  // ------------------------------------------------------- what the table says

  /** The last name with this key. */
  function LastWith(names: seq<string>, key: string): Option<string> {
    if names == [] then None
    else if Normalize(names[|names| - 1]) == key then Some(names[|names| - 1])
    else LastWith(names[..|names| - 1], key)
  }

  function Either(a: Option<string>, b: Option<string>): Option<string> {
    if a.Some? then a else b
  }

  function At(t: Table, key: string): Option<string> {
    if key in t then Some(t[key]) else None
  }

  lemma {:induction false} LastOfMore(name: string, names: seq<string>, key: string)
    ensures LastWith([name] + names, key) == Either(LastWith(names, key), if Normalize(name) == key then Some(name) else None)
  {
    var all := [name] + names;
    if names == [] {
      assert all[..0] == [];
    } else {
      assert all[..|all| - 1] == [name] + names[..|names| - 1];
      LastOfMore(name, names[..|names| - 1], key);
    }
  }

  lemma {:induction false} NamedSays(t: Table, names: seq<string>, key: string)
    ensures At(Named(t, names), key) == Either(LastWith(names, key), At(t, key))
    decreases |names|
  {
    if names != [] {
      NamedSays(t[Normalize(names[0]) := names[0]], names[1..], key);
      LastOfMore(names[0], names[1..], key);
      assert names == [names[0]] + names[1..];
    }
  }

  predicate HasAlias(aliases: seq<(string, string)>, key: string) {
    aliases != [] && (Normalize(aliases[0].0) == key || HasAlias(aliases[1..], key))
  }

  lemma {:induction false} AliasedSays(t: Table, aliases: seq<(string, string)>, key: string)
    requires !HasAlias(aliases, key)
    ensures At(Aliased(t, aliases), key) == At(t, key)
    decreases |aliases|
  {
    if aliases != [] {
      var (text, canon) := aliases[0];
      AliasedSays(t[Normalize(text) := if Normalize(canon) in t then t[Normalize(canon)] else canon], aliases[1..], key);
    }
  }

  /** A text that is no alias stands for the last model with its key, else for the last effort
      of the agent with it, else for the level with it, else for nothing. */
  lemma TextStandsFor(a: Agent, text: string)
    requires !HasAlias(a.aliases, Normalize(text))
    ensures Canon(a, text) == Either(LastWith(Known(a), Normalize(text)),
                                     Either(LastWith(AllEfforts(a.efforts, a.modelEfforts), Normalize(text)),
                                            LastWith(EFFORT_ORDER, Normalize(text))))
  {
    var key := Normalize(text);
    var levels := Named(map[], EFFORT_ORDER);
    var efforts := Named(levels, AllEfforts(a.efforts, a.modelEfforts));
    AliasedSays(Named(efforts, Known(a)), a.aliases, key);
    NamedSays(efforts, Known(a), key);
    NamedSays(levels, AllEfforts(a.efforts, a.modelEfforts), key);
    NamedSays(map[], EFFORT_ORDER, key);
  }
}
