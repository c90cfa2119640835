/** The data plane's compiled config: Apply, the lookups, and what they say about the tables. */
module ConfigStore {
  import opened Llm
  import opened WorkspaceConfig
  import opened Wrappers
  import Guards
  import Pipeline

  /** A source with its guards and transformers built and split by phase. */
  datatype ResolvedSource = ResolvedSource(
    config: SourceConfig,
    orgId: Uuid,
    inputGuards: seq<Guards.Guard>,
    outputGuards: seq<Guards.Guard>,
    inputTransformers: seq<Pipeline.Transformer>,
    outputTransformers: seq<Pipeline.Transformer>)

  /** A limit of 0 means the data plane's default. */
  datatype AuthInfo = AuthInfo(orgId: Uuid, keyHash: string, rateLimitRps: Float64, rateLimitBurst: int)

  datatype Snapshot = Snapshot(
    version: string,
    apiKeys: map<string, AuthInfo>,
    sources: map<(Uuid, string), ResolvedSource>,
    alerts: map<Uuid, seq<AlertWebhookConfig>>)

  /** The factories of both registries: type, name, config. */
  datatype Registry = Registry(
    guard: (string, string, Json) -> Result<Guards.Core>,
    transformer: (string, string, Json) -> Result<Pipeline.Core>)

  // ----- optional fields of a config -----

  /** json.Unmarshal into a struct with one string field: "" if absent, null, ill-typed or no object. */
  function ReadString(config: Json, key: string): string {
    if config.Object? && key in config.fields && config.fields[key].String? then config.fields[key].s else ""
  }

  function IsFailOpen(config: Json): bool { ReadString(config, "on_error") == "fail_open" }

  function IsShadow(config: Json): bool { ReadString(config, "mode") == "shadow" }

  function Wrap(core: Guards.Core, config: Json): Guards.Guard {
    var g := Guards.Plain(core);
    var g := if ReadString(config, "scope") == "all_messages" then Guards.ScopeAllMessages(g) else g;
    var g := if IsFailOpen(config) then Guards.FailOpen(g) else g;
    if IsShadow(config) then Guards.Shadow(g) else g
  }

  function WrapTransformer(core: Pipeline.Core, config: Json): Pipeline.Transformer {
    if IsFailOpen(config) then Pipeline.FailOpen(Pipeline.Plain(core)) else Pipeline.Plain(core)
  }

  // ----- the compiled form as a function of the payload -----

  function GuardrailId(g: GuardrailConfig): Uuid { g.id }

  function TransformerId(t: TransformerConfig): Uuid { t.id }

  /** Rows by id; the last one wins, as in the map the loop fills. */
  function IndexBy<C>(cs: seq<C>, idOf: C -> Uuid): map<Uuid, C> {
    if cs == [] then map[]
    else
      var last := cs[|cs| - 1];
      IndexBy(cs[..|cs| - 1], idOf)[idOf(last) := last]
  }

  predicate InPhase(guardPhase: string, phase: string) {
    guardPhase == phase || guardPhase == "both"
  }

  function GuardOf(reg: Registry, g: GuardrailConfig, phase: string): seq<Guards.Guard> {
    match reg.guard(g.guardType, g.name, g.config)
    case Ok(core) => if InPhase(g.phase, phase) then [Wrap(core, g.config)] else []
    case Err(_) => []
  }

  function TransformerOf(reg: Registry, t: TransformerConfig, phase: string): seq<Pipeline.Transformer> {
    match reg.transformer(t.transformerType, t.name, t.config)
    case Ok(core) => if t.phase == phase then [WrapTransformer(core, t.config)] else []
    case Err(_) => []
  }

  function GuardsOf(reg: Registry, index: map<Uuid, GuardrailConfig>, ids: seq<Uuid>,
                    phase: string): seq<Guards.Guard> {
    if ids == [] then []
    else
      var n := |ids| - 1;
      GuardsOf(reg, index, ids[..n], phase) + (if ids[n] in index then GuardOf(reg, index[ids[n]], phase) else [])
  }

  function TransformersOf(reg: Registry, index: map<Uuid, TransformerConfig>, ids: seq<Uuid>,
                          phase: string): seq<Pipeline.Transformer> {
    if ids == [] then []
    else
      var n := |ids| - 1;
      var last := if ids[n] in index then TransformerOf(reg, index[ids[n]], phase) else [];
      TransformersOf(reg, index, ids[..n], phase) + last
  }

  function Resolve(reg: Registry, org: OrgConfig, src: SourceConfig): ResolvedSource {
    var gs, ts := IndexBy(org.guardrails, GuardrailId), IndexBy(org.transformers, TransformerId);
    ResolvedSource(src, org.id,
                   GuardsOf(reg, gs, src.guardrailIds, "input"), GuardsOf(reg, gs, src.guardrailIds, "output"),
                   TransformersOf(reg, ts, src.transformerIds, "input"),
                   TransformersOf(reg, ts, src.transformerIds, "output"))
  }

  ghost predicate GuardFails(reg: Registry, index: map<Uuid, GuardrailConfig>, ids: seq<Uuid>) {
    exists i :: 0 <= i < |ids| && ids[i] in index
      && reg.guard(index[ids[i]].guardType, index[ids[i]].name, index[ids[i]].config).Err?
  }

  ghost predicate TransformerFails(reg: Registry, index: map<Uuid, TransformerConfig>, ids: seq<Uuid>) {
    exists i :: 0 <= i < |ids| && ids[i] in index
      && reg.transformer(index[ids[i]].transformerType, index[ids[i]].name, index[ids[i]].config).Err?
  }

  /** Some attached, enabled guard or transformer of the source cannot be built. */
  ghost predicate SourceFails(reg: Registry, org: OrgConfig, src: SourceConfig) {
    || GuardFails(reg, IndexBy(org.guardrails, GuardrailId), src.guardrailIds)
    || TransformerFails(reg, IndexBy(org.transformers, TransformerId), src.transformerIds)
  }

  ghost predicate OrgFails(reg: Registry, org: OrgConfig) {
    exists i :: 0 <= i < |org.sources| && SourceFails(reg, org, org.sources[i])
  }

  ghost predicate ConfigFails(reg: Registry, orgs: seq<OrgConfig>) {
    exists i :: 0 <= i < |orgs| && OrgFails(reg, orgs[i])
  }

  function AddSources(reg: Registry, m: map<(Uuid, string), ResolvedSource>, org: OrgConfig,
                      srcs: seq<SourceConfig>): map<(Uuid, string), ResolvedSource> {
    if srcs == [] then m
    else
      var n := |srcs| - 1;
      AddSources(reg, m, org, srcs[..n])[(org.id, srcs[n].route) := Resolve(reg, org, srcs[n])]
  }

  lemma {:induction false} SourcesNext(reg: Registry, m: map<(Uuid, string), ResolvedSource>, org: OrgConfig,
    srcs: seq<SourceConfig>, i: nat)
    requires i < |srcs|
    ensures AddSources(reg, m, org, srcs[..i + 1])
      == AddSources(reg, m, org, srcs[..i])[(org.id, srcs[i].route) := Resolve(reg, org, srcs[i])]
  {
    assert srcs[..i + 1][..i] == srcs[..i];
  }

  function SourceMap(reg: Registry, orgs: seq<OrgConfig>): map<(Uuid, string), ResolvedSource> {
    if orgs == [] then map[]
    else
      var n := |orgs| - 1;
      AddSources(reg, SourceMap(reg, orgs[..n]), orgs[n], orgs[n].sources)
  }

  function AuthInfoOf(org: Uuid, k: APIKeyConfig): AuthInfo {
    AuthInfo(org, k.keyHash, k.rateLimitRps.GetOr(ZERO), k.rateLimitBurst.GetOr(0))
  }

  function AddKeys(m: map<string, AuthInfo>, org: Uuid, keys: seq<APIKeyConfig>): map<string, AuthInfo> {
    if keys == [] then m
    else
      var n := |keys| - 1;
      AddKeys(m, org, keys[..n])[keys[n].keyHash := AuthInfoOf(org, keys[n])]
  }

  function KeyMap(orgs: seq<OrgConfig>): map<string, AuthInfo> {
    if orgs == [] then map[]
    else
      var n := |orgs| - 1;
      AddKeys(KeyMap(orgs[..n]), orgs[n].id, orgs[n].apiKeys)
  }

  function AlertMap(orgs: seq<OrgConfig>): map<Uuid, seq<AlertWebhookConfig>> {
    if orgs == [] then map[]
    else
      var n := |orgs| - 1;
      if orgs[n].alertWebhooks == [] then AlertMap(orgs[..n])
      else AlertMap(orgs[..n])[orgs[n].id := orgs[n].alertWebhooks]
  }

  lemma KeysNext(orgs: seq<OrgConfig>, i: nat)
    requires i < |orgs|
    ensures KeyMap(orgs[..i + 1]) == AddKeys(KeyMap(orgs[..i]), orgs[i].id, orgs[i].apiKeys)
  {
    assert orgs[..i + 1][..i] == orgs[..i];
  }

  lemma AlertsNext(orgs: seq<OrgConfig>, i: nat)
    requires i < |orgs|
    ensures AlertMap(orgs[..i + 1]) ==
      if orgs[i].alertWebhooks == [] then AlertMap(orgs[..i])
      else AlertMap(orgs[..i])[orgs[i].id := orgs[i].alertWebhooks]
  {
    assert orgs[..i + 1][..i] == orgs[..i];
  }

  lemma {:induction false} MapsNext(reg: Registry, orgs: seq<OrgConfig>, i: nat)
    requires i < |orgs|
    ensures SourceMap(reg, orgs[..i + 1]) == AddSources(reg, SourceMap(reg, orgs[..i]), orgs[i], orgs[i].sources)
  {
    assert orgs[..i + 1][..i] == orgs[..i];
  }

  function Compile(reg: Registry, cfg: Config): Snapshot {
    Snapshot(cfg.version, KeyMap(cfg.organizations), SourceMap(reg, cfg.organizations), AlertMap(cfg.organizations))
  }

  // ----- the store -----

  /** Builds the guards of one source in attachment order. */
  method BuildGuards(reg: Registry, index: map<Uuid, GuardrailConfig>, ids: seq<Uuid>)
    returns (r: Result<(seq<Guards.Guard>, seq<Guards.Guard>)>)
    ensures r.Err? <==> GuardFails(reg, index, ids)
    ensures r.Ok? ==> r.value == (GuardsOf(reg, index, ids, "input"), GuardsOf(reg, index, ids, "output"))
  {
    var inputs: seq<Guards.Guard>, outputs: seq<Guards.Guard> := [], [];
    for i := 0 to |ids|
      invariant !GuardFails(reg, index, ids[..i])
      invariant inputs == GuardsOf(reg, index, ids[..i], "input")
      invariant outputs == GuardsOf(reg, index, ids[..i], "output")
    {
      assert ids[..i + 1][..i] == ids[..i];
      if ids[i] !in index {
        continue;
      }
      var gc := index[ids[i]];
      var core := reg.guard(gc.guardType, gc.name, gc.config);
      if core.Err? {
        return Err(core.error);
      }
      var g := Wrap(core.value, gc.config);
      if gc.phase == "input" || gc.phase == "both" {
        inputs := inputs + [g];
      }
      if gc.phase == "output" || gc.phase == "both" {
        outputs := outputs + [g];
      }
    }
    assert ids[..|ids|] == ids;
    r := Ok((inputs, outputs));
  }

  method BuildTransformers(reg: Registry, index: map<Uuid, TransformerConfig>, ids: seq<Uuid>)
    returns (r: Result<(seq<Pipeline.Transformer>, seq<Pipeline.Transformer>)>)
    ensures r.Err? <==> TransformerFails(reg, index, ids)
    ensures r.Ok? ==> r.value == (TransformersOf(reg, index, ids, "input"), TransformersOf(reg, index, ids, "output"))
  {
    var inputs: seq<Pipeline.Transformer>, outputs: seq<Pipeline.Transformer> := [], [];
    for i := 0 to |ids|
      invariant !TransformerFails(reg, index, ids[..i])
      invariant inputs == TransformersOf(reg, index, ids[..i], "input")
      invariant outputs == TransformersOf(reg, index, ids[..i], "output")
    {
      assert ids[..i + 1][..i] == ids[..i];
      if ids[i] !in index {
        continue;
      }
      var tc := index[ids[i]];
      var core := reg.transformer(tc.transformerType, tc.name, tc.config);
      if core.Err? {
        return Err(core.error);
      }
      var tr := WrapTransformer(core.value, tc.config);
      if tc.phase == "input" {
        inputs := inputs + [tr];
      } else if tc.phase == "output" {
        outputs := outputs + [tr];
      }
    }
    assert ids[..|ids|] == ids;
    r := Ok((inputs, outputs));
  }

  method BuildSources(reg: Registry, m0: map<(Uuid, string), ResolvedSource>, org: OrgConfig)
    returns (r: Result<map<(Uuid, string), ResolvedSource>>)
    ensures r.Err? <==> OrgFails(reg, org)
    ensures r.Ok? ==> r.value == AddSources(reg, m0, org, org.sources)
  {
    var guardrailsById: map<Uuid, GuardrailConfig> := map[];
    for i := 0 to |org.guardrails|
      invariant guardrailsById == IndexBy(org.guardrails[..i], GuardrailId)
    {
      assert org.guardrails[..i + 1][..i] == org.guardrails[..i];
      guardrailsById := guardrailsById[org.guardrails[i].id := org.guardrails[i]];
    }
    assert org.guardrails[..|org.guardrails|] == org.guardrails;
    var transformersById: map<Uuid, TransformerConfig> := map[];
    for i := 0 to |org.transformers|
      invariant transformersById == IndexBy(org.transformers[..i], TransformerId)
    {
      assert org.transformers[..i + 1][..i] == org.transformers[..i];
      transformersById := transformersById[org.transformers[i].id := org.transformers[i]];
    }
    assert org.transformers[..|org.transformers|] == org.transformers;
    var m, srcs := m0, org.sources;
    for i := 0 to |srcs|
      invariant forall j :: 0 <= j < i ==> !SourceFails(reg, org, srcs[j])
      invariant m == AddSources(reg, m0, org, srcs[..i])
    {
      SourcesNext(reg, m0, org, srcs, i);
      var src := srcs[i];
      var guards := BuildGuards(reg, guardrailsById, src.guardrailIds);
      if guards.Err? {
        assert SourceFails(reg, org, srcs[i]);
        return Err(guards.error);
      }
      var transformers := BuildTransformers(reg, transformersById, src.transformerIds);
      if transformers.Err? {
        assert SourceFails(reg, org, srcs[i]);
        return Err(transformers.error);
      }
      m := m[(org.id, src.route) := ResolvedSource(src, org.id, guards.value.0, guards.value.1, transformers.value.0,
                                                   transformers.value.1)];
    }
    assert srcs[..|srcs|] == srcs;
    r := Ok(m);
  }

  method BuildKeys(m0: map<string, AuthInfo>, org: OrgConfig) returns (m: map<string, AuthInfo>)
    ensures m == AddKeys(m0, org.id, org.apiKeys)
  {
    m := m0;
    var keys := org.apiKeys;
    for i := 0 to |keys|
      invariant m == AddKeys(m0, org.id, keys[..i])
    {
      assert keys[..i + 1][..i] == keys[..i];
      var rps := if keys[i].rateLimitRps.Some? then keys[i].rateLimitRps.value else ZERO;
      var burst := if keys[i].rateLimitBurst.Some? then keys[i].rateLimitBurst.value else 0;
      m := m[keys[i].keyHash := AuthInfo(org.id, keys[i].keyHash, rps, burst)];
    }
    assert keys[..|keys|] == keys;
  }

  /** The maps filled from the first n organizations, none of which failed. */
  ghost predicate CompiledUpTo(reg: Registry, orgs: seq<OrgConfig>, n: nat, apiKeys: map<string, AuthInfo>,
                               sources: map<(Uuid, string), ResolvedSource>,
                               alerts: map<Uuid, seq<AlertWebhookConfig>>)
    requires n <= |orgs|
  {
    && (forall j :: 0 <= j < n ==> !OrgFails(reg, orgs[j]))
    && apiKeys == KeyMap(orgs[..n]) && sources == SourceMap(reg, orgs[..n]) && alerts == AlertMap(orgs[..n])
  }

  lemma {:induction false} CompiledNext(reg: Registry, orgs: seq<OrgConfig>, i: nat, apiKeys: map<string, AuthInfo>,
                     sources: map<(Uuid, string), ResolvedSource>, alerts: map<Uuid, seq<AlertWebhookConfig>>)
    requires i < |orgs| && CompiledUpTo(reg, orgs, i, apiKeys, sources, alerts)
    ensures OrgFails(reg, orgs[i]) ==> ConfigFails(reg, orgs)
    ensures !OrgFails(reg, orgs[i]) ==>
      CompiledUpTo(reg, orgs, i + 1, AddKeys(apiKeys, orgs[i].id, orgs[i].apiKeys),
                   AddSources(reg, sources, orgs[i], orgs[i].sources),
                   if orgs[i].alertWebhooks == [] then alerts else alerts[orgs[i].id := orgs[i].alertWebhooks])
  {
    MapsNext(reg, orgs, i);
    KeysNext(orgs, i);
    AlertsNext(orgs, i);
  }

  class Store {
    var current: Option<Snapshot>
    /** The payload the current snapshot was compiled from. */
    ghost var served: Option<Config>

    constructor ()
      ensures current.None? && served.None?
    {
      current, served := None, None;
    }

    ghost predicate Serves(reg: Registry)
      reads this
    {
      current == match served case Some(cfg) => Some(Compile(reg, cfg)) case None => None
    }

    method Loaded() returns (loaded: bool)
      ensures loaded == current.Some?
    {
      loaded := current.Some?;
    }

    method LookupSource(org: Uuid, route: string) returns (src: Option<ResolvedSource>)
      ensures src.Some? <==> current.Some? && (org, route) in current.value.sources
      ensures src.Some? ==> src.value == current.value.sources[(org, route)]
    {
      if current.None? || (org, route) !in current.value.sources {
        return None;
      }
      src := Some(current.value.sources[(org, route)]);
    }

    /** sha256 stands for the hex digest of the presented key. */
    method LookupAPIKey(sha256: string -> string, rawKey: string) returns (info: Option<AuthInfo>)
      ensures info.Some? <==> current.Some? && sha256(rawKey) in current.value.apiKeys
      ensures info.Some? ==> info.value == current.value.apiKeys[sha256(rawKey)]
    {
      if current.None? || sha256(rawKey) !in current.value.apiKeys {
        return None;
      }
      info := Some(current.value.apiKeys[sha256(rawKey)]);
    }

    method AlertWebhooks(org: Uuid) returns (hooks: seq<AlertWebhookConfig>)
      ensures hooks == if current.Some? && org in current.value.alerts then current.value.alerts[org] else []
    {
      if current.None? || org !in current.value.alerts {
        return [];
      }
      hooks := current.value.alerts[org];
    }

    /** Compiles the whole payload first and swaps it in at the end; any failing factory leaves the store alone. */
    method Apply(cfg: Config, reg: Registry) returns (ok: bool)
      modifies this
      ensures ok <==> !ConfigFails(reg, cfg.organizations)
      ensures current == if ok then Some(Compile(reg, cfg)) else old(current)
      ensures served == if ok then Some(cfg) else old(served)
    {
      var apiKeys: map<string, AuthInfo> := map[];
      var sources: map<(Uuid, string), ResolvedSource> := map[];
      var alerts: map<Uuid, seq<AlertWebhookConfig>> := map[];
      var orgs := cfg.organizations;
      for i := 0 to |orgs|
        invariant CompiledUpTo(reg, orgs, i, apiKeys, sources, alerts)
        invariant current == old(current) && served == old(served)
      {
        CompiledNext(reg, orgs, i, apiKeys, sources, alerts);
        var org := orgs[i];
        if |org.alertWebhooks| > 0 {
          alerts := alerts[org.id := org.alertWebhooks];
        }
        apiKeys := BuildKeys(apiKeys, org);
        var built := BuildSources(reg, sources, org);
        if built.Err? {
          return false;
        }
        sources := built.value;
      }
      assert orgs[..|orgs|] == orgs;
      current, served := Some(Snapshot(cfg.version, apiKeys, sources, alerts)), Some(cfg);
      ok := true;
    }
  }
}
