/** Build followed by Apply answers lookups as the tables, read relationally, would. */
module ConfigRefinement {
  import opened ConfigStore
  import opened Llm
  import opened WorkspaceConfig
  import opened Wrappers
  import Guards
  import Pipeline

  // ----- the relational reading -----

  /** The i-th row is live, belongs to the organization and has this id. */
  ghost predicate LiveRow<C>(rows: seq<Row<C>>, idOf: C -> Uuid, i: int, org: Uuid, id: Uuid) {
    0 <= i < |rows| && rows[i].live && rows[i].org == org && idOf(rows[i].data) == id
  }

  /** One source's attachments joined with the live rows of its organization, in attachment order. */
  ghost function JoinedRows<C>(atts: seq<Attachment>, rows: seq<Row<C>>, idOf: C -> Uuid, org: Uuid,
                                     source: Uuid): seq<C>
  {
    if atts == [] then []
    else
      var a := atts[|atts| - 1];
      var earlier := JoinedRows(atts[..|atts| - 1], rows, idOf, org, source);
      if a.sourceId == source && exists i :: LiveRow(rows, idOf, i, org, a.targetId) then
        var i :| LiveRow(rows, idOf, i, org, a.targetId);
        earlier + [rows[i].data]
      else earlier
  }

  /** The config is an object that holds this string under the key. */
  ghost predicate Says(config: Json, key: string, value: string) {
    config.Object? && key in config.fields && config.fields[key] == Json.String(value)
  }

  /** What the guardrail's factory builds, inside the decorators its config asks for and no others. */
  ghost predicate CompiledGuard(reg: Registry, c: GuardrailConfig, guard: Guards.Guard) {
    && reg.guard(c.guardType, c.name, c.config) == Ok(guard.Base())
    && (Guards.Marked(guard, Guards.ScopeMarker) <==> Says(c.config, "scope", "all_messages"))
    && (Guards.Marked(guard, Guards.FailOpenMarker) <==> Says(c.config, "on_error", "fail_open"))
    && (Guards.Marked(guard, Guards.ShadowMarker) <==> Says(c.config, "mode", "shadow"))
  }

  ghost predicate CompiledTransformer(reg: Registry, c: TransformerConfig, t: Pipeline.Transformer) {
    && reg.transformer(c.transformerType, c.name, c.config) == Ok(t.Base())
    && (t.FailOpen? <==> Says(c.config, "on_error", "fail_open"))
  }

  ghost predicate RunsGuard(reg: Registry, c: GuardrailConfig, phase: string) {
    (c.phase == phase || c.phase == "both") && reg.guard(c.guardType, c.name, c.config).Ok?
  }

  ghost predicate RunsTransformer(reg: Registry, c: TransformerConfig, phase: string) {
    c.phase == phase && reg.transformer(c.transformerType, c.name, c.config).Ok?
  }

  /** One compiled guard for each joined row of the phase, in the order of the join. */
  ghost predicate CompiledGuards(reg: Registry, cs: seq<GuardrailConfig>, phase: string, guards: seq<Guards.Guard>) {
    var kept := Chosen(cs, c => RunsGuard(reg, c, phase));
    |guards| == |kept| && forall i :: 0 <= i < |kept| ==> CompiledGuard(reg, kept[i], guards[i])
  }

  ghost predicate CompiledTransformers(reg: Registry, cs: seq<TransformerConfig>, phase: string,
                                       ts: seq<Pipeline.Transformer>) {
    var kept := Chosen(cs, c => RunsTransformer(reg, c, phase));
    |ts| == |kept| && forall i :: 0 <= i < |kept| ==> CompiledTransformer(reg, kept[i], ts[i])
  }

  /** The primary keys and unique constraints of the schema. */
  ghost predicate KeysUnique(db: Database) {
    && (forall i, j :: 0 <= i < j < |db.orgIds| ==> db.orgIds[i] != db.orgIds[j])
    && (forall i, j :: 0 <= i < j < |db.guardrails| ==> db.guardrails[i].data.id != db.guardrails[j].data.id)
    && (forall i, j :: 0 <= i < j < |db.transformers| ==> db.transformers[i].data.id != db.transformers[j].data.id)
    && (forall i, j :: 0 <= i < j < |db.apiKeys| ==> db.apiKeys[i].data.keyHash != db.apiKeys[j].data.keyHash)
    && RoutesUnique(db.sources)
  }

  ghost predicate RoutesUnique(rows: seq<Row<SourceRow>>) {
    forall i, j :: 0 <= i < j < |rows| && rows[i].org == rows[j].org ==> rows[i].data.route != rows[j].data.route
  }

  // ----- guards and transformers of one source -----

  lemma {:induction false} IndexRows<C>(rows: seq<Row<C>>, idOf: C -> Uuid, org: Uuid, id: Uuid)
    ensures var index := IndexBy(Owned(rows, org), idOf);
      && (id in index ==> exists i :: LiveRow(rows, idOf, i, org, id) && index[id] == rows[i].data)
      && (id !in index ==> forall i :: !LiveRow(rows, idOf, i, org, id))
  {
    if rows != [] {
      var n := |rows| - 1;
      IndexRows(rows[..n], idOf, org, id);
      var index, earlier := IndexBy(Owned(rows, org), idOf), IndexBy(Owned(rows[..n], org), idOf);
      assert rows[n].live && rows[n].org == org ==> Owned(rows, org)[..|Owned(rows, org)| - 1] == Owned(rows[..n], org);
      if LiveRow(rows, idOf, n, org, id) {
        assert index[id] == rows[n].data;
      } else {
        assert Owned(rows, org) != Owned(rows[..n], org) ==> rows[n].live && rows[n].org == org;
        assert (id in index <==> id in earlier) && (id in index ==> index[id] == earlier[id]);
        assert forall i :: LiveRow(rows, idOf, i, org, id) <==> LiveRow(rows[..n], idOf, i, org, id);
        if id in index {
          var i :| LiveRow(rows[..n], idOf, i, org, id) && earlier[id] == rows[..n][i].data;
          assert LiveRow(rows, idOf, i, org, id) && rows[i] == rows[..n][i];
        }
      }
    }
  }

  /** The decorators of a built guard are exactly those its config asks for. */
  lemma WrappersAsConfigured(core: Guards.Core, config: Json)
    ensures Wrap(core, config).Base() == core
    ensures Guards.Marked(Wrap(core, config), Guards.ScopeMarker) <==> Says(config, "scope", "all_messages")
    ensures Guards.Marked(Wrap(core, config), Guards.FailOpenMarker) <==> Says(config, "on_error", "fail_open")
    ensures Guards.Marked(Wrap(core, config), Guards.ShadowMarker) <==> Says(config, "mode", "shadow")
  {
    var g0 := Guards.Plain(core);
    var g1 := if ReadString(config, "scope") == "all_messages" then Guards.ScopeAllMessages(g0) else g0;
    var g2 := if IsFailOpen(config) then Guards.FailOpen(g1) else g1;
    assert g1.Base() == g0.Base() == core;
    assert g2.Base() == g1.Base();
    assert forall marker :: Guards.Marked(g1, marker) <==> Guards.Carries(g1, marker);
    assert forall marker :: Guards.Marked(g2, marker) <==> Guards.Carries(g1, marker) || Guards.Carries(g2, marker);
  }

  lemma GuardIsCompiled(reg: Registry, c: GuardrailConfig, phase: string)
    ensures |GuardOf(reg, c, phase)| == if RunsGuard(reg, c, phase) then 1 else 0
    ensures RunsGuard(reg, c, phase) ==> CompiledGuard(reg, c, GuardOf(reg, c, phase)[0])
  {
    if RunsGuard(reg, c, phase) {
      WrappersAsConfigured(reg.guard(c.guardType, c.name, c.config).value, c.config);
    }
  }

  lemma TransformerIsCompiled(reg: Registry, c: TransformerConfig, phase: string)
    ensures |TransformerOf(reg, c, phase)| == if RunsTransformer(reg, c, phase) then 1 else 0
    ensures RunsTransformer(reg, c, phase) ==> CompiledTransformer(reg, c, TransformerOf(reg, c, phase)[0])
  {
  }

  lemma OneGuardMore(reg: Registry, cs: seq<GuardrailConfig>, c: GuardrailConfig, phase: string,
                     guards: seq<Guards.Guard>)
    requires CompiledGuards(reg, cs, phase, guards)
    ensures CompiledGuards(reg, cs + [c], phase, guards + GuardOf(reg, c, phase))
  {
    GuardIsCompiled(reg, c, phase);
    assert (cs + [c])[..|cs|] == cs;
  }

  lemma OneTransformerMore(reg: Registry, cs: seq<TransformerConfig>, c: TransformerConfig, phase: string,
                           ts: seq<Pipeline.Transformer>)
    requires CompiledTransformers(reg, cs, phase, ts)
    ensures CompiledTransformers(reg, cs + [c], phase, ts + TransformerOf(reg, c, phase))
  {
    TransformerIsCompiled(reg, c, phase);
    assert (cs + [c])[..|cs|] == cs;
  }

  /** What the compiler finds for one attachment is what the join gives it. */
  lemma {:induction false} JoinedNext<C>(atts: seq<Attachment>, rows: seq<Row<C>>, idOf: C -> Uuid, org: Uuid,
                                         source: Uuid)
    requires atts != []
    requires forall i, j :: 0 <= i < j < |rows| ==> idOf(rows[i].data) != idOf(rows[j].data)
    ensures var n, index := |atts| - 1, IndexBy(Owned(rows, org), idOf);
      var a, ids := atts[n], AttachedTo(atts[..n], source);
      && AttachedTo(atts, source) == (if a.sourceId == source then ids + [a.targetId] else ids)
      && JoinedRows(atts, rows, idOf, org, source) == JoinedRows(atts[..n], rows, idOf, org, source)
        + (if a.sourceId == source && a.targetId in index then [index[a.targetId]] else [])
  {
    var a := atts[|atts| - 1];
    if a.sourceId == source {
      IndexRows(rows, idOf, org, a.targetId);
    }
  }

  /** The compiled guards of a source are those of its attachments' live rows, phase by phase. */
  lemma {:induction false} GuardsAreJoined(reg: Registry, atts: seq<Attachment>, rows: seq<Row<GuardrailConfig>>,
                                           org: Uuid, source: Uuid, phase: string)
    requires forall i, j :: 0 <= i < j < |rows| ==> rows[i].data.id != rows[j].data.id
    ensures CompiledGuards(reg, JoinedRows(atts, rows, GuardrailId, org, source), phase,
                           GuardsOf(reg, IndexBy(Owned(rows, org), GuardrailId), AttachedTo(atts, source), phase))
    decreases |atts|
  {
    if atts != [] {
      var n, index := |atts| - 1, IndexBy(Owned(rows, org), GuardrailId);
      var a, ids, cs := atts[n], AttachedTo(atts[..n], source), JoinedRows(atts[..n], rows, GuardrailId, org, source);
      GuardsAreJoined(reg, atts[..n], rows, org, source, phase);
      JoinedNext(atts, rows, GuardrailId, org, source);
      if a.sourceId == source {
        assert (ids + [a.targetId])[..|ids|] == ids;
        if a.targetId in index {
          OneGuardMore(reg, cs, index[a.targetId], phase, GuardsOf(reg, index, ids, phase));
        }
      }
    }
  }

  lemma {:induction false} TransformersAreJoined(reg: Registry, atts: seq<Attachment>,
                                                 rows: seq<Row<TransformerConfig>>, org: Uuid, source: Uuid,
                                                 phase: string)
    requires forall i, j :: 0 <= i < j < |rows| ==> rows[i].data.id != rows[j].data.id
    ensures CompiledTransformers(reg, JoinedRows(atts, rows, TransformerId, org, source), phase,
                                 TransformersOf(reg, IndexBy(Owned(rows, org), TransformerId),
                                                AttachedTo(atts, source), phase))
    decreases |atts|
  {
    if atts != [] {
      var n, index := |atts| - 1, IndexBy(Owned(rows, org), TransformerId);
      var a, ids := atts[n], AttachedTo(atts[..n], source);
      var cs := JoinedRows(atts[..n], rows, TransformerId, org, source);
      TransformersAreJoined(reg, atts[..n], rows, org, source, phase);
      JoinedNext(atts, rows, TransformerId, org, source);
      if a.sourceId == source {
        assert (ids + [a.targetId])[..|ids|] == ids;
        if a.targetId in index {
          OneTransformerMore(reg, cs, index[a.targetId], phase, TransformersOf(reg, index, ids, phase));
        }
      }
    }
  }

  // ----- finding the source -----

  lemma {:induction false} OtherRoutes(db: Database, decrypt: Decrypt, rows: seq<Row<SourceRow>>, org: Uuid,
                                       route: string)
    ensures (exists j :: 0 <= j < |SourcesOf(db, decrypt, rows, org)|
               && SourcesOf(db, decrypt, rows, org)[j].route == route)
      <==> (exists k :: 0 <= k < |rows| && rows[k].org == org && rows[k].data.route == route)
  {
    if rows != [] {
      var n := |rows| - 1;
      OtherRoutes(db, decrypt, rows[..n], org, route);
      var s, s' := SourcesOf(db, decrypt, rows, org), SourcesOf(db, decrypt, rows[..n], org);
      assert forall j :: 0 <= j < |s'| ==> s[j] == s'[j];
      assert forall k :: 0 <= k < n ==> rows[..n][k] == rows[k];
      if rows[n].org == org {
        assert s[|s'|].route == rows[n].data.route;
        assert |s| == |s'| + 1;
      } else {
        assert s == s';
      }
    }
  }

  /** Compiling one organization sets exactly its own routes, each to the last source that has it. */
  lemma {:induction false} AddSourcesAt(reg: Registry, m: map<(Uuid, string), ResolvedSource>, org: OrgConfig,
                                        srcs: seq<SourceConfig>, key: (Uuid, string))
    ensures var m' := AddSources(reg, m, org, srcs);
      && (key.0 != org.id || (forall j :: 0 <= j < |srcs| ==> srcs[j].route != key.1) ==>
          (key in m' <==> key in m) && (key in m ==> m'[key] == m[key]))
      && (key.0 == org.id && (exists j :: 0 <= j < |srcs| && srcs[j].route == key.1) ==> key in m')
  {
    if srcs != [] {
      AddSourcesAt(reg, m, org, srcs[..|srcs| - 1], key);
    }
  }

  lemma {:induction false} AddSourcesHit(reg: Registry, db: Database, decrypt: Decrypt,
                                         m: map<(Uuid, string), ResolvedSource>, org: OrgConfig,
                                         rows: seq<Row<SourceRow>>, k: nat)
    requires k < |rows| && rows[k].org == org.id && RoutesUnique(rows)
    ensures var m' := AddSources(reg, m, org, SourcesOf(db, decrypt, rows, org.id));
      && (org.id, rows[k].data.route) in m'
      && m'[(org.id, rows[k].data.route)] == Resolve(reg, org, SourceConfigOf(db, decrypt, rows[k].data))
  {
    var n := |rows| - 1;
    var srcs, srcs' := SourcesOf(db, decrypt, rows, org.id), SourcesOf(db, decrypt, rows[..n], org.id);
    assert RoutesUnique(rows[..n]);
    if rows[n].org == org.id {
      assert srcs[..|srcs| - 1] == srcs';
      if k < n {
        AddSourcesHit(reg, db, decrypt, m, org, rows[..n], k);
        assert rows[k].data.route != rows[n].data.route;
      }
    } else {
      assert srcs == srcs';
      AddSourcesHit(reg, db, decrypt, m, org, rows[..n], k);
    }
  }

  lemma {:induction false} SourcesOneMore(reg: Registry, db: Database, decrypt: Decrypt, n: nat)
    requires n < |db.orgIds|
    ensures var orgs, id := OrgsOf(db, decrypt), db.orgIds[n];
      SourceMap(reg, orgs[..n + 1]) ==
      AddSources(reg, SourceMap(reg, orgs[..n]), OrgOf(db, decrypt, id), SourcesOf(db, decrypt, db.sources, id))
  {
    MapsNext(reg, OrgsOf(db, decrypt), n);
  }

  lemma KeysOneMore(db: Database, decrypt: Decrypt, n: nat)
    requires n < |db.orgIds|
    ensures var orgs, id := OrgsOf(db, decrypt), db.orgIds[n];
      KeyMap(orgs[..n + 1]) == AddKeys(KeyMap(orgs[..n]), id, Owned(db.apiKeys, id))
  {
    KeysNext(OrgsOf(db, decrypt), n);
  }

  lemma OrgIsNew(db: Database, n: nat)
    requires n < |db.orgIds|
    ensures db.orgIds[..n + 1] == db.orgIds[..n] + [db.orgIds[n]]
    ensures KeysUnique(db) ==> db.orgIds[n] !in db.orgIds[..n]
  {
  }

  ghost predicate SourceAt(db: Database, k: int, org: Uuid, route: string) {
    0 <= k < |db.sources| && db.sources[k].org == org && db.sources[k].data.route == route
  }

  lemma {:induction false} SourceMapAt(reg: Registry, db: Database, decrypt: Decrypt, n: nat, org: Uuid, route: string)
    requires n <= |db.orgIds| && KeysUnique(db)
    ensures var m := SourceMap(reg, OrgsOf(db, decrypt)[..n]);
      && ((org, route) in m <==> org in db.orgIds[..n] && exists k :: SourceAt(db, k, org, route))
      && (forall k :: org in db.orgIds[..n] && SourceAt(db, k, org, route) ==>
          m[(org, route)] == Resolve(reg, OrgOf(db, decrypt, org), SourceConfigOf(db, decrypt, db.sources[k].data)))
  {
    if n > 0 {
      SourceMapAt(reg, db, decrypt, n - 1, org, route);
      SourcesOneMore(reg, db, decrypt, n - 1);
      OrgIsNew(db, n - 1);
      OneOrgMore(reg, db, decrypt, SourceMap(reg, OrgsOf(db, decrypt)[..n - 1]), db.orgIds[n - 1], org, route);
    }
  }

  lemma {:induction false} OneOrgMore(reg: Registry, db: Database, decrypt: Decrypt,
    m: map<(Uuid, string), ResolvedSource>, id: Uuid, org: Uuid, route: string)
    requires KeysUnique(db)
    ensures var m' := AddSources(reg, m, OrgOf(db, decrypt, id), SourcesOf(db, decrypt, db.sources, id));
      && (org != id
        ==> ((org, route) in m' <==> (org, route) in m) && ((org, route) in m ==> m'[(org, route)] == m[(org, route)]))
      && (org == id && (org, route) !in m ==> ((org, route) in m' <==> exists k :: SourceAt(db, k, org, route)))
      && (forall k :: org == id && SourceAt(db, k, org, route) ==>
          (org, route) in m'
            && m'[(org, route)]
              == Resolve(reg, OrgOf(db, decrypt, org), SourceConfigOf(db, decrypt, db.sources[k].data)))
  {
    AddSourcesAt(reg, m, OrgOf(db, decrypt, id), SourcesOf(db, decrypt, db.sources, id), (org, route));
    OtherRoutes(db, decrypt, db.sources, id, route);
    forall k | org == id && SourceAt(db, k, org, route)
      ensures var m' := AddSources(reg, m, OrgOf(db, decrypt, id), SourcesOf(db, decrypt, db.sources, id));
        (org, route) in m'
          && m'[(org, route)] == Resolve(reg, OrgOf(db, decrypt, org), SourceConfigOf(db, decrypt, db.sources[k].data))
    {
      AddSourcesHit(reg, db, decrypt, m, OrgOf(db, decrypt, id), db.sources, k);
    }
  }

  /** The fields of the row, its key decrypted, and the ids attached to it. */
  ghost predicate SameSource(db: Database, decrypt: Decrypt, row: SourceRow, c: SourceConfig) {
    && c.id == row.id && c.route == row.route && c.enabled == row.enabled && c.criteria == row.criteria
    && c.llmModel == row.llmModel && c.llmBaseUrl == row.llmBaseUrl
    && (decrypt(row.llmApiKeyEnc).Ok? ==> decrypt(row.llmApiKeyEnc) == Ok(c.llmApiKey))
    && c.guardrailIds == AttachedTo(db.attachments, row.id)
    && c.transformerIds == AttachedTo(db.transformerAttachments, row.id)
  }

  /** A compiled source is its row with the guards and transformers the relational join gives it, by phase. */
  ghost predicate IsJoined(reg: Registry, db: Database, decrypt: Decrypt, org: Uuid, row: SourceRow,
                           r: ResolvedSource) {
    var gs := JoinedRows(db.attachments, db.guardrails, GuardrailId, org, row.id);
    var ts := JoinedRows(db.transformerAttachments, db.transformers, TransformerId, org, row.id);
    && r.orgId == org && SameSource(db, decrypt, row, r.config)
    && CompiledGuards(reg, gs, "input", r.inputGuards) && CompiledGuards(reg, gs, "output", r.outputGuards)
    && CompiledTransformers(reg, ts, "input", r.inputTransformers)
    && CompiledTransformers(reg, ts, "output", r.outputTransformers)
  }

  lemma ResolvedIsJoined(reg: Registry, db: Database, decrypt: Decrypt, org: Uuid, row: SourceRow)
    requires KeysUnique(db)
    ensures IsJoined(reg, db, decrypt, org, row,
                     Resolve(reg, OrgOf(db, decrypt, org), SourceConfigOf(db, decrypt, row)))
  {
    GuardsAreJoined(reg, db.attachments, db.guardrails, org, row.id, "input");
    GuardsAreJoined(reg, db.attachments, db.guardrails, org, row.id, "output");
    TransformersAreJoined(reg, db.transformerAttachments, db.transformers, org, row.id, "input");
    TransformersAreJoined(reg, db.transformerAttachments, db.transformers, org, row.id, "output");
  }

  /**
    A lookup succeeds exactly for the routes of known organizations, and what it finds is the
    source row joined with its guards and transformers.
   */
  lemma LookupRefinesTables(reg: Registry, db: Database, decrypt: Decrypt, version: string, now: int, org: Uuid,
                            route: string)
    requires KeysUnique(db)
    ensures Compile(reg, Config(version, now, OrgsOf(db, decrypt))).version == version
    ensures var sources := Compile(reg, Config(version, now, OrgsOf(db, decrypt))).sources;
      && ((org, route) in sources <==> org in db.orgIds && exists k :: SourceAt(db, k, org, route))
      && (forall k :: org in db.orgIds && SourceAt(db, k, org, route) ==>
          IsJoined(reg, db, decrypt, org, db.sources[k].data, sources[(org, route)]))
  {
    var n := |db.orgIds|;
    SourceMapAt(reg, db, decrypt, n, org, route);
    assert OrgsOf(db, decrypt)[..n] == OrgsOf(db, decrypt) && db.orgIds[..n] == db.orgIds;
    var sources := Compile(reg, Config(version, now, OrgsOf(db, decrypt))).sources;
    forall k | org in db.orgIds && SourceAt(db, k, org, route)
      ensures IsJoined(reg, db, decrypt, org, db.sources[k].data, sources[(org, route)])
    {
      ResolvedIsJoined(reg, db, decrypt, org, db.sources[k].data);
    }
  }

  // ----- API keys -----

  ghost predicate KeyAt(rows: seq<Row<APIKeyConfig>>, i: int, org: Uuid, hash: string) {
    0 <= i < |rows| && rows[i].live && rows[i].org == org && rows[i].data.keyHash == hash
  }

  lemma AddLastKey(m: map<string, AuthInfo>, rows: seq<Row<APIKeyConfig>>, org: Uuid)
    requires rows != []
    ensures var n := |rows| - 1;
      var before := AddKeys(m, org, Owned(rows[..n], org));
      AddKeys(m, org, Owned(rows, org)) ==
        if rows[n].live && rows[n].org == org then before[rows[n].data.keyHash := AuthInfoOf(org, rows[n].data)]
        else before
  {
    var n := |rows| - 1;
    var before, owned := Owned(rows[..n], org), Owned(rows, org);
    if rows[n].live && rows[n].org == org {
      assert owned == before + [rows[n].data];
      assert owned[..|before|] == before;
    } else {
      assert owned == before;
    }
  }

  lemma {:induction false} AddKeysMiss(m: map<string, AuthInfo>, rows: seq<Row<APIKeyConfig>>, org: Uuid, hash: string)
    requires forall i :: !KeyAt(rows, i, org, hash)
    ensures var m' := AddKeys(m, org, Owned(rows, org));
      (hash in m' <==> hash in m) && (hash in m ==> m'[hash] == m[hash])
  {
    if rows != [] {
      var n := |rows| - 1;
      assert !KeyAt(rows, n, org, hash);
      forall i
        ensures !KeyAt(rows[..n], i, org, hash)
      {
        assert !KeyAt(rows, i, org, hash);
      }
      AddKeysMiss(m, rows[..n], org, hash);
      AddLastKey(m, rows, org);
    }
  }

  lemma {:induction false} AddKeysHit(m: map<string, AuthInfo>, rows: seq<Row<APIKeyConfig>>, org: Uuid, hash: string,
                                      k: int)
    requires KeyAt(rows, k, org, hash) && forall i :: KeyAt(rows, i, org, hash) ==> i == k
    ensures var m' := AddKeys(m, org, Owned(rows, org)); hash in m' && m'[hash] == AuthInfoOf(org, rows[k].data)
  {
    var n := |rows| - 1;
    AddLastKey(m, rows, org);
    if k < n {
      assert !KeyAt(rows, n, org, hash);
      assert KeyAt(rows[..n], k, org, hash);
      forall i | KeyAt(rows[..n], i, org, hash)
        ensures i == k
      {
        assert KeyAt(rows, i, org, hash);
      }
      AddKeysHit(m, rows[..n], org, hash, k);
    }
  }

  /** With the given organizations compiled, the key of the row is in the map exactly if it is theirs, and as itself. */
  ghost predicate KeyCompiled(m: map<string, AuthInfo>, ids: seq<Uuid>, row: Row<APIKeyConfig>) {
    && (row.data.keyHash in m <==> row.org in ids)
    && (row.org in ids ==> m[row.data.keyHash] == AuthInfoOf(row.org, row.data))
  }

  lemma {:induction false} OneOrgsKeys(m: map<string, AuthInfo>, db: Database, ids: seq<Uuid>, org: Uuid, k: nat)
    requires KeysUnique(db) && k < |db.apiKeys| && db.apiKeys[k].live
    requires KeyCompiled(m, ids, db.apiKeys[k])
    ensures KeyCompiled(AddKeys(m, org, Owned(db.apiKeys, org)), ids + [org], db.apiKeys[k])
  {
    var row := db.apiKeys[k];
    assert forall i :: KeyAt(db.apiKeys, i, org, row.data.keyHash) ==> i == k;
    if row.org == org {
      AddKeysHit(m, db.apiKeys, org, row.data.keyHash, k);
    } else {
      assert !KeyAt(db.apiKeys, k, org, row.data.keyHash);
      AddKeysMiss(m, db.apiKeys, org, row.data.keyHash);
    }
  }

  /** While compiling the organizations in turn, a live key appears exactly with its own. */
  lemma {:induction false} KeyMapHit(db: Database, decrypt: Decrypt, n: nat, k: nat)
    requires n <= |db.orgIds| && KeysUnique(db) && k < |db.apiKeys| && db.apiKeys[k].live
    ensures KeyCompiled(KeyMap(OrgsOf(db, decrypt)[..n]), db.orgIds[..n], db.apiKeys[k])
  {
    if n > 0 {
      KeyMapHit(db, decrypt, n - 1, k);
      KeysOneMore(db, decrypt, n - 1);
      OneOrgsKeys(KeyMap(OrgsOf(db, decrypt)[..n - 1]), db, db.orgIds[..n - 1], db.orgIds[n - 1], k);
      assert db.orgIds[..n] == db.orgIds[..n - 1] + [db.orgIds[n - 1]];
    }
  }

  lemma {:induction false} KeyMapMiss(db: Database, decrypt: Decrypt, n: nat, hash: string)
    requires n <= |db.orgIds| && forall i :: !LiveKey(db, i, hash)
    ensures hash !in KeyMap(OrgsOf(db, decrypt)[..n])
  {
    if n > 0 {
      KeyMapMiss(db, decrypt, n - 1, hash);
      KeysOneMore(db, decrypt, n - 1);
      var org := db.orgIds[n - 1];
      forall i
        ensures !KeyAt(db.apiKeys, i, org, hash)
      {
        assert !LiveKey(db, i, hash);
      }
      AddKeysMiss(KeyMap(OrgsOf(db, decrypt)[..n - 1]), db.apiKeys, org, hash);
    }
  }

  ghost predicate LiveKey(db: Database, i: int, hash: string) {
    0 <= i < |db.apiKeys| && db.apiKeys[i].live && db.apiKeys[i].data.keyHash == hash
  }

  /**
    A presented key authenticates exactly when its hash is that of a live key row of a known
    organization, and then as that organization with that row's limits (0 where it has none).
   */
  lemma AuthenticationRefinesTables(reg: Registry, db: Database, decrypt: Decrypt, version: string, now: int,
                                    hash: string)
    requires KeysUnique(db)
    ensures var keys := Compile(reg, Config(version, now, OrgsOf(db, decrypt))).apiKeys;
      && (hash in keys <==> exists i :: LiveKey(db, i, hash) && db.apiKeys[i].org in db.orgIds)
      && (forall i :: LiveKey(db, i, hash) && db.apiKeys[i].org in db.orgIds ==>
          keys[hash] ==
            AuthInfo(db.apiKeys[i].org, hash, db.apiKeys[i].data.rateLimitRps.GetOr(ZERO),
                     db.apiKeys[i].data.rateLimitBurst.GetOr(0)))
  {
    var n := |db.orgIds|;
    assert OrgsOf(db, decrypt)[..n] == OrgsOf(db, decrypt) && db.orgIds[..n] == db.orgIds;
    if exists k :: LiveKey(db, k, hash) {
      var k :| LiveKey(db, k, hash);
      KeyMapHit(db, decrypt, n, k);
      assert forall i :: LiveKey(db, i, hash) ==> i == k;
    } else {
      KeyMapMiss(db, decrypt, n, hash);
    }
  }

  // ----- alert webhooks -----

  lemma AlertsOneMore(db: Database, decrypt: Decrypt, n: nat)
    requires n < |db.orgIds|
    ensures var orgs, id, hooks := OrgsOf(db, decrypt), db.orgIds[n], Owned(db.alertWebhooks, db.orgIds[n]);
      AlertMap(orgs[..n + 1]) == if hooks == [] then AlertMap(orgs[..n]) else AlertMap(orgs[..n])[id := hooks]
  {
    AlertsNext(OrgsOf(db, decrypt), n);
  }

  ghost predicate AlertsCompiled(m: map<Uuid, seq<AlertWebhookConfig>>, db: Database, ids: seq<Uuid>, org: Uuid) {
    && (org in m <==> org in ids && Owned(db.alertWebhooks, org) != [])
    && (org in m ==> m[org] == Owned(db.alertWebhooks, org))
  }

  lemma OneOrgsAlerts(m: map<Uuid, seq<AlertWebhookConfig>>, db: Database, ids: seq<Uuid>, id: Uuid, org: Uuid)
    requires AlertsCompiled(m, db, ids, org) && id !in ids
    ensures var hooks := Owned(db.alertWebhooks, id);
      AlertsCompiled(if hooks == [] then m else m[id := hooks], db, ids + [id], org)
  {
  }

  lemma {:induction false} AlertMapAt(db: Database, decrypt: Decrypt, n: nat, org: Uuid)
    requires n <= |db.orgIds| && KeysUnique(db)
    ensures AlertsCompiled(AlertMap(OrgsOf(db, decrypt)[..n]), db, db.orgIds[..n], org)
  {
    if n > 0 {
      AlertMapAt(db, decrypt, n - 1, org);
      AlertsOneMore(db, decrypt, n - 1);
      OrgIsNew(db, n - 1);
      OneOrgsAlerts(AlertMap(OrgsOf(db, decrypt)[..n - 1]), db, db.orgIds[..n - 1], db.orgIds[n - 1], org);
    }
  }

  lemma {:induction false} OwnedIsChosen<C>(rows: seq<Row<C>>, org: Uuid)
    ensures var kept := Chosen(rows, (r: Row<C>) => r.live && r.org == org);
      |Owned(rows, org)| == |kept| && forall i :: 0 <= i < |kept| ==> Owned(rows, org)[i] == kept[i].data
  {
    if rows != [] {
      OwnedIsChosen(rows[..|rows| - 1], org);
    }
  }

  /** An organization's rejections go to exactly its own live webhooks, in row order. */
  lemma AlertsRefineTables(reg: Registry, db: Database, decrypt: Decrypt, version: string, now: int, org: Uuid)
    requires KeysUnique(db)
    ensures var alerts := Compile(reg, Config(version, now, OrgsOf(db, decrypt))).alerts;
      var kept := Chosen(db.alertWebhooks, (r: Row<AlertWebhookConfig>) => r.live && r.org == org);
      && (org in alerts <==> org in db.orgIds && kept != [])
      && (org in alerts ==> |alerts[org]| == |kept| && forall i :: 0 <= i < |kept| ==> alerts[org][i] == kept[i].data)
  {
    AlertMapAt(db, decrypt, |db.orgIds|, org);
    assert OrgsOf(db, decrypt)[..|db.orgIds|] == OrgsOf(db, decrypt) && db.orgIds[..|db.orgIds|] == db.orgIds;
    OwnedIsChosen(db.alertWebhooks, org);
  }
}
