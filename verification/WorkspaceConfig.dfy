/** The config payload and how the control plane builds it from its tables. */
module WorkspaceConfig {
  import opened Llm
  import opened Wrappers

  type Uuid = nat

  /** A float64 by its bit pattern: the config only copies limits, it does not compute with them. */
  type Float64 = bits: nat | bits < 0x1_0000_0000_0000_0000

  const ZERO: Float64 := 0

  datatype APIKeyConfig = APIKeyConfig(keyHash: string, rateLimitRps: Option<Float64>, rateLimitBurst: Option<int>)

  datatype AlertWebhookConfig = AlertWebhookConfig(id: Uuid, url: string, payloadFormat: string)

  datatype GuardrailConfig = GuardrailConfig(id: Uuid, name: string, guardType: string, phase: string, config: Json)

  datatype TransformerConfig = TransformerConfig(id: Uuid, name: string, transformerType: string, phase: string,
                                                 config: Json)

  /** The pass criteria and thresholds of a source, copied through unchanged. */
  datatype Criteria = Criteria(input: string, inputThreshold: Option<int>, output: string, outputThreshold: Option<int>)

  datatype SourceConfig = SourceConfig(
    id: Uuid,
    route: string,
    enabled: bool,
    llmModel: string,
    llmApiKey: string,
    llmBaseUrl: string,
    criteria: Criteria,
    guardrailIds: seq<Uuid>,
    transformerIds: seq<Uuid>)

  datatype OrgConfig = OrgConfig(
    id: Uuid,
    apiKeys: seq<APIKeyConfig>,
    sources: seq<SourceConfig>,
    guardrails: seq<GuardrailConfig>,
    transformers: seq<TransformerConfig>,
    alertWebhooks: seq<AlertWebhookConfig>)

  datatype Config = Config(version: string, generatedAt: int, organizations: seq<OrgConfig>)

  // ----- tables -----

  /** A table row: its organization, whether the WHERE clause keeps it (enabled, not revoked), the rest. */
  datatype Row<C> = Row(org: Uuid, live: bool, data: C)

  /** A row of sources before its LLM key is decrypted; sources are listed whether enabled or not. */
  datatype SourceRow = SourceRow(
    id: Uuid,
    route: string,
    enabled: bool,
    llmModel: string,
    llmApiKeyEnc: string,
    llmBaseUrl: string,
    criteria: Criteria)

  /** A row of source_guardrails or source_transformers, in the order the query returns it. */
  datatype Attachment = Attachment(sourceId: Uuid, targetId: Uuid)

  /** One state of the database, all tables read at the same moment. */
  datatype Database = Database(
    orgIds: seq<Uuid>,
    apiKeys: seq<Row<APIKeyConfig>>,
    sources: seq<Row<SourceRow>>,
    guardrails: seq<Row<GuardrailConfig>>,
    attachments: seq<Attachment>,
    transformers: seq<Row<TransformerConfig>>,
    transformerAttachments: seq<Attachment>,
    alertWebhooks: seq<Row<AlertWebhookConfig>>)

  /** The WHERE clause of a listing query. */
  function LiveRows<C>(rows: seq<Row<C>>): seq<Row<C>> {
    if rows == [] then []
    else
      var n := |rows| - 1;
      LiveRows(rows[..n]) + (if rows[n].live then [rows[n]] else [])
  }

  // ----- what the payload should hold -----

  /** The live rows of one organization, in row order. */
  function Owned<C>(rows: seq<Row<C>>, org: Uuid): seq<C> {
    if rows == [] then []
    else
      var n := |rows| - 1;
      Owned(rows[..n], org) + (if rows[n].live && rows[n].org == org then [rows[n].data] else [])
  }

  /** What is attached to one source, in row order. */
  function AttachedTo(rows: seq<Attachment>, source: Uuid): seq<Uuid> {
    if rows == [] then []
    else
      var n := |rows| - 1;
      AttachedTo(rows[..n], source) + (if rows[n].sourceId == source then [rows[n].targetId] else [])
  }

  type Decrypt = string -> Result<string>

  function SourceConfigOf(db: Database, decrypt: Decrypt, s: SourceRow): SourceConfig {
    SourceConfig(s.id, s.route, s.enabled, s.llmModel,
                 match decrypt(s.llmApiKeyEnc) case Ok(key) => key case Err(_) => "",
                 s.llmBaseUrl, s.criteria, AttachedTo(db.attachments, s.id),
                 AttachedTo(db.transformerAttachments, s.id))
  }

  function SourcesOf(db: Database, decrypt: Decrypt, rows: seq<Row<SourceRow>>, org: Uuid): seq<SourceConfig> {
    if rows == [] then []
    else
      var n := |rows| - 1;
      var last := if rows[n].org == org then [SourceConfigOf(db, decrypt, rows[n].data)] else [];
      SourcesOf(db, decrypt, rows[..n], org) + last
  }

  function OrgOf(db: Database, decrypt: Decrypt, org: Uuid): OrgConfig {
    OrgConfig(org, Owned(db.apiKeys, org), SourcesOf(db, decrypt, db.sources, org), Owned(db.guardrails, org),
              Owned(db.transformers, org), Owned(db.alertWebhooks, org))
  }

  function OrgsOf(db: Database, decrypt: Decrypt): seq<OrgConfig> {
    seq(|db.orgIds|, i requires 0 <= i < |db.orgIds| => OrgOf(db, decrypt, db.orgIds[i]))
  }

  /** Some source of a known organization has a key that cannot be decrypted. */
  ghost predicate BadKey(db: Database, decrypt: Decrypt, rows: seq<Row<SourceRow>>) {
    exists i :: 0 <= i < |rows| && BadRow(db, decrypt, rows[i])
  }

  lemma {:induction false} OwnedByLive<C>(rows: seq<Row<C>>, org: Uuid)
    ensures Owned(LiveRows(rows), org) == Owned(rows, org)
  {
    if rows != [] {
      var n := |rows| - 1;
      OwnedByLive(rows[..n], org);
      if rows[n].live {
        assert LiveRows(rows)[..|LiveRows(rows)| - 1] == LiveRows(rows[..n]);
      } else {
        assert LiveRows(rows) == LiveRows(rows[..n]);
      }
    }
  }

  lemma OwnedNext<C>(rows: seq<Row<C>>, i: nat, org: Uuid)
    requires i < |rows|
    ensures Owned(rows[..i + 1], org)
      == Owned(rows[..i], org) + (if rows[i].live && rows[i].org == org then [rows[i].data] else [])
  {
    assert rows[..i + 1][..i] == rows[..i];
  }

  lemma {:induction false} LiveRowsAreLive<C>(rows: seq<Row<C>>)
    ensures forall r :: r in LiveRows(rows) ==> r.live
  {
    if rows != [] {
      LiveRowsAreLive(rows[..|rows| - 1]);
    }
  }

  // ----- building it -----

  function Listed(m: map<Uuid, seq<Uuid>>, k: Uuid): seq<Uuid> {
    if k in m then m[k] else []
  }

  method GroupAttachments(rows: seq<Attachment>) returns (m: map<Uuid, seq<Uuid>>)
    ensures forall s :: Listed(m, s) == AttachedTo(rows, s)
  {
    m := map[];
    for i := 0 to |rows|
      invariant forall s :: Listed(m, s) == AttachedTo(rows[..i], s)
    {
      assert rows[..i + 1][..i] == rows[..i];
      var a := rows[i];
      m := m[a.sourceId := Listed(m, a.sourceId) + [a.targetId]];
    }
    assert rows[..|rows|] == rows;
  }

  method GroupKeys(orgs0: map<Uuid, OrgConfig>, rows: seq<Row<APIKeyConfig>>) returns (orgs: map<Uuid, OrgConfig>)
    requires forall id :: id in orgs0 ==> orgs0[id].apiKeys == []
    ensures orgs.Keys == orgs0.Keys
    ensures forall id :: id in orgs ==> orgs[id] == orgs0[id].(apiKeys := Owned(rows, id))
  {
    orgs := orgs0;
    var live := LiveRows(rows);
    LiveRowsAreLive(rows);
    for i := 0 to |live|
      invariant orgs.Keys == orgs0.Keys
      invariant forall id :: id in orgs ==> orgs[id] == orgs0[id].(apiKeys := Owned(live[..i], id))
    {
      forall id { OwnedNext(live, i, id); }
      var k := live[i];
      if k.org in orgs {
        orgs := orgs[k.org := orgs[k.org].(apiKeys := orgs[k.org].apiKeys + [k.data])];
      }
    }
    assert live[..|live|] == live;
    forall id { OwnedByLive(rows, id); }
  }

  method GroupAlerts(orgs0: map<Uuid, OrgConfig>, rows: seq<Row<AlertWebhookConfig>>)
    returns (orgs: map<Uuid, OrgConfig>)
    requires forall id :: id in orgs0 ==> orgs0[id].alertWebhooks == []
    ensures orgs.Keys == orgs0.Keys
    ensures forall id :: id in orgs ==> orgs[id] == orgs0[id].(alertWebhooks := Owned(rows, id))
  {
    orgs := orgs0;
    var live := LiveRows(rows);
    LiveRowsAreLive(rows);
    for i := 0 to |live|
      invariant orgs.Keys == orgs0.Keys
      invariant forall id :: id in orgs ==> orgs[id] == orgs0[id].(alertWebhooks := Owned(live[..i], id))
    {
      forall id { OwnedNext(live, i, id); }
      var a := live[i];
      if a.org in orgs {
        orgs := orgs[a.org := orgs[a.org].(alertWebhooks := orgs[a.org].alertWebhooks + [a.data])];
      }
    }
    assert live[..|live|] == live;
    forall id { OwnedByLive(rows, id); }
  }

  method GroupGuardrails(orgs0: map<Uuid, OrgConfig>, rows: seq<Row<GuardrailConfig>>)
    returns (orgs: map<Uuid, OrgConfig>)
    requires forall id :: id in orgs0 ==> orgs0[id].guardrails == []
    ensures orgs.Keys == orgs0.Keys
    ensures forall id :: id in orgs ==> orgs[id] == orgs0[id].(guardrails := Owned(rows, id))
  {
    orgs := orgs0;
    var live := LiveRows(rows);
    LiveRowsAreLive(rows);
    for i := 0 to |live|
      invariant orgs.Keys == orgs0.Keys
      invariant forall id :: id in orgs ==> orgs[id] == orgs0[id].(guardrails := Owned(live[..i], id))
    {
      forall id { OwnedNext(live, i, id); }
      var g := live[i];
      if g.org in orgs {
        orgs := orgs[g.org := orgs[g.org].(guardrails := orgs[g.org].guardrails + [g.data])];
      }
    }
    assert live[..|live|] == live;
    forall id { OwnedByLive(rows, id); }
  }

  method GroupTransformers(orgs0: map<Uuid, OrgConfig>, rows: seq<Row<TransformerConfig>>)
    returns (orgs: map<Uuid, OrgConfig>)
    requires forall id :: id in orgs0 ==> orgs0[id].transformers == []
    ensures orgs.Keys == orgs0.Keys
    ensures forall id :: id in orgs ==> orgs[id] == orgs0[id].(transformers := Owned(rows, id))
  {
    orgs := orgs0;
    var live := LiveRows(rows);
    LiveRowsAreLive(rows);
    for i := 0 to |live|
      invariant orgs.Keys == orgs0.Keys
      invariant forall id :: id in orgs ==> orgs[id] == orgs0[id].(transformers := Owned(live[..i], id))
    {
      forall id { OwnedNext(live, i, id); }
      var t := live[i];
      if t.org in orgs {
        orgs := orgs[t.org := orgs[t.org].(transformers := orgs[t.org].transformers + [t.data])];
      }
    }
    assert live[..|live|] == live;
    forall id { OwnedByLive(rows, id); }
  }

  ghost predicate SourcesGrouped(orgs: map<Uuid, OrgConfig>, orgs0: map<Uuid, OrgConfig>, db: Database,
                                 decrypt: Decrypt,
                                 rows: seq<Row<SourceRow>>)
  {
    && orgs.Keys == orgs0.Keys
    && forall id :: id in orgs ==> orgs[id] == orgs0[id].(sources := SourcesOf(db, decrypt, rows, id))
  }

  /** One row more: appended to its organization's list if that is known. */
  lemma SourceAdded(orgs: map<Uuid, OrgConfig>, orgs0: map<Uuid, OrgConfig>, db: Database, decrypt: Decrypt,
                    rows: seq<Row<SourceRow>>, i: nat)
    requires i < |rows| && SourcesGrouped(orgs, orgs0, db, decrypt, rows[..i])
    ensures var org, src := rows[i].org, SourceConfigOf(db, decrypt, rows[i].data);
      SourcesGrouped(if org in orgs then orgs[org := orgs[org].(sources := orgs[org].sources + [src])] else orgs,
                     orgs0, db, decrypt, rows[..i + 1])
  {
    assert rows[..i + 1][..i] == rows[..i];
  }

  predicate BadRow(db: Database, decrypt: Decrypt, row: Row<SourceRow>) {
    row.org in db.orgIds && decrypt(row.data.llmApiKeyEnc).Err?
  }

  lemma BadKeyNext(db: Database, decrypt: Decrypt, rows: seq<Row<SourceRow>>, i: nat)
    requires i < |rows| && !BadKey(db, decrypt, rows[..i])
    ensures BadKey(db, decrypt, rows[..i + 1]) <==> BadRow(db, decrypt, rows[i])
    ensures BadKey(db, decrypt, rows[..i + 1]) ==> BadKey(db, decrypt, rows)
  {
    forall k | 0 <= k < i
      ensures !BadRow(db, decrypt, rows[k])
    {
      assert rows[..i][k] == rows[k];
    }
    assert forall k :: 0 <= k < i + 1 ==> rows[..i + 1][k] == rows[k];
    if BadRow(db, decrypt, rows[i]) {
      assert rows[..i + 1][i] == rows[i];
    }
  }

  method GroupSources(db: Database, decrypt: Decrypt, orgs0: map<Uuid, OrgConfig>)
    returns (r: Result<map<Uuid, OrgConfig>>)
    requires forall id :: id in orgs0 <==> id in db.orgIds
    requires forall id :: id in orgs0 ==> orgs0[id].sources == []
    ensures r.Err? <==> BadKey(db, decrypt, db.sources)
    ensures r.Ok? ==> r.value.Keys == orgs0.Keys
    ensures r.Ok? ==> forall id :: id in r.value
                        ==> r.value[id] == orgs0[id].(sources := SourcesOf(db, decrypt, db.sources, id))
  {
    var guardrailsBySource := GroupAttachments(db.attachments);
    var transformersBySource := GroupAttachments(db.transformerAttachments);
    var orgs: map<Uuid, OrgConfig> := orgs0;
    var rows := db.sources;
    for i := 0 to |rows|
      invariant !BadKey(db, decrypt, rows[..i])
      invariant SourcesGrouped(orgs, orgs0, db, decrypt, rows[..i])
    {
      BadKeyNext(db, decrypt, rows, i);
      SourceAdded(orgs, orgs0, db, decrypt, rows, i);
      var s := rows[i];
      if s.org in orgs {
        var key := decrypt(s.data.llmApiKeyEnc);
        if key.Err? {
          return Err(key.error);
        }
        var src := SourceConfig(s.data.id, s.data.route, s.data.enabled, s.data.llmModel, key.value, s.data.llmBaseUrl,
                                s.data.criteria, Listed(guardrailsBySource, s.data.id),
                                Listed(transformersBySource, s.data.id));
        orgs := orgs[s.org := orgs[s.org].(sources := orgs[s.org].sources + [src])];
      }
    }
    assert rows[..|rows|] == rows;
    r := Ok(orgs);
  }

  method EmptyOrgs(ids: seq<Uuid>) returns (orgs: map<Uuid, OrgConfig>)
    ensures forall id :: id in orgs <==> id in ids
    ensures forall id :: id in orgs ==> orgs[id] == OrgConfig(id, [], [], [], [], [])
  {
    orgs := map[];
    for i := 0 to |ids|
      invariant forall id :: id in orgs <==> id in ids[..i]
      invariant forall id :: id in orgs ==> orgs[id] == OrgConfig(id, [], [], [], [], [])
    {
      orgs := orgs[ids[i] := OrgConfig(ids[i], [], [], [], [], [])];
    }
  }

  /** The grouping loops in the order the builder runs them. */
  method GroupRows(db: Database, decrypt: Decrypt) returns (r: Result<map<Uuid, OrgConfig>>)
    ensures r.Err? <==> BadKey(db, decrypt, db.sources)
    ensures r.Ok? ==> forall id :: id in db.orgIds ==> id in r.value && r.value[id] == OrgOf(db, decrypt, id)
  {
    var orgs := EmptyOrgs(db.orgIds);
    orgs := GroupKeys(orgs, db.apiKeys);
    orgs := GroupAlerts(orgs, db.alertWebhooks);
    var withSources := GroupSources(db, decrypt, orgs);
    if withSources.Err? {
      return Err(withSources.error);
    }
    orgs := GroupGuardrails(withSources.value, db.guardrails);
    orgs := GroupTransformers(orgs, db.transformers);
    r := Ok(orgs);
  }

  /**
    Assembles the payload of all organizations. hash stands for sha256 of the canonical JSON, which
    leaves out Version and GeneratedAt.
   */
  method Build(db: Database, decrypt: Decrypt, hash: seq<OrgConfig> -> string, now: int) returns (r: Result<Config>)
    ensures r.Err? <==> exists s :: s in db.sources && s.org in db.orgIds && decrypt(s.data.llmApiKeyEnc).Err?
    ensures r.Ok? ==> r.value == Config(hash(OrgsOf(db, decrypt)), now, OrgsOf(db, decrypt))
  {
    var orgs := GroupRows(db, decrypt);
    assert BadKey(db, decrypt, db.sources) <==> exists i :: 0 <= i < |db.sources| && BadRow(db, decrypt, db.sources[i]);
    if orgs.Err? {
      return Err(orgs.error);
    }
    var organizations: seq<OrgConfig> := [];
    for i := 0 to |db.orgIds|
      invariant |organizations| == i
      invariant forall j :: 0 <= j < i ==> organizations[j] == OrgOf(db, decrypt, db.orgIds[j])
    {
      organizations := organizations + [orgs.value[db.orgIds[i]]];
    }
    assert organizations == OrgsOf(db, decrypt);
    r := Ok(Config(hash(organizations), now, organizations));
  }
}
