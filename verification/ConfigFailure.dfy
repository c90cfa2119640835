/** When a payload cannot be applied, read off the tables it was built from. */
module ConfigFailure {
  import opened ConfigRefinement
  import opened ConfigStore
  import opened WorkspaceConfig

  // ----- the relational reading -----

  ghost predicate AttachmentAt(atts: seq<Attachment>, a: int, source: Uuid, target: Uuid) {
    0 <= a < |atts| && atts[a].sourceId == source && atts[a].targetId == target
  }

  predicate GuardBroken(reg: Registry, g: GuardrailConfig) {
    reg.guard(g.guardType, g.name, g.config).Err?
  }

  predicate TransformerBroken(reg: Registry, t: TransformerConfig) {
    reg.transformer(t.transformerType, t.name, t.config).Err?
  }

  /** The a-th attachment gives the source the g-th guardrail: live, of this organization, and not to be built. */
  ghost predicate BrokenGuard(reg: Registry, db: Database, org: Uuid, source: Uuid, a: int, g: int) {
    && 0 <= a < |db.attachments| && db.attachments[a].sourceId == source
    && LiveRow(db.guardrails, GuardrailId, g, org, db.attachments[a].targetId)
    && GuardBroken(reg, db.guardrails[g].data)
  }

  ghost predicate BrokenTransformer(reg: Registry, db: Database, org: Uuid, source: Uuid, a: int, t: int) {
    && 0 <= a < |db.transformerAttachments| && db.transformerAttachments[a].sourceId == source
    && LiveRow(db.transformers, TransformerId, t, org, db.transformerAttachments[a].targetId)
      && TransformerBroken(reg, db.transformers[t].data)
  }

  ghost predicate HasBroken(reg: Registry, db: Database, org: Uuid, source: Uuid) {
    (exists a, g :: BrokenGuard(reg, db, org, source, a, g))
      || (exists a, t :: BrokenTransformer(reg, db, org, source, a, t))
  }

  /** A source of a known organization, enabled or not, with something attached that cannot be built. */
  ghost predicate BrokenSource(reg: Registry, db: Database, k: int) {
    0 <= k < |db.sources| && db.sources[k].org in db.orgIds
      && HasBroken(reg, db, db.sources[k].org, db.sources[k].data.id)
  }

  // ----- the payload says the same -----

  lemma {:induction false} AttachedIff(atts: seq<Attachment>, source: Uuid, target: Uuid)
    ensures target in AttachedTo(atts, source) <==> exists a :: AttachmentAt(atts, a, source, target)
  {
    if atts != [] {
      var n := |atts| - 1;
      AttachedIff(atts[..n], source, target);
      forall a
        ensures AttachmentAt(atts, a, source, target) <==>
          AttachmentAt(atts[..n], a, source, target) || (a == n && AttachmentAt(atts, n, source, target))
      {
      }
      assert target in AttachedTo(atts, source) <==>
        target in AttachedTo(atts[..n], source) || AttachmentAt(atts, n, source, target);
    }
  }

  lemma GuardFailsIff(reg: Registry, db: Database, org: Uuid, source: Uuid)
    requires KeysUnique(db)
    ensures GuardFails(reg, IndexBy(Owned(db.guardrails, org), GuardrailId), AttachedTo(db.attachments, source))
      <==> exists a, g :: BrokenGuard(reg, db, org, source, a, g)
  {
    var index, ids := IndexBy(Owned(db.guardrails, org), GuardrailId), AttachedTo(db.attachments, source);
    if GuardFails(reg, index, ids) {
      var i :| 0 <= i < |ids| && ids[i] in index && GuardBroken(reg, index[ids[i]]);
      AttachedIff(db.attachments, source, ids[i]);
      var a :| AttachmentAt(db.attachments, a, source, ids[i]);
      IndexRows(db.guardrails, GuardrailId, org, ids[i]);
      var g :| LiveRow(db.guardrails, GuardrailId, g, org, ids[i]) && index[ids[i]] == db.guardrails[g].data;
      assert BrokenGuard(reg, db, org, source, a, g);
    }
    if a, g :| BrokenGuard(reg, db, org, source, a, g) {
      var id := db.attachments[a].targetId;
      assert AttachmentAt(db.attachments, a, source, id);
      AttachedIff(db.attachments, source, id);
      IndexRows(db.guardrails, GuardrailId, org, id);
      var h :| LiveRow(db.guardrails, GuardrailId, h, org, id) && index[id] == db.guardrails[h].data;
      assert g == h;
      var i :| 0 <= i < |ids| && ids[i] == id;
      assert GuardBroken(reg, index[ids[i]]);
    }
  }

  lemma TransformerFailsIff(reg: Registry, db: Database, org: Uuid, source: Uuid)
    requires KeysUnique(db)
    ensures TransformerFails(reg, IndexBy(Owned(db.transformers, org), TransformerId),
                             AttachedTo(db.transformerAttachments, source))
      <==> exists a, t :: BrokenTransformer(reg, db, org, source, a, t)
  {
    var index := IndexBy(Owned(db.transformers, org), TransformerId);
    var ids := AttachedTo(db.transformerAttachments, source);
    if TransformerFails(reg, index, ids) {
      var i :| 0 <= i < |ids| && ids[i] in index && TransformerBroken(reg, index[ids[i]]);
      AttachedIff(db.transformerAttachments, source, ids[i]);
      var a :| AttachmentAt(db.transformerAttachments, a, source, ids[i]);
      IndexRows(db.transformers, TransformerId, org, ids[i]);
      var t :| LiveRow(db.transformers, TransformerId, t, org, ids[i]) && index[ids[i]] == db.transformers[t].data;
      assert BrokenTransformer(reg, db, org, source, a, t);
    }
    if a, t :| BrokenTransformer(reg, db, org, source, a, t) {
      var id := db.transformerAttachments[a].targetId;
      assert AttachmentAt(db.transformerAttachments, a, source, id);
      AttachedIff(db.transformerAttachments, source, id);
      IndexRows(db.transformers, TransformerId, org, id);
      var u :| LiveRow(db.transformers, TransformerId, u, org, id) && index[id] == db.transformers[u].data;
      assert t == u;
      var i :| 0 <= i < |ids| && ids[i] == id;
      assert TransformerBroken(reg, index[ids[i]]);
    }
  }

  lemma SourceFailsIff(reg: Registry, db: Database, decrypt: Decrypt, org: Uuid, row: SourceRow)
    requires KeysUnique(db)
    ensures SourceFails(reg, OrgOf(db, decrypt, org), SourceConfigOf(db, decrypt, row))
      <==> HasBroken(reg, db, org, row.id)
  {
    GuardFailsIff(reg, db, org, row.id);
    TransformerFailsIff(reg, db, org, row.id);
  }

  ghost predicate SourceOf(rows: seq<Row<SourceRow>>, k: int, org: Uuid) {
    0 <= k < |rows| && rows[k].org == org
  }

  lemma {:induction false} SourcesIff(db: Database, decrypt: Decrypt, rows: seq<Row<SourceRow>>, org: Uuid,
                                      src: SourceConfig)
    ensures src in SourcesOf(db, decrypt, rows, org)
      <==> exists k :: SourceOf(rows, k, org) && src == SourceConfigOf(db, decrypt, rows[k].data)
  {
    if rows != [] {
      var n := |rows| - 1;
      SourcesIff(db, decrypt, rows[..n], org, src);
      assert forall k :: SourceOf(rows, k, org) <==> SourceOf(rows[..n], k, org) || (k == n && SourceOf(rows, n, org));
    }
  }

  lemma OrgFailsIff(reg: Registry, db: Database, decrypt: Decrypt, org: Uuid)
    requires KeysUnique(db)
    ensures OrgFails(reg, OrgOf(db, decrypt, org))
      <==> exists k :: SourceOf(db.sources, k, org) && HasBroken(reg, db, org, db.sources[k].data.id)
  {
    var o := OrgOf(db, decrypt, org);
    if OrgFails(reg, o) {
      var i :| 0 <= i < |o.sources| && SourceFails(reg, o, o.sources[i]);
      SourcesIff(db, decrypt, db.sources, org, o.sources[i]);
      var k :| SourceOf(db.sources, k, org) && o.sources[i] == SourceConfigOf(db, decrypt, db.sources[k].data);
      SourceFailsIff(reg, db, decrypt, org, db.sources[k].data);
    }
    if k :| SourceOf(db.sources, k, org) && HasBroken(reg, db, org, db.sources[k].data.id) {
      var src := SourceConfigOf(db, decrypt, db.sources[k].data);
      SourcesIff(db, decrypt, db.sources, org, src);
      SourceFailsIff(reg, db, decrypt, org, db.sources[k].data);
      var i :| 0 <= i < |o.sources| && o.sources[i] == src;
    }
  }

  /**
    Applying what was built fails exactly when some source of a known organization has an enabled
    guardrail or transformer of that organization attached which its factory refuses.
   */
  lemma ApplyFailsIff(reg: Registry, db: Database, decrypt: Decrypt)
    requires KeysUnique(db)
    ensures ConfigFails(reg, OrgsOf(db, decrypt)) <==> exists k :: BrokenSource(reg, db, k)
  {
    var orgs := OrgsOf(db, decrypt);
    if ConfigFails(reg, orgs) {
      var i :| 0 <= i < |orgs| && OrgFails(reg, orgs[i]);
      OrgFailsIff(reg, db, decrypt, db.orgIds[i]);
      var k :| SourceOf(db.sources, k, db.orgIds[i]) && HasBroken(reg, db, db.orgIds[i], db.sources[k].data.id);
      assert BrokenSource(reg, db, k);
    }
    if k :| BrokenSource(reg, db, k) {
      var i :| 0 <= i < |db.orgIds| && db.orgIds[i] == db.sources[k].org;
      assert SourceOf(db.sources, k, db.orgIds[i]);
      OrgFailsIff(reg, db, decrypt, db.orgIds[i]);
      assert OrgFails(reg, orgs[i]);
    }
  }
}
