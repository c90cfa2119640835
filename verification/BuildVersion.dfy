/** When building the payload twice from the same rows gives the same version. */
module BuildVersion {
  import opened ConfigProtocol
  import opened WorkspaceConfig

  /**
    Two answers of the database to the builder's queries. Organizations, sources, guardrails,
    transformers and their attachments are sorted by a key, so they come in one order only; keys,
    webhooks and guardrail attachments are sorted by their organization or source alone.
   */
  ghost predicate SameButTies(db: Database, db': Database) {
    db' == db.(apiKeys := db'.apiKeys, alertWebhooks := db'.alertWebhooks, attachments := db'.attachments)
  }

  ghost predicate SameAttachments(db: Database, db': Database, rows: seq<Row<SourceRow>>, org: Uuid) {
    forall k :: 0 <= k < |rows| && rows[k].org == org ==>
      AttachedTo(db.attachments, rows[k].data.id) == AttachedTo(db'.attachments, rows[k].data.id)
  }

  /** Within the organization, and within each of its sources, ties come in the same order. */
  ghost predicate SameWithin(db: Database, db': Database, org: Uuid) {
    && Owned(db.apiKeys, org) == Owned(db'.apiKeys, org)
    && Owned(db.alertWebhooks, org) == Owned(db'.alertWebhooks, org)
    && SameAttachments(db, db', db.sources, org)
  }

  lemma {:induction false} SourcesAlikeIff(db: Database, db': Database, decrypt: Decrypt, rows: seq<Row<SourceRow>>,
                                           org: Uuid)
    requires SameButTies(db, db')
    ensures |SourcesOf(db, decrypt, rows, org)| == |SourcesOf(db', decrypt, rows, org)|
    ensures SourcesOf(db, decrypt, rows, org) == SourcesOf(db', decrypt, rows, org)
      <==> SameAttachments(db, db', rows, org)
  {
    if rows != [] {
      var n := |rows| - 1;
      SourcesAlikeIff(db, db', decrypt, rows[..n], org);
      var s, s' := SourcesOf(db, decrypt, rows[..n], org), SourcesOf(db', decrypt, rows[..n], org);
      LastAttachments(db, db', rows, org);
      if rows[n].org == org {
        var src, src' := SourceConfigOf(db, decrypt, rows[n].data), SourceConfigOf(db', decrypt, rows[n].data);
        assert src == src' <==> src.guardrailIds == src'.guardrailIds;
        SameLast(s, src, s', src');
      } else {
        assert SourcesOf(db, decrypt, rows, org) == s && SourcesOf(db', decrypt, rows, org) == s';
      }
    }
  }

  lemma LastAttachments(db: Database, db': Database, rows: seq<Row<SourceRow>>, org: Uuid)
    requires rows != []
    ensures var n := |rows| - 1;
      SameAttachments(db, db', rows, org) <==>
      (SameAttachments(db, db', rows[..n], org) && (rows[n].org == org ==>
       AttachedTo(db.attachments, rows[n].data.id) == AttachedTo(db'.attachments, rows[n].data.id)))
  {
    var n := |rows| - 1;
    assert forall k :: 0 <= k < n ==> rows[..n][k] == rows[k];
    if SameAttachments(db, db', rows, org) {
      forall k | 0 <= k < n && rows[..n][k].org == org
        ensures AttachedTo(db.attachments, rows[..n][k].data.id) == AttachedTo(db'.attachments, rows[..n][k].data.id)
      {
        assert rows[k].org == org;
      }
    }
    if SameAttachments(db, db', rows[..n], org) {
      forall k | 0 <= k < n && rows[k].org == org
        ensures AttachedTo(db.attachments, rows[k].data.id) == AttachedTo(db'.attachments, rows[k].data.id)
      {
        assert rows[..n][k].org == org;
      }
    }
  }

  lemma SameLast<T>(a: seq<T>, x: T, b: seq<T>, y: T)
    requires |a| == |b|
    ensures a + [x] == b + [y] <==> a == b && x == y
  {
    assert (a + [x])[..|a|] == a && (a + [x])[|a|] == x;
    assert (b + [y])[..|b|] == b && (b + [y])[|b|] == y;
  }

  lemma OrgsAlikeIff(db: Database, db': Database, decrypt: Decrypt)
    requires SameButTies(db, db')
    ensures OrgsOf(db, decrypt) == OrgsOf(db', decrypt) <==> forall id :: id in db.orgIds ==> SameWithin(db, db', id)
  {
    var orgs, orgs' := OrgsOf(db, decrypt), OrgsOf(db', decrypt);
    forall i | 0 <= i < |db.orgIds|
      ensures orgs[i] == orgs'[i] <==> SameWithin(db, db', db.orgIds[i])
    {
      SourcesAlikeIff(db, db', decrypt, db.sources, db.orgIds[i]);
    }
    if orgs == orgs' {
      forall id | id in db.orgIds
        ensures SameWithin(db, db', id)
      {
        var i :| 0 <= i < |db.orgIds| && db.orgIds[i] == id;
      }
    }
  }

  /**
    Two builds get the same version exactly when, within every known organization, its live keys and
    webhooks and the guardrails of each of its sources are listed in the same order. How rows of
    different organizations are interleaved does not matter.
   */
  lemma SameVersionIff(hash: Hash, db: Database, db': Database, decrypt: Decrypt)
    requires SameButTies(db, db') && NoCollision(hash, [OrgsOf(db, decrypt), OrgsOf(db', decrypt)])
    ensures hash(OrgsOf(db, decrypt)) == hash(OrgsOf(db', decrypt))
      <==> forall id :: id in db.orgIds ==> SameWithin(db, db', id)
  {
    OrgsAlikeIff(db, db', decrypt);
    var both := [OrgsOf(db, decrypt), OrgsOf(db', decrypt)];
    assert both[0] in both && both[1] in both;
  }

  function TwoKeys(k: APIKeyConfig, k': APIKeyConfig): Database {
    Database([0], [Row(0, true, k), Row(0, true, k')], [], [], [], [], [], [])
  }

  lemma TwoKeysOwned(k: APIKeyConfig, k': APIKeyConfig)
    ensures Owned(TwoKeys(k, k').apiKeys, 0) == [k, k']
  {
    var rows := TwoKeys(k, k').apiKeys;
    assert rows[..1] == [rows[0]] && rows[..1][..0] == [];
    assert Owned(rows[..1], 0) == [k];
  }

  /** Nothing was changed, yet the version is another: two keys of one organization listed the other way round. */
  lemma TiesChangeTheVersion(hash: Hash, decrypt: Decrypt, k: APIKeyConfig, k': APIKeyConfig)
    requires k != k'
    requires NoCollision(hash, [OrgsOf(TwoKeys(k, k'), decrypt), OrgsOf(TwoKeys(k', k), decrypt)])
    ensures multiset(TwoKeys(k, k').apiKeys) == multiset(TwoKeys(k', k).apiKeys)
    ensures SameButTies(TwoKeys(k, k'), TwoKeys(k', k))
    ensures hash(OrgsOf(TwoKeys(k, k'), decrypt)) != hash(OrgsOf(TwoKeys(k', k), decrypt))
  {
    SameVersionIff(hash, TwoKeys(k, k'), TwoKeys(k', k), decrypt);
    TwoKeysOwned(k, k');
    TwoKeysOwned(k', k);
    assert [k, k'][0] != [k', k][0];
    assert 0 in TwoKeys(k, k').orgIds;
  }
}
