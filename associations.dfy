/**
 * The `for` loops that write a project's SDG tags (`project_sdgs`) and media rows
 * (`project_media`), one prepared-statement run per element, stopping at the first statement
 * that throws. Rows written before the failing one stay unless the caller rolls back.
 */
module Associations {
  import opened Wrappers
  import opened Seqs
  import opened Media
  import opened Schema
  import opened Store

  /** The `project_sdgs` rows for `sdgIds`, in order. */
  function TagRows(projectId: int, sdgIds: seq<int>): (r: seq<ProjectSdg>)
    ensures |r| == |sdgIds|
    ensures forall i :: 0 <= i < |r| ==> r[i] == ProjectSdg(projectId, sdgIds[i])
  {
    seq(|sdgIds|, i requires 0 <= i < |sdgIds| => ProjectSdg(projectId, sdgIds[i]))
  }

  /** The `project_media` rows for `urls`, each typed by its extension. */
  function MediaRows(projectId: int, urls: seq<string>): (r: seq<MediaRow>)
    ensures |r| == |urls|
    ensures forall i :: 0 <= i < |r| ==> r[i] == MediaRow(projectId, urls[i], MediaTypeOf(urls[i]))
  {
    seq(|urls|, i requires 0 <= i < |urls| => MediaRow(projectId, urls[i], MediaTypeOf(urls[i])))
  }

  /**
   * Inserting one tag row per id succeeds throughout: no id twice (`UNIQUE(projectId, sdgId)`),
   * no row already present, and, with foreign keys on, the project and every goal exist.
   */
  ghost predicate TagsInsertable(t: Tables, cfg: Config, projectId: int, sdgIds: seq<int>) {
    !HasDuplicate(sdgIds)
    && (forall s :: s in sdgIds ==> ProjectSdg(projectId, s) !in t.projectSdgs)
    && (cfg.foreignKeys ==> forall s :: s in sdgIds ==> HasProject(t, projectId) && HasSdg(t, s))
  }

  /** A list of SDG ids the tag loop accepts for a project that has no tags yet. */
  ghost predicate SdgListAccepted(t: Tables, cfg: Config, sdgIds: seq<int>) {
    !HasDuplicate(sdgIds) && (cfg.foreignKeys ==> KnownSdgs(t.sdgs, sdgIds))
  }

  /**
   * `k` is the position of the id the tag loop stops at: the ids before it are accepted, and
   * adding it is not.
   */
  ghost predicate FirstRejected(t: Tables, cfg: Config, sdgIds: seq<int>, k: int) {
    0 <= k < |sdgIds| && SdgListAccepted(t, cfg, sdgIds[..k]) && !SdgListAccepted(t, cfg, sdgIds[..k + 1])
  }

  /** An accepted list has every prefix accepted. */
  lemma AcceptedPrefix(t: Tables, cfg: Config, sdgIds: seq<int>, j: nat)
    requires j <= |sdgIds| && SdgListAccepted(t, cfg, sdgIds)
    ensures SdgListAccepted(t, cfg, sdgIds[..j])
  {
    var pre := sdgIds[..j];
    assert forall a :: 0 <= a < |pre| ==> pre[a] == sdgIds[a];
    assert forall s :: s in pre ==> s in sdgIds;
  }

  /** The loop stops at one position only: the first rejected position is unique. */
  lemma FirstRejectedUnique(t: Tables, cfg: Config, sdgIds: seq<int>, k1: int, k2: int)
    requires FirstRejected(t, cfg, sdgIds, k1) && FirstRejected(t, cfg, sdgIds, k2)
    ensures k1 == k2
  {
    if k1 < k2 {
      assert sdgIds[..k2][..k1 + 1] == sdgIds[..k1 + 1];
      AcceptedPrefix(t, cfg, sdgIds[..k2], k1 + 1);
    } else if k2 < k1 {
      assert sdgIds[..k1][..k2 + 1] == sdgIds[..k2 + 1];
      AcceptedPrefix(t, cfg, sdgIds[..k1], k2 + 1);
    }
  }

  /** Every id names a row of `sdgs`. */
  ghost predicate KnownSdgs(sdgs: seq<Sdg>, sdgIds: seq<int>) {
    forall s :: s in sdgIds ==> exists g :: g in sdgs && g.id == s
  }

  /** For a project without tag rows, only a repeated id or, with foreign keys on, an unknown goal fails. */
  lemma FreshProjectTags(t: Tables, cfg: Config, projectId: int, sdgIds: seq<int>)
    requires forall r :: r in t.projectSdgs ==> r.projectId != projectId
    requires cfg.foreignKeys ==> HasProject(t, projectId)
    ensures TagsInsertable(t, cfg, projectId, sdgIds) <==> SdgListAccepted(t, cfg, sdgIds)
  {
  }

  /** Media rows only fail on the project reference. */
  ghost predicate MediaInsertable(t: Tables, cfg: Config, projectId: int, urls: seq<string>) {
    cfg.foreignKeys && |urls| > 0 ==> HasProject(t, projectId)
  }

  lemma TagRowsPrefix(projectId: int, sdgIds: seq<int>, i: nat)
    requires i < |sdgIds|
    ensures TagRows(projectId, sdgIds[..i + 1]) == TagRows(projectId, sdgIds[..i]) + [ProjectSdg(projectId, sdgIds[i])]
  {
  }

  lemma InTagRows(projectId: int, sdgIds: seq<int>, s: int)
    ensures ProjectSdg(projectId, s) in TagRows(projectId, sdgIds) <==> s in sdgIds
  {
    var r := TagRows(projectId, sdgIds);
    if ProjectSdg(projectId, s) in r {
      var k :| 0 <= k < |r| && r[k] == ProjectSdg(projectId, s);
      assert sdgIds[k] == s;
    }
    if s in sdgIds {
      var k :| 0 <= k < |sdgIds| && sdgIds[k] == s;
      assert r[k] == ProjectSdg(projectId, s);
    }
  }

  /** The step of the tag loop: `sdgIds[i]` goes in exactly when the prefix grows insertable. */
  lemma TagStep(t0: Tables, cfg: Config, projectId: int, sdgIds: seq<int>, i: nat)
    requires i < |sdgIds|
    requires TagsInsertable(t0, cfg, projectId, sdgIds[..i])
    ensures var t := t0.(projectSdgs := t0.projectSdgs + TagRows(projectId, sdgIds[..i]));
      ExecInsertTag(t, cfg, projectId, sdgIds[i]).Done? <==> TagsInsertable(t0, cfg, projectId, sdgIds[..i + 1])
    ensures var t := t0.(projectSdgs := t0.projectSdgs + TagRows(projectId, sdgIds[..i]));
      ExecInsertTag(t, cfg, projectId, sdgIds[i]).Failed? ==> !TagsInsertable(t0, cfg, projectId, sdgIds)
  {
    var t := t0.(projectSdgs := t0.projectSdgs + TagRows(projectId, sdgIds[..i]));
    var s := sdgIds[i];
    var prefix := sdgIds[..i];
    var next := sdgIds[..i + 1];
    assert next == prefix + [s];
    InTagRows(projectId, prefix, s);
    assert HasProject(t, projectId) == HasProject(t0, projectId);
    assert forall x :: HasSdg(t, x) == HasSdg(t0, x);
    if ExecInsertTag(t, cfg, projectId, s).Done? {
      NoDuplicateExtend(sdgIds, i);
    } else {
      if s in prefix {
        DuplicateAtPrefix(sdgIds, i);
        assert !TagsInsertable(t0, cfg, projectId, next);
      } else if ProjectSdg(projectId, s) in t0.projectSdgs {
        assert s in next && s in sdgIds;
      } else {
        assert s in next && s in sdgIds;
      }
    }
  }

  /** `for (const sdgId of sdgIds) await sdgStatement.run(projectId, sdgId)` */
  method InsertTags(db: Database, projectId: int, sdgIds: seq<int>) returns (inserted: nat, failure: Option<StoreFailure>)
    requires db.Valid()
    modifies db
    ensures db.Valid() && db.savepoint == old(db.savepoint)
    ensures inserted <= |sdgIds|
    ensures db.tables == old(db.tables).(projectSdgs := old(db.tables).projectSdgs + TagRows(projectId, sdgIds[..inserted]))
    ensures failure.None? <==> TagsInsertable(old(db.tables), db.config, projectId, sdgIds)
    ensures failure.None? ==> inserted == |sdgIds|
    ensures failure.Some? ==> inserted < |sdgIds|
    ensures failure.Some? ==> TagsInsertable(old(db.tables), db.config, projectId, sdgIds[..inserted])
                              && !TagsInsertable(old(db.tables), db.config, projectId, sdgIds[..inserted + 1])
  {
    var t0 := db.tables;
    var i := 0;
    while i < |sdgIds|
      invariant 0 <= i <= |sdgIds|
      invariant db.Valid() && db.savepoint == old(db.savepoint)
      invariant db.tables == t0.(projectSdgs := t0.projectSdgs + TagRows(projectId, sdgIds[..i]))
      invariant TagsInsertable(t0, db.config, projectId, sdgIds[..i])
    {
      TagStep(t0, db.config, projectId, sdgIds, i);
      var r := db.Run(InsertTag(projectId, sdgIds[i]));
      if r.Failed? {
        return i, Some(r.failure);
      }
      TagRowsPrefix(projectId, sdgIds, i);
      i := i + 1;
    }
    assert sdgIds[..i] == sdgIds;
    return i, None;
  }

  /** `for (const mediaUrl of urls) await mediaStatement.run(projectId, mediaUrl, mediaType)` */
  method InsertMediaRows(db: Database, projectId: int, urls: seq<string>) returns (inserted: nat, failure: Option<StoreFailure>)
    requires db.Valid()
    modifies db
    ensures db.Valid() && db.savepoint == old(db.savepoint)
    ensures inserted <= |urls|
    ensures db.tables == old(db.tables).(projectMedia := old(db.tables).projectMedia + MediaRows(projectId, urls[..inserted]))
    ensures failure.None? <==> MediaInsertable(old(db.tables), db.config, projectId, urls)
    ensures failure.None? ==> inserted == |urls|
    ensures failure.Some? ==> inserted < |urls|
  {
    var t0 := db.tables;
    var i := 0;
    while i < |urls|
      invariant 0 <= i <= |urls|
      invariant db.Valid() && db.savepoint == old(db.savepoint)
      invariant db.tables == t0.(projectMedia := t0.projectMedia + MediaRows(projectId, urls[..i]))
      invariant i > 0 ==> MediaInsertable(t0, db.config, projectId, urls)
    {
      assert HasProject(db.tables, projectId) == HasProject(t0, projectId);
      var r := db.Run(InsertMedia(projectId, urls[i], MediaTypeOf(urls[i])));
      if r.Failed? {
        return i, Some(r.failure);
      }
      assert MediaRows(projectId, urls[..i + 1]) == MediaRows(projectId, urls[..i]) + [MediaRow(projectId, urls[i], MediaTypeOf(urls[i]))];
      i := i + 1;
    }
    assert urls[..i] == urls;
    return i, None;
  }
}
