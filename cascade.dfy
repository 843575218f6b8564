/**
 * `DELETE /api/projects/:id` relies on `ON DELETE CASCADE` to remove a project's SDG tags and
 * media ("cascade will handle related records"). SQLite runs cascades only on a connection with
 * `PRAGMA foreign_keys = ON`, which neither server issues, so as written the tags and media of a
 * deleted project stay behind. With the pragma on, nothing refers to the project afterwards.
 */
module Cascade {
  import opened Wrappers
  import opened Seqs
  import opened Media
  import opened Schema
  import opened Associations
  import opened Routing

  /** A table state with project 1 of team 1, tagged with goal 3 and carrying one image. */
  function TaggedProject(): (t: Tables)
    ensures HasProject(t, 1) && TagsOf(t.projectSdgs, 1) == [ProjectSdg(1, 3)]
  {
    Tables([], [Team(1, "t", None)], [], [Sdg(3, 3)],
      [Project(1, "p", "d", "u", None, None, 1, 0, 0)],
      [ProjectSdg(1, 3)], [MediaRow(1, "a.png", Image)], [],
      0, 1, 1, 0)
  }

  /** As written: the delete succeeds but the project's tag and media rows survive it. */
  lemma OrphansSurviveDelete(v: Variant)
    ensures var r := ExecDeleteProject(TaggedProject(), Config(v, false), 1);
      r.Done? && !HasProject(r.tables, 1)
      && ProjectSdg(1, 3) in r.tables.projectSdgs
      && MediaRow(1, "a.png", Image) in r.tables.projectMedia
      && !TagsRefer(r.tables.projectSdgs, r.tables.projects, r.tables.sdgs)
  {
    var r := ExecDeleteProject(TaggedProject(), Config(v, false), 1);
    assert r.tables.projects == [];
    assert ProjectSdg(1, 3) in r.tables.projectSdgs;
  }

  /**
   * With foreign keys on, a delete that goes through removes the project and every row that
   * referred to it, and the others keep theirs.
   */
  lemma CascadeLeavesNoOrphans(t: Tables, cfg: Config, id: int)
    requires cfg.foreignKeys
    ensures var r := ExecDeleteProject(t, cfg, id);
      r.Done? ==>
        !HasProject(r.tables, id)
        && TagsOf(r.tables.projectSdgs, id) == [] && MediaOf(r.tables.projectMedia, id) == []
        && (forall f :: f in r.tables.feedback ==> f.projectId != id)
        && (forall q :: q != id ==> TagsOf(r.tables.projectSdgs, q) == TagsOf(t.projectSdgs, q))
        && (forall q :: q != id ==> MediaOf(r.tables.projectMedia, q) == MediaOf(t.projectMedia, q))
  {
    var r := ExecDeleteProject(t, cfg, id);
    if r.Done? {
      FilterMembershipAll(t.projects, (p: Project) => p.id != id);
      FilterMembershipAll(t.feedback, (f: Feedback) => f.projectId != id);
      ReplaceTags(t.projectSdgs, id, []);
      ReplaceMedia(t.projectMedia, id, []);
      assert t.projectSdgs + [] == t.projectSdgs && t.projectMedia + [] == t.projectMedia;
      assert Filter(t.projectSdgs, (s: ProjectSdg) => s.projectId != id) + TagRows(id, []) == r.tables.projectSdgs;
      assert Filter(t.projectMedia, (m: MediaRow) => m.projectId != id) + MediaRows(id, []) == r.tables.projectMedia;
    }
  }

  /**
   * With foreign keys on, the code schema refuses to delete a project that has feedback (its
   * feedback table declares no `ON DELETE` action); the frontend schema never refuses.
   */
  lemma FeedbackBlocksCodeDelete(t: Tables, id: int)
    ensures ExecDeleteProject(t, Config(CodeServer, true), id).Failed?
            <==> HasProject(t, id) && exists f :: f in t.feedback && f.projectId == id
    ensures ExecDeleteProject(t, Config(FrontendServer, true), id).Done?
  {
  }
}
