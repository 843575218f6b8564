/**
 * Reading feedback: the `averageRating` aggregate of the project queries, the role-dependent
 * feedback list, and the public list shown on a project's page. Both lists are ordered by
 * `createdAt DESC`; rows with equal timestamps keep table order here (SQLite leaves their order
 * open).
 */
module FeedbackRules {
  import opened Wrappers
  import opened Seqs
  import opened Sorting
  import opened Schema
  import opened Authorization

  /** The ratings `AVG` sees for a project: every row of it, private or not, except NULL ratings. */
  function RatingsOf(fs: seq<Feedback>, projectId: int): seq<int> {
    if fs == [] then []
    else
      (if fs[0].projectId == projectId && fs[0].rating.Some? then [fs[0].rating.value] else [])
      + RatingsOf(fs[1..], projectId)
  }

  function Sum(xs: seq<int>): int {
    if xs == [] then 0 else xs[0] + Sum(xs[1..])
  }

  lemma {:induction false} RatingsOfEmpty(fs: seq<Feedback>, projectId: int)
    ensures |RatingsOf(fs, projectId)| == 0 <==> forall f :: f in fs && f.projectId == projectId ==> f.rating.None?
  {
    if fs != [] {
      RatingsOfEmpty(fs[1..], projectId);
      assert forall f :: f in fs ==> f == fs[0] || f in fs[1..];
    }
  }

  /** `AVG(f.rating)` over the project's `LEFT JOIN feedback`: NULL when no row carries a rating. */
  function AverageRating(fs: seq<Feedback>, projectId: int): (r: Option<real>)
    ensures r.None? <==> forall f :: f in fs && f.projectId == projectId ==> f.rating.None?
  {
    var rs := RatingsOf(fs, projectId);
    RatingsOfEmpty(fs, projectId);
    if |rs| == 0 then None else Some(Sum(rs) as real / |rs| as real)
  }

  /** Making rows private or public never changes the average: it is taken over all of them. */
  lemma {:induction false} AverageIgnoresPrivacy(fs: seq<Feedback>, gs: seq<Feedback>, projectId: int)
    requires |fs| == |gs|
    requires forall i :: 0 <= i < |fs| ==> gs[i] == fs[i].(isPrivate := gs[i].isPrivate)
    ensures AverageRating(gs, projectId) == AverageRating(fs, projectId)
  {
    RatingsIgnorePrivacy(fs, gs, projectId);
  }

  lemma {:induction false} RatingsIgnorePrivacy(fs: seq<Feedback>, gs: seq<Feedback>, projectId: int)
    requires |fs| == |gs|
    requires forall i :: 0 <= i < |fs| ==> gs[i] == fs[i].(isPrivate := gs[i].isPrivate)
    ensures RatingsOf(gs, projectId) == RatingsOf(fs, projectId)
  {
    if fs != [] {
      assert gs[0] == fs[0].(isPrivate := gs[0].isPrivate);
      RatingsIgnorePrivacy(fs[1..], gs[1..], projectId);
    }
  }

  /** A sum of ratings on the 1..5 scale lies between one and five times their number. */
  lemma {:induction false} SumBounds(xs: seq<int>)
    requires forall x :: x in xs ==> 1 <= x <= 5
    ensures |xs| <= Sum(xs) <= 5 * |xs|
  {
    if xs != [] {
      assert forall x :: x in xs[1..] ==> x in xs;
      SumBounds(xs[1..]);
      assert xs[0] in xs;
    }
  }

  lemma {:induction false} RatingsWithin(fs: seq<Feedback>, projectId: int)
    requires forall f :: f in fs ==> RatingAdmitted(CodeServer, f.rating)
    ensures forall x :: x in RatingsOf(fs, projectId) ==> 1 <= x <= 5
  {
    if fs != [] {
      assert fs[0] in fs;
      RatingsWithin(fs[1..], projectId);
    }
  }

  /** Under the rating CHECK of the code schema the average lies between 1 and 5. */
  lemma AverageWithinScale(fs: seq<Feedback>, projectId: int)
    requires forall f :: f in fs ==> RatingAdmitted(CodeServer, f.rating)
    ensures AverageRating(fs, projectId).Some? ==> 1.0 <= AverageRating(fs, projectId).value <= 5.0
  {
    var rs := RatingsOf(fs, projectId);
    if |rs| > 0 {
      RatingsWithin(fs, projectId);
      SumBounds(rs);
      var n := |rs| as real;
      var s := Sum(rs) as real;
      DivBounds(s, n);
    }
  }

  lemma DivBounds(s: real, n: real)
    requires n > 0.0 && n <= s <= 5.0 * n
    ensures 1.0 <= s / n <= 5.0
  {
  }

  /** One private rating 4 and one public rating 2 average to 3, though only the 2 is public. */
  lemma PrivateRatingCounts()
    ensures var fs := [Feedback(1, 7, 3, "good", Some(4), true, 10), Feedback(2, 7, 4, "weak", Some(2), false, 11)];
      AverageRating(fs, 7) == Some(3.0) && PublicRows(fs, 7) == [fs[1]]
  {
    var fs := [Feedback(1, 7, 3, "good", Some(4), true, 10), Feedback(2, 7, 4, "weak", Some(2), false, 11)];
    assert fs[1..][1..] == [];
    assert RatingsOf(fs, 7) == [4, 2];
  }

  /** Newest first: `ORDER BY f.createdAt DESC`. */
  function NewestFirst(fs: seq<Feedback>): seq<Feedback> {
    Sort(fs, (a: Feedback, b: Feedback) => (b.createdAt - a.createdAt) as real)
  }

  lemma NewestFirstOrders(fs: seq<Feedback>)
    ensures multiset(NewestFirst(fs)) == multiset(fs)
    ensures forall i, j :: 0 <= i < j < |NewestFirst(fs)| ==> NewestFirst(fs)[i].createdAt >= NewestFirst(fs)[j].createdAt
  {
    var cmp := (a: Feedback, b: Feedback) => (b.createdAt - a.createdAt) as real;
    var key := (f: Feedback) => -(f.createdAt as real);
    assert ComparesByKey(cmp, key);
    SortPermutes(fs, cmp);
    SortSorts(fs, cmp, key);
    var r := NewestFirst(fs);
    forall i, j | 0 <= i < j < |r| ensures r[i].createdAt >= r[j].createdAt {
      assert key(r[i]) <= key(r[j]);
    }
  }

  /** The rows a reader's query joins to an existing author and project. */
  predicate Joined(t: Tables, f: Feedback) {
    HasUser(t, f.userId) && HasProject(t, f.projectId)
  }

  /** `GET /api/projects/:projectId/feedback`: one query for faculty and admin, another for the rest. */
  function ProjectFeedback(t: Tables, projectId: int, role: string): seq<Feedback> {
    if role == "faculty" || role == "admin" then
      NewestFirst(Filter(t.feedback, (f: Feedback) => f.projectId == projectId && Joined(t, f)))
    else
      NewestFirst(Filter(t.feedback, (f: Feedback) => f.projectId == projectId && !f.isPrivate && Joined(t, f)))
  }

  /** What the reader of a project's feedback list gets. */
  lemma ProjectFeedbackRows(t: Tables, projectId: int, role: string)
    ensures forall f :: f in ProjectFeedback(t, projectId, role) <==>
      f in t.feedback && f.projectId == projectId && Joined(t, f) && (SeesPrivateFeedback(role) || !f.isPrivate)
    ensures forall i, j :: 0 <= i < j < |ProjectFeedback(t, projectId, role)| ==>
      ProjectFeedback(t, projectId, role)[i].createdAt >= ProjectFeedback(t, projectId, role)[j].createdAt
  {
    var all := (f: Feedback) => f.projectId == projectId && Joined(t, f);
    var pub := (f: Feedback) => f.projectId == projectId && !f.isPrivate && Joined(t, f);
    var rows := if SeesPrivateFeedback(role) then Filter(t.feedback, all) else Filter(t.feedback, pub);
    NewestFirstOrders(rows);
    assert ProjectFeedback(t, projectId, role) == NewestFirst(rows);
    forall f ensures f in NewestFirst(rows) <==> f in rows {
      assert f in NewestFirst(rows) <==> f in multiset(NewestFirst(rows));
    }
    forall f ensures f in rows <==> f in t.feedback && f.projectId == projectId && Joined(t, f) && (SeesPrivateFeedback(role) || !f.isPrivate) {
      if SeesPrivateFeedback(role) { FilterMembership(t.feedback, all, f); } else { FilterMembership(t.feedback, pub, f); }
    }
  }

  /** With references enforced, faculty and admin see every feedback row of the project. */
  lemma PrivilegedSeeEverything(t: Tables, projectId: int, role: string)
    requires ReferencesHold(t)
    requires SeesPrivateFeedback(role)
    ensures multiset(ProjectFeedback(t, projectId, role)) == multiset(Filter(t.feedback, (f: Feedback) => f.projectId == projectId))
  {
    var all := (f: Feedback) => f.projectId == projectId && Joined(t, f);
    var mine := (f: Feedback) => f.projectId == projectId;
    FilterSameOn(t.feedback, all, mine);
    NewestFirstOrders(Filter(t.feedback, all));
  }

  lemma {:induction false} FilterSameOn<T>(s: seq<T>, p: T -> bool, q: T -> bool)
    requires forall x :: x in s ==> p(x) == q(x)
    ensures Filter(s, p) == Filter(s, q)
  {
    if s != [] {
      assert s[0] in s;
      FilterSameOn(s[1..], p, q);
    }
  }

  /** The public rows of a project, before the join to their authors that the project page adds (`ProjectRoutes.GetProject`). */
  function PublicRows(fs: seq<Feedback>, projectId: int): (r: seq<Feedback>)
    ensures forall f :: f in r <==> f in fs && f.projectId == projectId && !f.isPrivate
  {
    var p := (f: Feedback) => f.projectId == projectId && !f.isPrivate;
    FilterMembershipAll(fs, p);
    Filter(fs, p)
  }
}
