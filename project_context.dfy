/**
 * The client's project list: lookups over the list the server sent, the top-five "featured"
 * selection made once when the list is fetched, and the list updates that follow a successful
 * create, update or delete request. The requests themselves are outside the model: their
 * outcome arrives as a `Reply`.
 */
module ProjectCatalog {
  import opened Wrappers
  import opened Seqs
  import opened Sorting

  datatype SdgRef = SdgRef(id: int, name: string)

  /** A project as the client holds it; `averageRating` may be absent. */
  datatype ListedProject = ListedProject(
    id: int, title: string, description: string, teamId: int,
    averageRating: Option<real>, sdgs: seq<SdgRef>, mediaUrls: seq<string>)

  /** What a request came back with: the server's body, or a failure with its optional message. */
  datatype Reply<T> = Success(value: T) | Failure(message: Option<string>)

  /** `projects.find(project => project.id === id)` */
  function FindById(ps: seq<ListedProject>, id: int): (r: Option<ListedProject>)
    ensures r.None? <==> forall p :: p in ps ==> p.id != id
    ensures r.Some? ==> exists k :: 0 <= k < |ps| && ps[k] == r.value && r.value.id == id
                                     && forall j :: 0 <= j < k ==> ps[j].id != id
  {
    if ps == [] then None
    else if ps[0].id == id then Some(ps[0])
    else
      var r := FindById(ps[1..], id);
      assert forall p :: p in ps ==> p == ps[0] || p in ps[1..];
      if r.Some? then
        var k :| 0 <= k < |ps[1..]| && ps[1..][k] == r.value && r.value.id == id
                 && forall j :: 0 <= j < k ==> ps[1..][j].id != id;
        assert ps[k + 1] == r.value;
        assert forall j :: 1 <= j < k + 1 ==> ps[j] == ps[1..][j - 1];
        r
      else r
  }

  /** `project.sdgs.some(sdg => sdg.id === sdgId)` */
  predicate Tagged(p: ListedProject, sdgId: int) {
    exists s :: s in p.sdgs && s.id == sdgId
  }

  function TaggedWith(sdgId: int): ListedProject -> bool {
    (p: ListedProject) => Tagged(p, sdgId)
  }

  /** `getProjectsBySDG`: the projects carrying that goal, in list order. */
  function BySdg(ps: seq<ListedProject>, sdgId: int): seq<ListedProject> {
    Filter(ps, TaggedWith(sdgId))
  }

  /** Exactly the projects with some goal of that id, and in their original order. */
  lemma BySdgSelects(ps: seq<ListedProject>, qs: seq<ListedProject>, sdgId: int)
    ensures forall p :: p in BySdg(ps, sdgId) <==> p in ps && exists s :: s in p.sdgs && s.id == sdgId
    ensures BySdg(ps + qs, sdgId) == BySdg(ps, sdgId) + BySdg(qs, sdgId)
  {
    FilterMembershipAll(ps, TaggedWith(sdgId));
    FilterAppend(ps, qs, TaggedWith(sdgId));
  }

  /** `p.averageRating || 0` */
  function RatingOrZero(p: ListedProject): real {
    if p.averageRating.Some? then p.averageRating.value else 0.0
  }

  /** `(a, b) => (b.averageRating || 0) - (a.averageRating || 0)` */
  function ByRatingDesc(a: ListedProject, b: ListedProject): real {
    RatingOrZero(b) - RatingOrZero(a)
  }

  function NegatedRating(p: ListedProject): real {
    -RatingOrZero(p)
  }

  /** `[...projects].sort(byRatingDesc).slice(0, 5)` */
  function Featured(ps: seq<ListedProject>): seq<ListedProject> {
    Take(Sort(ps, ByRatingDesc), 5)
  }

  /**
   * The featured list: as many as five projects, all taken from the list, best rated first,
   * and no project left out rates higher than one that was taken.
   */
  lemma FeaturedTopFive(ps: seq<ListedProject>)
    ensures |Featured(ps)| == if |ps| < 5 then |ps| else 5
    ensures multiset(Featured(ps)) <= multiset(ps)
    ensures forall i, j :: 0 <= i < j < |Featured(ps)| ==> RatingOrZero(Featured(ps)[i]) >= RatingOrZero(Featured(ps)[j])
    ensures forall x, y :: x in Featured(ps) && y in multiset(ps) - multiset(Featured(ps)) ==> RatingOrZero(x) >= RatingOrZero(y)
  {
    var s := Sort(ps, ByRatingDesc);
    SortPermutes(ps, ByRatingDesc);
    SortedBestFirst(ps);
    assert |s| == |ps| by {
      assert |multiset(s)| == |multiset(ps)|;
    }
    var n := if |ps| < 5 then |ps| else 5;
    assert Featured(ps) == s[..n];
    PrefixOfSorted(ps, s, n);
  }

  /** A prefix of the sorted list, stated against the list it was sorted from. */
  lemma PrefixOfSorted(ps: seq<ListedProject>, s: seq<ListedProject>, n: nat)
    requires n <= |s| && multiset(s) == multiset(ps)
    requires AscendingBy(s, NegatedRating)
    ensures multiset(s[..n]) <= multiset(ps)
    ensures forall i, j :: 0 <= i < j < n ==> RatingOrZero(s[..n][i]) >= RatingOrZero(s[..n][j])
    ensures forall x, y :: x in s[..n] && y in multiset(ps) - multiset(s[..n]) ==> RatingOrZero(x) >= RatingOrZero(y)
  {
    PrefixDominates(s, n);
  }

  /** Sorting with the comparator of the featured list puts the best rated first. */
  lemma SortedBestFirst(ps: seq<ListedProject>)
    ensures AscendingBy(Sort(ps, ByRatingDesc), NegatedRating)
  {
    assert ComparesByKey(ByRatingDesc, NegatedRating);
    SortSorts(ps, ByRatingDesc, NegatedRating);
  }

  /** In a list ordered best rated first, a prefix is ordered and rates at least as high as the rest. */
  lemma PrefixDominates(s: seq<ListedProject>, n: nat)
    requires n <= |s|
    requires AscendingBy(s, NegatedRating)
    ensures multiset(s[..n]) <= multiset(s)
    ensures forall i, j :: 0 <= i < j < n ==> RatingOrZero(s[..n][i]) >= RatingOrZero(s[..n][j])
    ensures forall x, y :: x in s[..n] && y in multiset(s) - multiset(s[..n]) ==> RatingOrZero(x) >= RatingOrZero(y)
  {
    var r := s[..n];
    PrefixSplit(s, n);
    forall i, j | 0 <= i < j < n ensures RatingOrZero(r[i]) >= RatingOrZero(r[j]) {
      assert NegatedRating(s[i]) <= NegatedRating(s[j]);
    }
    forall x, y | x in r && y in multiset(s) - multiset(r) ensures RatingOrZero(x) >= RatingOrZero(y) {
      PrefixBeatsRest(s, n, x, y);
    }
  }

  lemma PrefixSplit(s: seq<ListedProject>, n: nat)
    requires n <= |s|
    ensures multiset(s) == multiset(s[..n]) + multiset(s[n..])
  {
    assert s == s[..n] + s[n..];
  }

  lemma PrefixBeatsRest(s: seq<ListedProject>, n: nat, x: ListedProject, y: ListedProject)
    requires n <= |s|
    requires AscendingBy(s, NegatedRating)
    requires x in s[..n] && y in multiset(s) - multiset(s[..n])
    ensures RatingOrZero(x) >= RatingOrZero(y)
  {
    PrefixSplit(s, n);
    assert y in multiset(s[n..]);
    var i :| 0 <= i < n && s[..n][i] == x;
    var j :| 0 <= j < |s[n..]| && s[n..][j] == y;
    assert s[i] == x && s[n + j] == y;
    assert NegatedRating(s[i]) <= NegatedRating(s[n + j]);
  }

  /** The sort works on a copy: the list the server sent is not reordered, and equal ratings keep list order. */
  lemma FeaturedKeepsTiesInOrder(ps: seq<ListedProject>)
    requires forall p, q :: p in ps && q in ps ==> RatingOrZero(p) == RatingOrZero(q)
    ensures Featured(ps) == Take(ps, 5)
  {
    SortTies(ps);
  }

  lemma {:induction false} SortTies(ps: seq<ListedProject>)
    requires forall p, q :: p in ps && q in ps ==> RatingOrZero(p) == RatingOrZero(q)
    ensures Sort(ps, ByRatingDesc) == ps
  {
    if ps != [] {
      SortTies(ps[1..]);
      SortPermutes(ps[1..], ByRatingDesc);
      var rest := Sort(ps[1..], ByRatingDesc);
      if rest != [] {
        assert rest[0] in multiset(ps[1..]);
        assert rest[0] in ps;
        assert ByRatingDesc(ps[0], rest[0]) == 0.0;
      }
      assert Sort(ps, ByRatingDesc) == [ps[0]] + rest;
      assert ps == [ps[0]] + ps[1..];
    }
  }

  /** `projects.map(p => p.id === id ? updated : p)` */
  function ReplaceById(ps: seq<ListedProject>, id: int, updated: ListedProject): (r: seq<ListedProject>)
    ensures |r| == |ps|
  {
    if ps == [] then [] else [if ps[0].id == id then updated else ps[0]] + ReplaceById(ps[1..], id, updated)
  }

  /** Elements with the id become the server's project; every other element stays where it was. */
  lemma {:induction false} ReplaceByIdReplaces(ps: seq<ListedProject>, id: int, updated: ListedProject)
    ensures forall k :: 0 <= k < |ps| && ps[k].id == id ==> ReplaceById(ps, id, updated)[k] == updated
    ensures forall k :: 0 <= k < |ps| && ps[k].id != id ==> ReplaceById(ps, id, updated)[k] == ps[k]
  {
    if ps != [] {
      ReplaceByIdReplaces(ps[1..], id, updated);
      var r := ReplaceById(ps, id, updated);
      assert forall k :: 1 <= k < |ps| ==> r[k] == ReplaceById(ps[1..], id, updated)[k - 1] && ps[k] == ps[1..][k - 1];
    }
  }

  /** After an update that keeps the id, looking the id up finds the new version; other ids are found as before. */
  lemma {:induction false} ReplaceThenFind(ps: seq<ListedProject>, id: int, updated: ListedProject, q: int)
    requires updated.id == id
    ensures (exists p :: p in ps && p.id == id) ==> FindById(ReplaceById(ps, id, updated), id) == Some(updated)
    ensures q != id ==> FindById(ReplaceById(ps, id, updated), q) == FindById(ps, q)
  {
    if ps != [] {
      ReplaceThenFind(ps[1..], id, updated, q);
      assert ReplaceById(ps, id, updated)[1..] == ReplaceById(ps[1..], id, updated);
      assert forall p :: p in ps ==> p == ps[0] || p in ps[1..];
    }
  }

  function OtherThan(id: int): ListedProject -> bool {
    (p: ListedProject) => p.id != id
  }

  /** `projects.filter(p => p.id !== id)` */
  function RemoveById(ps: seq<ListedProject>, id: int): seq<ListedProject> {
    Filter(ps, OtherThan(id))
  }

  /** Every element with the id goes, the rest stay in order, and the id is no longer found. */
  lemma RemoveByIdRemoves(ps: seq<ListedProject>, qs: seq<ListedProject>, id: int)
    ensures forall p :: p in RemoveById(ps, id) <==> p in ps && p.id != id
    ensures RemoveById(ps + qs, id) == RemoveById(ps, id) + RemoveById(qs, id)
    ensures FindById(RemoveById(ps, id), id).None?
  {
    FilterMembershipAll(ps, OtherThan(id));
    FilterAppend(ps, qs, OtherThan(id));
  }

  /** Other ids are found as before a delete. */
  lemma {:induction false} RemoveThenFind(ps: seq<ListedProject>, id: int, q: int)
    requires q != id
    ensures FindById(RemoveById(ps, id), q) == FindById(ps, q)
  {
    if ps != [] {
      RemoveThenFind(ps[1..], id, q);
    }
  }

  /** A project appended after a create is found by its id, unless an earlier element already has it. */
  lemma {:induction false} AppendThenFind(ps: seq<ListedProject>, p: ListedProject)
    requires forall q :: q in ps ==> q.id != p.id
    ensures FindById(ps + [p], p.id) == Some(p)
  {
    if ps != [] {
      assert (ps + [p])[1..] == ps[1..] + [p];
      AppendThenFind(ps[1..], p);
    }
  }

  const FetchFailed := "Failed to fetch data. Please try again later."
  const CreateFailed := "Failed to create project."
  const UpdateFailed := "Failed to update project."
  const DeleteFailed := "Failed to delete project."

  /** The provider's state. */
  class ProjectStore {
    var projects: seq<ListedProject>
    var featured: seq<ListedProject>
    var loading: bool
    var error: Option<string>

    constructor ()
      ensures projects == [] && featured == [] && loading && error.None?
    {
      projects := [];
      featured := [];
      loading := true;
      error := None;
    }

    /** The fetch on mount: the list and its featured selection, or the fixed error message. */
    method Load(fetched: Option<seq<ListedProject>>)
      modifies this
      ensures !loading
      ensures fetched.Some? ==> projects == fetched.value && featured == Featured(fetched.value) && error == old(error)
      ensures fetched.None? ==> projects == old(projects) && featured == old(featured) && error == Some(FetchFailed)
    {
      loading := true;
      if fetched.Some? {
        projects := fetched.value;
        featured := Featured(fetched.value);
      } else {
        error := Some(FetchFailed);
      }
      loading := false;
    }

    /** `createProject`: the server's project is appended; on failure the server's message or the fallback. */
    method CreateProject(reply: Reply<ListedProject>) returns (ok: bool)
      modifies this
      ensures ok <==> reply.Success?
      ensures ok ==> projects == old(projects) + [reply.value] && error == old(error)
      ensures !ok ==> projects == old(projects) && error == Some(OrElse(reply.message, CreateFailed))
      ensures featured == old(featured) && loading == old(loading)
    {
      if reply.Success? {
        projects := projects + [reply.value];
        return true;
      }
      error := Some(OrElse(reply.message, CreateFailed));
      return false;
    }

    /** `updateProject`: elements with the id are replaced by the server's project. */
    method UpdateProject(id: int, reply: Reply<ListedProject>) returns (ok: bool)
      modifies this
      ensures ok <==> reply.Success?
      ensures ok ==> projects == ReplaceById(old(projects), id, reply.value) && error == old(error)
      ensures !ok ==> projects == old(projects) && error == Some(OrElse(reply.message, UpdateFailed))
      ensures featured == old(featured) && loading == old(loading)
    {
      if reply.Success? {
        projects := ReplaceById(projects, id, reply.value);
        return true;
      }
      error := Some(OrElse(reply.message, UpdateFailed));
      return false;
    }

    /** `deleteProject`: elements with the id are dropped. */
    method DeleteProject(id: int, reply: Reply<()>) returns (ok: bool)
      modifies this
      ensures ok <==> reply.Success?
      ensures ok ==> projects == RemoveById(old(projects), id) && error == old(error)
      ensures !ok ==> projects == old(projects) && error == Some(OrElse(reply.message, DeleteFailed))
      ensures featured == old(featured) && loading == old(loading)
    {
      if reply.Success? {
        projects := RemoveById(projects, id);
        return true;
      }
      error := Some(OrElse(reply.message, DeleteFailed));
      return false;
    }
  }
}
