/**
 * The client's gamification state (`GamificationProvider`): points, the level they give, and the
 * badges and achievements that `checkAchievements` unlocks for an action. Every state update of
 * one call is applied in order, as React applies the queued updates before the next render.
 */
module Gamification {
  import opened Wrappers
  import opened Seqs

  /** One entry of a badge's `requirements`; its description is display text. */
  datatype Requirement = Requirement(kind: string, value: int)

  /** The fields of a badge the rules read; name, icon, colour and rarity are display data. */
  datatype Badge = Badge(id: string, category: string, points: int, requirements: seq<Requirement>)

  datatype Achievement = Achievement(id: string, points: int, progress: int, maxProgress: int, category: string)

  /** `Math.floor(points / 100) + 1`; Dafny's division by a positive number already rounds down. */
  function CalculateLevel(points: int): int {
    points / 100 + 1
  }

  function CalculateNextLevelPoints(level: int): int {
    level * 100
  }

  /** Level `l` covers exactly the totals from `(l - 1) * 100` up to, not including, `l * 100`. */
  lemma LevelBounds(points: int)
    ensures (CalculateLevel(points) - 1) * 100 <= points < CalculateNextLevelPoints(CalculateLevel(points))
    ensures points >= 0 ==> CalculateLevel(points) >= 1
  {
  }

  /** The level rises by exactly one with every further 100 points, and never falls as points grow. */
  lemma LevelSteps(points: int, more: int)
    requires more >= 0
    ensures CalculateLevel(points + 100) == CalculateLevel(points) + 1
    ensures CalculateLevel(points) <= CalculateLevel(points + more)
  {
    assert (points + 100) / 100 == points / 100 + 1;
  }

  /** `badge.requirements.find(req => req.type === action)` */
  function FirstRequirement(reqs: seq<Requirement>, action: string): (r: Option<Requirement>)
    ensures r.None? <==> forall q :: q in reqs ==> q.kind != action
    ensures r.Some? ==> exists k :: 0 <= k < |reqs| && reqs[k] == r.value && r.value.kind == action
                                    && forall j :: 0 <= j < k ==> reqs[j].kind != action
  {
    if reqs == [] then None
    else if reqs[0].kind == action then
      assert reqs[0] == reqs[0];
      Some(reqs[0])
    else
      var r := FirstRequirement(reqs[1..], action);
      if r.Some? then
        var k :| 0 <= k < |reqs[1..]| && reqs[1..][k] == r.value && r.value.kind == action
                 && forall j :: 0 <= j < k ==> reqs[1..][j].kind != action;
        assert reqs[k + 1] == r.value;
        assert forall j :: 0 <= j < k + 1 ==> reqs[j].kind != action by {
          forall j | 0 <= j < k + 1 ensures reqs[j].kind != action {
            if j > 0 { assert reqs[j] == reqs[1..][j - 1]; }
          }
        }
        r
      else
        assert forall q :: q in reqs ==> q == reqs[0] || q in reqs[1..];
        r
  }

  /** A badge not yet unlocked whose first requirement for `action` is met by `value`. */
  predicate Earns(b: Badge, unlocked: seq<string>, action: string, value: int) {
    b.id !in unlocked
    && FirstRequirement(b.requirements, action).Some?
    && value >= FirstRequirement(b.requirements, action).value.value
  }

  function EarnedBy(unlocked: seq<string>, action: string, value: int): Badge -> bool {
    (b: Badge) => Earns(b, unlocked, action, value)
  }

  /** The badges one call unlocks, in list order. */
  function Earned(badges: seq<Badge>, unlocked: seq<string>, action: string, value: int): seq<Badge> {
    Filter(badges, EarnedBy(unlocked, action, value))
  }

  /** A badge is unlocked by a call exactly when it is listed, still locked, and its requirement is met. */
  lemma EarnedIff(badges: seq<Badge>, unlocked: seq<string>, action: string, value: int, b: Badge)
    ensures b in Earned(badges, unlocked, action, value) <==>
      b in badges && b.id !in unlocked
      && (exists q :: q in b.requirements && q.kind == action)
      && value >= FirstRequirement(b.requirements, action).value.value
  {
    FilterMembership(badges, EarnedBy(unlocked, action, value), b);
  }

  /** The two (category, action) pairs that advance an achievement. */
  predicate Advances(category: string, action: string) {
    (category == "project" && action == "projects_created") || (category == "social" && action == "help_provided")
  }

  function NewProgress(a: Achievement, action: string): int {
    if Advances(a.category, action) then
      (if a.progress + 1 < a.maxProgress then a.progress + 1 else a.maxProgress)
    else a.progress
  }

  /** The element the `map` callback returns. */
  function Advanced(a: Achievement, unlocked: seq<string>, action: string): Achievement {
    if a.id in unlocked then a else a.(progress := NewProgress(a, action))
  }

  /** `prev.map(…)`: every achievement advanced, in order. */
  function AdvancedAll(achievements: seq<Achievement>, unlocked: seq<string>, action: string): (r: seq<Achievement>)
    ensures |r| == |achievements|
    ensures forall k :: 0 <= k < |r| ==> r[k] == Advanced(achievements[k], unlocked, action)
  {
    if achievements == [] then []
    else
      var init := achievements[..|achievements| - 1];
      var r := AdvancedAll(init, unlocked, action) + [Advanced(achievements[|achievements| - 1], unlocked, action)];
      assert forall k :: 0 <= k < |init| ==> init[k] == achievements[k];
      r
  }

  /** Mapping one more achievement appends its advanced state. */
  lemma AdvancedAllNext(xs: seq<Achievement>, i: nat, unlocked: seq<string>, action: string)
    requires i < |xs|
    ensures AdvancedAll(xs[..i + 1], unlocked, action) == AdvancedAll(xs[..i], unlocked, action) + [Advanced(xs[i], unlocked, action)]
  {
    assert xs[..i + 1][..i] == xs[..i];
  }

  /** A locked achievement whose new progress reaches its maximum. */
  predicate Completes(a: Achievement, unlocked: seq<string>, action: string) {
    a.id !in unlocked && NewProgress(a, action) >= a.maxProgress
  }

  function CompletedBy(unlocked: seq<string>, action: string): Achievement -> bool {
    (a: Achievement) => Completes(a, unlocked, action)
  }

  function Completed(achievements: seq<Achievement>, unlocked: seq<string>, action: string): seq<Achievement> {
    Filter(achievements, CompletedBy(unlocked, action))
  }

  /**
   * Progress moves by one, capped at the maximum, only for the two advancing pairs and only while
   * the achievement is locked; everything else about an achievement stays.
   */
  lemma AdvancedProgress(a: Achievement, unlocked: seq<string>, action: string)
    requires a.progress <= a.maxProgress
    ensures var n := Advanced(a, unlocked, action);
      n == a.(progress := n.progress)
      && (a.id in unlocked || !Advances(a.category, action) ==> n == a)
      && (a.id !in unlocked && Advances(a.category, action) ==>
            n.progress == (if a.progress < a.maxProgress then a.progress + 1 else a.maxProgress))
      && n.progress <= a.maxProgress
  {
  }

  function BadgeId(b: Badge): string { b.id }
  function BadgeReward(b: Badge): int { b.points }
  function AchievementId(a: Achievement): string { a.id }
  function AchievementReward(a: Achievement): int { a.points }

  /** The ids of a list of badges or achievements, in order. */
  function Ids<T>(xs: seq<T>, id: T -> string): (ids: seq<string>)
    ensures |ids| == |xs|
  {
    if xs == [] then [] else Ids(xs[..|xs| - 1], id) + [id(xs[|xs| - 1])]
  }

  /** The points of a list of badges or achievements, summed. */
  function Points<T>(xs: seq<T>, points: T -> int): int {
    if xs == [] then 0 else Points(xs[..|xs| - 1], points) + points(xs[|xs| - 1])
  }

  lemma FilterStep<T>(xs: seq<T>, i: nat, p: T -> bool)
    requires i < |xs|
    ensures var step := if p(xs[i]) then [xs[i]] else [];
      Filter(xs[..i + 1], p) == Filter(xs[..i], p) + step
  {
    assert xs[..i + 1] == xs[..i] + [xs[i]];
    FilterAppend(xs[..i], [xs[i]], p);
    assert [xs[i]][1..] == [];
  }

  lemma TallyAppend<T>(xs: seq<T>, x: T, id: T -> string, points: T -> int)
    ensures Ids(xs + [x], id) == Ids(xs, id) + [id(x)]
    ensures Points(xs + [x], points) == Points(xs, points) + points(x)
  {
    assert (xs + [x])[..|xs|] == xs;
  }

  /**
   * One step of the badge or achievement loop carries its bookkeeping over to the next prefix:
   * the ids appended and the points added so far are those of the selected elements.
   */
  lemma TallyNext<T>(xs: seq<T>, i: nat, p: T -> bool, id: T -> string, points: T -> int,
                     unlocked: seq<string>, before: seq<string>, after: seq<string>,
                     points0: int, pointsBefore: int, pointsAfter: int)
    requires i < |xs|
    requires before == unlocked + Ids(Filter(xs[..i], p), id)
    requires pointsBefore == points0 + Points(Filter(xs[..i], p), points)
    requires after == before + (if p(xs[i]) then [id(xs[i])] else [])
    requires pointsAfter == pointsBefore + (if p(xs[i]) then points(xs[i]) else 0)
    ensures after == unlocked + Ids(Filter(xs[..i + 1], p), id)
    ensures pointsAfter == points0 + Points(Filter(xs[..i + 1], p), points)
  {
    var done := Filter(xs[..i], p);
    FilterStep(xs, i, p);
    if p(xs[i]) {
      assert Filter(xs[..i + 1], p) == done + [xs[i]];
      TallyAppend(done, xs[i], id, points);
      assert after == (unlocked + Ids(done, id)) + [id(xs[i])];
      assert after == unlocked + (Ids(done, id) + [id(xs[i])]);
    } else {
      assert Filter(xs[..i + 1], p) == done;
    }
  }

  class GamificationState {
    var badges: seq<Badge>
    var achievements: seq<Achievement>
    var userPoints: int
    var userLevel: int
    var nextLevelPoints: int
    var unlockedBadges: seq<string>
    var unlockedAchievements: seq<string>

    /** Level and next-level threshold always follow the points. */
    ghost predicate Valid()
      reads this
    {
      userLevel == CalculateLevel(userPoints) && nextLevelPoints == CalculateNextLevelPoints(userLevel)
    }

    /** The state after the mount effect has installed the four badges and three achievements. */
    constructor ()
      ensures Valid()
      ensures userPoints == 0 && userLevel == 1 && nextLevelPoints == 100
      ensures unlockedBadges == [] && unlockedAchievements == []
      ensures badges == InitialBadges() && achievements == InitialAchievements()
    {
      badges := InitialBadges();
      achievements := InitialAchievements();
      userPoints := 0;
      userLevel := 1;
      nextLevelPoints := 100;
      unlockedBadges := [];
      unlockedAchievements := [];
    }

    /** `addPoints`: the total grows by `points`; level and threshold are recomputed from it. */
    method AddPoints(points: int)
      modifies this
      ensures userPoints == old(userPoints) + points
      ensures userLevel == CalculateLevel(userPoints) && nextLevelPoints == CalculateNextLevelPoints(userLevel)
      ensures badges == old(badges) && achievements == old(achievements)
      ensures unlockedBadges == old(unlockedBadges) && unlockedAchievements == old(unlockedAchievements)
    {
      var newPoints := userPoints + points;
      var newLevel := CalculateLevel(newPoints);
      userLevel := newLevel;
      nextLevelPoints := CalculateNextLevelPoints(newLevel);
      userPoints := newPoints;
    }

    /** One badge of the `forEach`: skipped when unlocked, otherwise unlocked if its requirement is met. */
    method UnlockBadge(badge: Badge, unlocked: seq<string>, action: string, value: int) returns (earns: bool)
      requires Valid()
      modifies this
      ensures Valid()
      ensures earns == Earns(badge, unlocked, action, value)
      ensures unlockedBadges == old(unlockedBadges) + (if earns then [badge.id] else [])
      ensures userPoints == old(userPoints) + (if earns then badge.points else 0)
      ensures badges == old(badges) && achievements == old(achievements) && unlockedAchievements == old(unlockedAchievements)
    {
      earns := false;
      if badge.id in unlocked {
        return;
      }
      var requirement := FirstRequirement(badge.requirements, action);
      if requirement.Some? && value >= requirement.value.value {
        earns := true;
        unlockedBadges := unlockedBadges + [badge.id];
        AddPoints(badge.points);
      }
    }

    /** The `badges.forEach` of `checkAchievements`; it tests against the unlocked list as the call found it. */
    method UnlockBadges(action: string, value: int)
      requires Valid()
      modifies this
      ensures Valid()
      ensures unlockedBadges == old(unlockedBadges) + Ids(Earned(old(badges), old(unlockedBadges), action, value), BadgeId)
      ensures userPoints == old(userPoints) + Points(Earned(old(badges), old(unlockedBadges), action, value), BadgeReward)
      ensures badges == old(badges) && achievements == old(achievements) && unlockedAchievements == old(unlockedAchievements)
    {
      var unlocked := unlockedBadges;
      ghost var points0 := userPoints;
      ghost var p := EarnedBy(unlocked, action, value);
      var i := 0;
      while i < |badges|
        invariant 0 <= i <= |badges|
        invariant Valid()
        invariant badges == old(badges) && achievements == old(achievements) && unlockedAchievements == old(unlockedAchievements)
        invariant unlockedBadges == unlocked + Ids(Filter(badges[..i], p), BadgeId)
        invariant userPoints == points0 + Points(Filter(badges[..i], p), BadgeReward)
      {
        ghost var before, pointsBefore := unlockedBadges, userPoints;
        var earns := UnlockBadge(badges[i], unlocked, action, value);
        assert earns == p(badges[i]);
        TallyNext(badges, i, p, BadgeId, BadgeReward, unlocked, before, unlockedBadges, points0, pointsBefore, userPoints);
        i := i + 1;
      }
      assert badges[..i] == badges;
    }

    /** One element of the `map`: unchanged when unlocked, otherwise advanced, and unlocked on reaching the maximum. */
    method AdvanceAchievement(achievement: Achievement, unlocked: seq<string>, action: string) returns (next: Achievement, completes: bool)
      requires Valid()
      modifies this
      ensures Valid()
      ensures next == Advanced(achievement, unlocked, action)
      ensures completes == Completes(achievement, unlocked, action)
      ensures unlockedAchievements == old(unlockedAchievements) + (if completes then [achievement.id] else [])
      ensures userPoints == old(userPoints) + (if completes then achievement.points else 0)
      ensures badges == old(badges) && achievements == old(achievements) && unlockedBadges == old(unlockedBadges)
    {
      completes := false;
      if achievement.id in unlocked {
        return achievement, false;
      }
      var newProgress := achievement.progress;
      if achievement.category == "project" && action == "projects_created" {
        newProgress := if achievement.progress + 1 < achievement.maxProgress then achievement.progress + 1 else achievement.maxProgress;
      } else if achievement.category == "social" && action == "help_provided" {
        newProgress := if achievement.progress + 1 < achievement.maxProgress then achievement.progress + 1 else achievement.maxProgress;
      }
      if newProgress >= achievement.maxProgress {
        completes := true;
        unlockedAchievements := unlockedAchievements + [achievement.id];
        AddPoints(achievement.points);
      }
      next := achievement.(progress := newProgress);
    }

    /**
     * The `setAchievements(prev => prev.map(…))` of `checkAchievements`: every achievement is
     * advanced, and those that reach their maximum are unlocked and pay their points.
     */
    method AdvanceAchievements(action: string)
      requires Valid()
      modifies this
      ensures Valid()
      ensures achievements == AdvancedAll(old(achievements), old(unlockedAchievements), action)
      ensures unlockedAchievements == old(unlockedAchievements) + Ids(Completed(old(achievements), old(unlockedAchievements), action), AchievementId)
      ensures userPoints == old(userPoints) + Points(Completed(old(achievements), old(unlockedAchievements), action), AchievementReward)
      ensures badges == old(badges) && unlockedBadges == old(unlockedBadges)
    {
      var unlocked := unlockedAchievements;
      var prev := achievements;
      ghost var points0 := userPoints;
      ghost var p := CompletedBy(unlocked, action);
      var mapped: seq<Achievement> := [];
      var i := 0;
      while i < |prev|
        invariant 0 <= i <= |prev|
        invariant Valid()
        invariant badges == old(badges) && unlockedBadges == old(unlockedBadges)
        invariant mapped == AdvancedAll(prev[..i], unlocked, action)
        invariant unlockedAchievements == unlocked + Ids(Filter(prev[..i], p), AchievementId)
        invariant userPoints == points0 + Points(Filter(prev[..i], p), AchievementReward)
      {
        ghost var before, pointsBefore := unlockedAchievements, userPoints;
        var next, completes := AdvanceAchievement(prev[i], unlocked, action);
        assert completes == p(prev[i]);
        assert AchievementId(prev[i]) == prev[i].id && AchievementReward(prev[i]) == prev[i].points;
        assert unlockedAchievements == before + (if p(prev[i]) then [AchievementId(prev[i])] else []);
        TallyNext(prev, i, p, AchievementId, AchievementReward, unlocked, before, unlockedAchievements, points0, pointsBefore, userPoints);
        AdvancedAllNext(prev, i, unlocked, action);
        mapped := mapped + [next];
        i := i + 1;
      }
      assert prev[..i] == prev;
      achievements := mapped;
    }

    /** `checkAchievements(action, value)`: the badge pass, then the achievement pass. */
    method CheckAchievements(action: string, value: int)
      requires Valid()
      modifies this
      ensures Valid()
      ensures unlockedBadges == old(unlockedBadges) + Ids(Earned(old(badges), old(unlockedBadges), action, value), BadgeId)
      ensures achievements == AdvancedAll(old(achievements), old(unlockedAchievements), action)
      ensures unlockedAchievements == old(unlockedAchievements) + Ids(Completed(old(achievements), old(unlockedAchievements), action), AchievementId)
      ensures userPoints == old(userPoints)
        + Points(Earned(old(badges), old(unlockedBadges), action, value), BadgeReward)
        + Points(Completed(old(achievements), old(unlockedAchievements), action), AchievementReward)
      ensures badges == old(badges)
    {
      UnlockBadges(action, value);
      AdvanceAchievements(action);
    }
  }

  /** The totals never overtake the next threshold: points stay below `nextLevelPoints`. */
  lemma BelowNextLevel(points: int, level: int, next: int)
    requires level == CalculateLevel(points) && next == CalculateNextLevelPoints(level)
    ensures points < next
    ensures points >= 0 ==> level >= 1
  {
    LevelBounds(points);
  }

  function InitialBadges(): seq<Badge> {
    [ Badge("first-project", "project", 10, [Requirement("projects_created", 1)]),
      Badge("social-butterfly", "social", 25, [Requirement("likes_received", 10)]),
      Badge("sdg-champion", "achievement", 100, [Requirement("sdgs_contributed", 17)]),
      Badge("feedback-master", "social", 50, [Requirement("feedback_provided", 50)]) ]
  }

  function InitialAchievements(): seq<Achievement> {
    [ Achievement("project-milestone-1", 50, 0, 5, "project"),
      Achievement("community-helper", 75, 0, 20, "social"),
      Achievement("sustainability-expert", 100, 0, 10, "achievement") ]
  }

  /** Creating the first project unlocks "First Steps" and moves "Project Pioneer" to 1 of 5. */
  lemma FirstProjectExample()
    ensures Earned(InitialBadges(), [], "projects_created", 1) == [InitialBadges()[0]]
    ensures Advanced(InitialAchievements()[0], [], "projects_created").progress == 1
    ensures Completed(InitialAchievements(), [], "projects_created") == []
  {
    FirstProjectBadges();
    FirstProjectAchievements();
  }

  lemma FirstProjectBadges()
    ensures Earned(InitialBadges(), [], "projects_created", 1) == [InitialBadges()[0]]
  {
    var bs := InitialBadges();
    var p := EarnedBy([], "projects_created", 1);
    assert p(bs[0]) && !p(bs[1]) && !p(bs[2]) && !p(bs[3]);
    assert bs[1..][1..][1..][1..] == [];
  }

  lemma FirstProjectAchievements()
    ensures Advanced(InitialAchievements()[0], [], "projects_created").progress == 1
    ensures Completed(InitialAchievements(), [], "projects_created") == []
  {
    var xs := InitialAchievements();
    var q := CompletedBy([], "projects_created");
    assert !q(xs[0]) && !q(xs[1]) && !q(xs[2]);
    assert xs[1..][1..][1..] == [];
  }
}
