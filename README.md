# SDG project showcase: a verified model of its data engine and client state

The repository is a showcase for student projects on the UN Sustainable Development Goals
(SDGs). An Express server keeps users, teams, team members, the 17 goals, projects, their SDG
tags, their media and the feedback on them in SQLite. A React client holds several pieces of
local state: the signed-in user's points and badges, notifications, the project list and the
search filters. Two servers exist with slightly different schemas: `code/server` and the simpler
`frontend/server`.

This Dafny project models:

- **The store.**
  - `Schema` defines the rows, and `Schema.Exec` gives the effect of each SQL statement the
    routes issue, including UNIQUE, NOT NULL, CHECK and (when enabled) foreign-key behaviour.
  - `Store.Database` is a class holding the tables, with `Run` (`db.run`) and
    `Begin`/`Commit`/`Rollback`.
  - `Schema.ExecPreservesConsistent` proves that every successful statement keeps SQLite's
    constraints true.
- **Routes**, each a method over the database returning a `Response`, stating which outcome
  happens when and exactly what the tables become:
  - project create, update and delete (`ProjectRoutes`);
  - the transactional student submission and the member-only student update and delete
    (`StudentRoutes`);
  - the three feedback routes, and the faculty comment route with a project lookup (`FeedbackRoutes`);
  - registration and login (`Accounts`);
  - the admin seed and server restart (`Startup`);
  - feedback visibility and the average rating (`FeedbackRules`);
  - the media-type rule (`Media`);
  - permissions (`Authorization`).
- **Client utilities** (`AuthUtils`):
  - the password validator: a method that builds the error list step by step, proved equal to
    the list of broken rules in a fixed order;
  - the token-expiry rule;
  - the hex encoding of the secure token, with its decoder and the round trip.
- **Client state:**
  - `Gamification.GamificationState`: points, levels, badge unlocking and achievement progress;
  - `Notifications.NotificationCenter`: the notification list and its unread count;
  - `ProjectCatalog.ProjectStore`: the project list, the top-five featured list and the list
    updates after create, update and delete;
  - `AdvancedSearch`: filter toggles and the filter-and-sort pipeline of the search.

**Foreign keys are off as written.** Neither server turns on SQLite's foreign keys
(`PRAGMA foreign_keys` is never issued), so SQLite enforces no `REFERENCES` clause and no
`ON DELETE CASCADE`. Every store operation is therefore modelled under a `Config` that carries
`foreignKeys`, and every route is verified for both settings. The comments in the delete
handlers expect cascades. With foreign keys off they do not happen: see "## Findings".

**Where the code and the documentation disagree, the model follows the code.**

- `POST /api/projects` and both `PUT` routes run without a transaction. A failing SDG insert
  leaves the rows written before it in place.
- `POST /api/feedback` checks the role stored in the users table, not the role in the token.
- The code schema's users CHECK admits only viewer, student and faculty. The admin seed of that
  server therefore fails its insert (`Startup.SeedAdmin`).
- `DROP TABLE IF EXISTS feedback` runs at every start of `code/server`, so all feedback is lost
  on restart (`Store.Database.Reopen`, `Startup.RestartForgetsFeedback`).

## Model

| member | source | states |
|---|---|---|
| Schema.AllowedRoles | code/server/index.js:68-80 | The users role CHECK admits viewer, student and faculty in `code/server`. It admits five roles in `frontend/server`. |
| Schema.ProjectById | code/server/index.js:409-420 | `WHERE id = ?` finds a row exactly when one has that id. The row found has that id. |
| Schema.UpdateRows | code/server/index.js:569-582 | `UPDATE projects … WHERE id = ?` keeps the length. It rewrites only the rows with that id. |
| Schema.InsertUserPreserves | code/server/index.js:68-80 | A successful user insert keeps the store consistent: keys unique, CHECKs hold, references hold. |
| Schema.DeleteUserPreserves | frontend/server/index.js:56-118 | A successful user delete keeps the store consistent. In the frontend schema it cascades to memberships and feedback. |
| Schema.InsertTeamPreserves | code/server/index.js:82-88 | A team insert keeps the store consistent. |
| Schema.InsertMemberPreserves | code/server/index.js:90-99 | A member insert that succeeds keeps the store consistent. |
| Schema.InsertProjectPreserves | code/server/index.js:110-121 | A project insert that succeeds keeps the store consistent. |
| Schema.UpdateRowsKeepsIds | code/server/index.js:569-582 | An UPDATE keeps every row's id and team, and the rows stay in place. |
| Schema.UpdateProjectPreserves | code/server/index.js:569-582 | A project UPDATE keeps the store consistent. |
| Schema.DeleteProjectPreserves | code/server/index.js:683 | A project delete that succeeds keeps the store consistent, with or without foreign keys. |
| Schema.InsertTagPreserves | code/server/index.js:123-131 | A tag insert that succeeds keeps the store consistent, including `UNIQUE(projectId, sdgId)`. |
| Schema.DeleteTagsPreserves | code/server/index.js:586 | Deleting a project's tags keeps the store consistent. |
| Schema.InsertFeedbackPreserves | code/server/index.js:143-153 | A feedback insert that succeeds keeps the store consistent, including the rating CHECK. |
| Schema.ExecPreservesConsistent | code/server/index.js:68-153 | Every statement that succeeds leaves the store consistent. |
| Store.Database.Run | code/server/index.js:490-514 | `db.run`: the new tables are what `Exec` gives. A failing statement changes nothing. |
| Store.Database.Begin | code/server/index.js:868 | `BEGIN` records the tables. It fails if a transaction is already open. |
| Store.Database.Rollback | code/server/index.js:967 | `ROLLBACK` returns every table, counters included, to its state at `BEGIN`. |
| Store.Database.Commit | code/server/index.js:930 | `COMMIT` keeps the current tables and closes the transaction. |
| Store.Database.Reopen | code/server/index.js:142-153 | A restart of `code/server` empties feedback and resets its counter. The other server's tables persist. |
| Media.MediaTypeOf | code/server/index.js:517-522 | "image" exactly when the URL ends, in any letter case, with one of the four extensions. Every other URL is "video". |
| Media.MatchesIffEndsWith | code/server/index.js:519 | One alternative of the regular expression matches exactly when the lower-cased URL ends with that extension. |
| Media.CaseInsensitive | code/server/index.js:603 | URLs differing only in letter case get the same type. |
| Media.LowerKeepsType | code/server/index.js:921 | Lower-casing a URL never changes its type. |
| Media.ImageSuffix | code/server/index.js:519 | Any prefix followed by one of the four extensions is an image. |
| Media.InnerExtensionExample | code/server/index.js:519 | The extension must end the URL: "a.gif.mov" is a video. |
| Media.UpperCaseExample | frontend/server/index.js:457 | "PHOTO.JPG" is an image. |
| Associations.InsertTags | code/server/index.js:500-510 | The SDG loop succeeds exactly when the list is insertable. On failure it stops at the first failing id: the ids before it were insertable, the one it stopped at was not, and the rows before it stay. |
| Associations.FirstRejectedUnique | code/server/index.js:500-510 | The loop can stop at only one position: the first rejected id is unique. |
| Associations.InsertMediaRows | code/server/index.js:513-524 | The media loop appends one typed row per URL. It fails only on the project reference. |
| Associations.FreshProjectTags | code/server/index.js:130 | For a project with no tags, only a repeated id or (with foreign keys) an unknown goal fails. |
| Authorization.MembershipRow | code/server/index.js:556-566 | The membership join finds a row exactly when the caller is in the project's team. |
| Authorization.HasPermission | code/server/index.js:553-566 | Allowed exactly when the caller is admin, faculty or a member of the project's team. |
| Routing.ReplaceTags | code/server/index.js:584-596 | Delete-then-insert leaves the project's tags equal to the supplied list. Other projects keep theirs. |
| Routing.ReplaceMedia | code/server/index.js:597-607 | The same for media rows. |
| Routing.AppendTags | code/server/index.js:500-510 | A new project gets exactly the supplied tags. Others keep theirs. |
| ProjectRoutes.Merged | code/server/index.js:570-582 | Each scalar field is the supplied value when it is truthy, otherwise the stored value. |
| ProjectRoutes.EmptyUpdateKeepsFields | code/server/index.js:570-582 | An empty body keeps every column. |
| ProjectRoutes.UpdateReplacesAssociations | code/server/index.js:584-607 | After an update, supplied lists are the project's exact associations. Omitted lists are untouched. Other projects are untouched. |
| ProjectRoutes.CreateProject | code/server/index.js:479-534 | Forbidden exactly for roles outside the four allowed ones. Otherwise: the new row, its tags and media, or the error of the first failing statement. After a failing SDG insert the project row and exactly the tags before the first rejected id stay, and no media is written. |
| ProjectRoutes.UpdateProject | code/server/index.js:537-648 | Unknown id gives NotFound before any permission test. Not permitted gives Forbidden and no write. Otherwise the merge, the list replacement and the read-back. |
| ProjectRoutes.DeleteProject | code/server/index.js:651-690 | NotFound, then Forbidden, each without writes. Then one delete, which fails only when foreign keys block it. |
| ProjectRoutes.GetProject | code/server/index.js:409-476 | NotFound exactly for an unknown id. ServerError when the team is missing. Otherwise the row, the average over all feedback and the team. |
| ProjectRoutes.GetProjectLists | frontend/server/index.js:347-414 | The page lists the team members joined to users, and only public feedback joined to authors, newest first. |
| StudentRoutes.SubmittedAddsExactly | code/server/index.js:866-930 | A submission adds one team, one leader row, one project in that team and exactly the supplied tags and media. Nothing else changes. |
| StudentRoutes.SubmitStudentProject | code/server/index.js:833-977 | Forbidden exactly for non-students, Invalid exactly for a missing required field, both before any write. Any failure rolls every table back. Success writes exactly the submission. |
| StudentRoutes.StudentProjectJoin | code/server/index.js:985-995 | The three-way join finds the project exactly when it exists, its team exists and the caller is a member. |
| StudentRoutes.OutsiderSeesNotFound | code/server/index.js:1073-1083 | An existing project of another team gives the same not-found answer as a missing one. |
| StudentRoutes.UpdateStudentProject | code/server/index.js:979-1066 | NotFound without writes unless the caller is a member. Otherwise the same writes as the project update, not in a transaction. |
| StudentRoutes.DeleteStudentProject | code/server/index.js:1068-1093 | NotFound without writes unless the caller is a member. Otherwise one project delete. |
| FeedbackRules.AverageRating | code/server/index.js:374-379 | The average is absent exactly when no row of the project carries a rating. |
| FeedbackRules.AverageIgnoresPrivacy | code/server/index.js:409-420 | The average does not change when rows are made private or public. |
| FeedbackRules.AverageWithinScale | code/server/index.js:148 | Under the rating CHECK, the average lies in 1..5. |
| FeedbackRules.PrivateRatingCounts | frontend/server/index.js:349-358 | A private 4 and a public 2 average 3, though only the 2 is listed. |
| FeedbackRules.NewestFirstOrders | code/server/index.js:1329-1355 | `ORDER BY createdAt DESC` is a permutation in non-increasing `createdAt`. |
| FeedbackRules.ProjectFeedbackRows | code/server/index.js:1321-1363 | Faculty and admin get every joined row of the project. Others get only public rows. Both lists are newest first. |
| FeedbackRules.PrivilegedSeeEverything | code/server/index.js:1329-1340 | With references holding, faculty and admin see every feedback row of the project. |
| FeedbackRules.PublicRows | frontend/server/index.js:391-399 | The project page keeps exactly the rows of the project that are not private. |
| FeedbackRoutes.SubmitFeedback | code/server/index.js:1365-1423 | Forbidden unless the stored role is faculty. NotFound for an unknown project. Otherwise exactly one row, or the constraint's error and no write. |
| FeedbackRoutes.AddProjectFeedback | frontend/server/index.js:475-500 | NotFound and no write for an unknown project. Otherwise one row with the caller as author. No role check. |
| FeedbackRoutes.FeedbackRow | code/server/index.js:1395 | The row has the next id, the caller as author and the supplied privacy flag. |
| FeedbackRoutes.AddFacultyComment | code/server/index.js:1095-1116 | Forbidden exactly when the token's role is not faculty. Otherwise one comment row with no rating and not private, for any project id, or the constraint's error and no write. The reference bound survives exactly when no comment went in for a project id not yet handed out. |
| FeedbackRoutes.CommentRow | code/server/index.js:1105-1108 | The comment row has the next id, the caller as author, the comment as content, no rating and the `isPrivate` default. |
| FeedbackRoutes.AddFacultyCommentChecked | code/server/index.js:1287-1291 | With the project looked up first, as the later handler for the same path does: NotFound and no write for an unknown project, and the state every route starts from is kept. |
| FeedbackRoutes.StrayCommentJoinsNextProject | code/server/index.js:1105-1108 | As written, a comment on project 1 before any project exists goes in, and the next project created, which gets id 1, lists it as its public feedback. |
| Accounts.Register | frontend/server/index.js:196-241 | UserExists exactly when the email or username is taken. InvalidRole exactly when the role is not one of five. Otherwise one user row. Nothing else changes. |
| Accounts.ValidRolesMatchSchema | frontend/server/index.js:210-214 | The handler's role list equals the roles the frontend schema admits. |
| Accounts.UserByLogin | frontend/server/index.js:200-208 | The lookup finds a user exactly when one has the email or the username. |
| Accounts.Login | frontend/server/index.js:243-276 | Logged in exactly when the email is found and the password matches the stored hash. |
| Accounts.UnknownEmailLikeWrongPassword | frontend/server/index.js:248-259 | An unknown email and a wrong password yield the same outcome. |
| Accounts.LoginFindsTheUser | frontend/server/index.js:243-259 | With unique emails, the right password logs in that user. |
| Startup.SeedAdmin | code/server/index.js:192-203 | The admin user is created once. On `code/server` the insert breaks the role CHECK and nothing is written. |
| Startup.SeedSucceedsWhenAdminAdmitted | frontend/server/index.js:156-167 | Where the users table admits `admin`, as the frontend schema does, the seed on a fresh store goes in, and the admin is the first user. |
| Startup.RestartForgetsFeedback | code/server/index.js:142-143 | After a restart every feedback list is empty and every average absent. |
| Cascade.OrphansSurviveDelete | code/server/index.js:682-683 | As written, deleting a project with a tag and a media row leaves both rows behind, pointing at nothing. |
| Cascade.CascadeLeavesNoOrphans | frontend/server/index.js:89-118 | With foreign keys on: after a delete no tag, media or feedback row of the project remains, and other projects keep theirs. |
| Cascade.FeedbackBlocksCodeDelete | code/server/index.js:143-153 | With foreign keys on, `code/server` refuses to delete a project that has feedback. `frontend/server` cascades. |
| AuthUtils.ValidatePassword | code/src/utils/auth.ts:48-75 | The errors are the messages of the broken rules, in rule order. `isValid` holds exactly when there are none. |
| AuthUtils.CheckRule | code/src/utils/auth.ts:51-69 | One `if … push`: a rule's message is appended exactly when the rule is broken. |
| AuthUtils.ReportedIffBroken | code/src/utils/auth.ts:55-69 | A rule's message is reported exactly when the password breaks that rule. |
| AuthUtils.ReportOrdered | code/src/utils/auth.ts:51-69 | There are at most five errors, in the order length, upper, lower, digit, special. |
| AuthUtils.ValidIffAllRules | code/src/utils/auth.ts:71-74 | Valid exactly when every rule holds. |
| AuthUtils.ShortPasswordFirstMessage | code/src/utils/auth.ts:51-53 | A password under 8 characters gets the length error first. |
| AuthUtils.EveryClassIsValid | code/src/utils/auth.ts:48-75 | Eight or more characters with one of each class is valid. |
| AuthUtils.MessagesDistinct | code/src/utils/auth.ts:52-68 | The five messages differ, so each error names one rule. |
| AuthUtils.ExamplePassword | code/src/utils/auth.ts:55-65 | "abcdefg!" gets the uppercase and digit errors, in that order. |
| AuthUtils.IsTokenExpired | code/src/utils/auth.ts:11-18 | An undecodable token is expired. A decoded token without `exp` is not. |
| AuthUtils.ExpiredInSeconds | code/src/utils/auth.ts:14 | Expired exactly when `now >= exp * 1000`. |
| AuthUtils.ExpiryPermanent | code/src/utils/auth.ts:11-18 | A token once expired stays expired. |
| AuthUtils.HexByteDigits | code/src/utils/auth.ts:80 | `toString(16).padStart(2, '0')` is the high and then the low lowercase hex digit. |
| AuthUtils.HexRoundTrip | code/src/utils/auth.ts:80 | Decoding the hex string gives back the bytes. |
| AuthUtils.HexAlphabet | code/src/utils/auth.ts:80 | The string uses only `0-9a-f`. |
| AuthUtils.SecureToken | code/src/utils/auth.ts:77-81 | 32 bytes become 64 hex characters that decode to the same bytes. |
| Gamification.LevelBounds | code/src/contexts/GamificationContext.tsx:172-178 | The points lie in the level's band of 100. The level is at least 1 for non-negative points. |
| Gamification.LevelSteps | code/src/contexts/GamificationContext.tsx:172-174 | The level rises by one every 100 points and never falls as points grow. |
| Gamification.BelowNextLevel | code/src/contexts/GamificationContext.tsx:180-188 | After `addPoints` the points are below `nextLevelPoints`. |
| Gamification.FirstRequirement | code/src/contexts/GamificationContext.tsx:195 | `find` returns the first requirement of that type, or none when no requirement has it. |
| Gamification.EarnedIff | code/src/contexts/GamificationContext.tsx:192-200 | A badge is earned exactly when it is not unlocked yet, and it has a requirement for the action whose value the given value reaches. |
| Gamification.AdvancedProgress | code/src/contexts/GamificationContext.tsx:203-213 | Progress rises by one, capped at the maximum, only for the two category/action pairs. Otherwise, or once unlocked, it is unchanged. |
| Gamification.AdvancedAll | code/src/contexts/GamificationContext.tsx:202-221 | The map keeps length and order, and advances each achievement on its own. |
| Gamification.GamificationState.AddPoints | code/src/contexts/GamificationContext.tsx:180-188 | Points rise by exactly the amount. Level and threshold follow the new total. |
| Gamification.GamificationState.UnlockBadges | code/src/contexts/GamificationContext.tsx:192-200 | The earned badges are appended in order, and exactly their points are added. |
| Gamification.GamificationState.AdvanceAchievements | code/src/contexts/GamificationContext.tsx:202-221 | Achievements become their advanced versions. Those reaching the maximum are appended as unlocked, and their points are added. |
| Gamification.GamificationState.CheckAchievements | code/src/contexts/GamificationContext.tsx:190-222 | The badge pass, then the achievement pass. The points gained are those of both passes. |
| Gamification.GamificationState.constructor | code/src/contexts/GamificationContext.tsx:57-158 | The initial points, level, threshold, unlocked lists, badges and achievements. |
| Gamification.FirstProjectExample | code/src/contexts/GamificationContext.tsx:68-155 | The first project unlocks only "first-project" and moves the project milestone to 1. |
| Notifications.PrependUnread | code/src/contexts/NotificationContext.tsx:70-78 | The new unread item at the front raises the unread count by one. |
| Notifications.Fresh | code/src/contexts/NotificationContext.tsx:70-76 | The new item carries the caller's fields, the given id and time, and is unread. |
| Notifications.UnreadCountZero | code/src/contexts/NotificationContext.tsx:66-68 | The count is zero exactly when every item is read. |
| Notifications.MarkReadTouchesOnlyId | code/src/contexts/NotificationContext.tsx:89-95 | Items with the id become read. Every other item is unchanged. |
| Notifications.MarkReadIdempotent | code/src/contexts/NotificationContext.tsx:89-95 | Marking an id twice equals marking it once. |
| Notifications.MarkReadCount | code/src/contexts/NotificationContext.tsx:89-95 | No item with the id stays unread. The count falls by exactly the unread items with that id. |
| Notifications.MarkAllReadMarksAll | code/src/contexts/NotificationContext.tsx:97-101 | Same length and order. Each item keeps everything but its read flag, which becomes true. The unread count becomes 0. |
| Notifications.MarkAllReadCoversMarkRead | code/src/contexts/NotificationContext.tsx:89-101 | Marking everything read absorbs marking any one id. |
| Notifications.RemoveRemovesId | code/src/contexts/NotificationContext.tsx:103-105 | Exactly the items with the id disappear. |
| Notifications.RemoveKeepsOrder | code/src/contexts/NotificationContext.tsx:103-105 | Removal distributes over concatenation, so the survivors keep their order. |
| Notifications.RemoveAbsent | code/src/contexts/NotificationContext.tsx:103-105 | Removing an absent id changes nothing. Removing twice equals removing once. |
| Notifications.RemoveCount | code/src/contexts/NotificationContext.tsx:103-105 | Removing never raises the unread count. |
| Notifications.NotificationCenter.AddNotification | code/src/contexts/NotificationContext.tsx:70-78 | The new item goes to the front, the others follow in order, and the count rises by one. |
| Notifications.NotificationCenter.MarkAsRead | code/src/contexts/NotificationContext.tsx:89-95 | The list becomes `MarkRead` of the old list, and the count follows. |
| Notifications.NotificationCenter.MarkAllAsRead | code/src/contexts/NotificationContext.tsx:97-101 | Every item is read and the count is 0. |
| Notifications.NotificationCenter.RemoveNotification | code/src/contexts/NotificationContext.tsx:103-105 | The list loses the items with the id, and the count does not rise. |
| Notifications.NotificationCenter.ClearAll | code/src/contexts/NotificationContext.tsx:107-109 | The list is empty and the count 0. |
| ProjectCatalog.FindById | code/src/contexts/ProjectContext.tsx:58-60 | The first project with the id, or none exactly when no project has it. |
| ProjectCatalog.BySdgSelects | code/src/contexts/ProjectContext.tsx:62-66 | Exactly the projects with some goal of that id, in list order. |
| ProjectCatalog.FeaturedTopFive | code/src/contexts/ProjectContext.tsx:42-46 | At most five projects, all from the list, best rated first (missing counts as 0). None left out rates higher than one taken. |
| ProjectCatalog.FeaturedKeepsTiesInOrder | code/src/contexts/ProjectContext.tsx:43-45 | The stable sort keeps equally rated projects in list order. |
| ProjectCatalog.ReplaceByIdReplaces | code/src/contexts/ProjectContext.tsx:99 | Elements with the id become the server's project. The others stay in place. |
| ProjectCatalog.ReplaceThenFind | code/src/contexts/ProjectContext.tsx:99 | After the update the id finds the new version. Other ids are found as before. |
| ProjectCatalog.RemoveByIdRemoves | code/src/contexts/ProjectContext.tsx:117 | Every element with the id goes and the rest keep their order. The id is no longer found. |
| ProjectCatalog.RemoveThenFind | code/src/contexts/ProjectContext.tsx:117 | A delete does not change lookups of other ids. |
| ProjectCatalog.AppendThenFind | code/src/contexts/ProjectContext.tsx:80 | A created project with a new id is found by that id. |
| ProjectCatalog.ProjectStore.Load | code/src/contexts/ProjectContext.tsx:30-56 | On success: the list as sent plus its featured selection. On failure: the fixed error message and nothing else changed. |
| ProjectCatalog.ProjectStore.CreateProject | code/src/contexts/ProjectContext.tsx:68-85 | Success appends the server's project. Failure sets the server's message or the fallback. The featured list is untouched. |
| ProjectCatalog.ProjectStore.UpdateProject | code/src/contexts/ProjectContext.tsx:87-104 | Success replaces elements with the id. Failure leaves the list and sets the error. |
| ProjectCatalog.ProjectStore.DeleteProject | code/src/contexts/ProjectContext.tsx:106-122 | Success removes elements with the id. Failure leaves the list and sets the error. |
| AdvancedSearch.ClearFilters | code/src/components/search/AdvancedSearch.tsx:210-220 | Clearing yields the initial filter state of lines 53-61, whatever came before. |
| AdvancedSearch.ToggleFlips | code/src/components/search/AdvancedSearch.tsx:192-199 | A toggle flips the membership of its element and of no other. |
| AdvancedSearch.ToggleTwice | code/src/components/search/AdvancedSearch.tsx:192-208 | Toggling twice restores membership. From an absent element it restores the list itself. |
| AdvancedSearch.ToggleKeepsDistinct | code/src/components/search/AdvancedSearch.tsx:192-208 | A selection without repeats stays without repeats. |
| AdvancedSearch.ToggleSdg | code/src/components/search/AdvancedSearch.tsx:192-199 | Only the goal selection changes, and the goal's membership flips. |
| AdvancedSearch.ToggleCategory | code/src/components/search/AdvancedSearch.tsx:201-208 | Only the category selection changes, and the category's membership flips. |
| AdvancedSearch.DescNegatesAsc | code/src/components/search/AdvancedSearch.tsx:159-179 | The `desc` comparator is the negated `asc` one. Relevance compares as 0. |
| AdvancedSearch.ComparatorByKey | code/src/components/search/AdvancedSearch.tsx:160-179 | Every comparator is the difference of a per-result key, so the sort orders by that key. |
| AdvancedSearch.NarrowingAdmits | code/src/components/search/AdvancedSearch.tsx:147-157 | The SDG filter (only when goals are selected) and then the inclusive rating filter keep exactly the admitted candidates, in order. |
| AdvancedSearch.PerformSearch | code/src/components/search/AdvancedSearch.tsx:139-181 | The results are exactly the admitted candidates, as a permutation, ordered by the sort key. For relevance the order is unchanged. |
| Sorting.SortPermutes | code/src/contexts/ProjectContext.tsx:44 | `sort` only reorders. |
| Sorting.SortSorts | code/src/components/search/AdvancedSearch.tsx:160 | With a key-difference comparator the result ascends by the key. |
| Sorting.SortNeutral | code/src/components/search/AdvancedSearch.tsx:175-176 | A comparator that always answers 0 leaves the order untouched. |

## Left out

- HTTP: Express routing, status codes and JSON bodies. Outcomes are the `Response` datatype.
- Token signing and verification, and bcrypt hashing and comparison: external libraries. The
  verified caller and the password check are inputs (`Authorization.Caller`,
  `Accounts.Login`'s `matches`).
- File upload, static serving and the upload endpoint: file I/O.
- The seed scripts for sample projects and feedback, and image updates: one-off data seeding.
  The 17-goal seed is modelled only as the initial `sdgs` table.
- The todo, faculty-rate and student performance/leaderboard routes: they query tables the
  schema never creates.
- The remaining read routes (project list, `/api/auth/me`, student and faculty feedback lists)
  and the `code/server` register and login: they are not part of the modelled core. The
  `frontend/server` register and login are modelled.
- Concurrency: every route is one sequential step against the store. The interleaving of async
  handlers is not modelled.
- Rating arithmetic: `AVG` is a Dafny `real` over the ratings. Float rounding is not modelled.
- SQLite row order: rows are kept in insertion order, and rows with equal `createdAt` keep table
  order, which SQLite leaves unspecified.
- Fuzzy text search, dates and delays in the search panel. The fuzzy matches for a non-empty
  query are a parameter of `AdvancedSearch.PerformSearch`. Dates are integer timestamps, with no
  string parsing. The trending score uses exact reals.
- AdvancedSearch.PerformSearch: the in-place `sort` of the result array is modelled on values,
  by a stable insertion sort. Aliasing of the array is not captured.
- AdvancedSearch: the categories and date range fields are kept in the filter state but never
  used by the search, as in the code.
- Socket connection, browser notifications and `Date.now()`-based ids: ids and timestamps are
  parameters.
- Notifications.NotificationCenter: the unread count is updated in the same step as the list.
  The application updates it in an effect after the render, and the model does not capture the
  render in between.
- Network calls and `localStorage` in the client: request outcomes are a `Reply` parameter.
- Gamification.GamificationState.CheckAchievements: the React state updaters are applied in
  order, once each. The double invocation of updaters in development mode is not modelled. The
  leaderboard is presentation data.
- Gamification.GamificationState.AddPoints: JavaScript numbers are unbounded integers here.
  Float precision for very large point totals is not captured.
- AuthUtils.ValidatePassword: characters are Dafny `char`, and the length is the count of
  characters. For characters outside the Basic Multilingual Plane this differs from JavaScript's
  UTF-16 `length`.
- The random source of the secure token is its parameter (`AuthUtils.SecureToken`).
- React pages, layouts, cards, forms, and the swagger, security and logger wrappers:
  presentation.

- The second handler for `POST /api/faculty/projects/:id/feedback` (code/server/index.js:1275-1318)
  is not modelled as a route. Express sends the path to the handler registered first, for
  `:projectId` at line 1095, so the second one is never reached. Its project lookup is the model
  of the corrected route (`FeedbackRoutes.AddFacultyCommentChecked`).
- Routing.Ready: every route modelled with it keeps it. The faculty comment route as written can
  break its reference bound with foreign keys off (see "## Findings"). The other routes are proved
  from states where that has not happened.
- FeedbackRoutes.SubmitFeedback: the body's `rating` is an integer or absent. A fractional rating
  such as 4.5 passes `CHECK(rating >= 1 AND rating <= 5)` and enters `AVG`, and 0.5 fails the CHECK.
  The model can express neither.
- FeedbackRoutes.AddProjectFeedback: the body's `isPrivate` is a boolean. The route stores
  `isPrivate ? 1 : 0`, so a non-boolean body value follows JavaScript truthiness (the string
  "false" is stored as 1). That case is not modelled.
- Accounts.Register: the body's username, email and password are strings. A body without one of
  them is not modelled: the insert's NOT NULL constraint or the hashing library's error would
  answer 500. The other request bodies carry each field as present or absent, and a value of
  another JSON type is not modelled either.

## Findings

| source | as written | input that shows it | evidently intended | confidence | as-written member | corrected member |
|---|---|---|---|---|---|---|
| code/server/index.js:682-683 | Deleting a project relies on cascades, but foreign keys are never enabled, so SQLite deletes only the `projects` row. | Project 1 with tag row (1, 3) and media row "a.png"; `DELETE FROM projects WHERE id = 1` leaves both rows, referring to no project. | With foreign keys on, the project's tag and media rows go with it and other projects keep theirs. | not executed | Cascade.OrphansSurviveDelete | Cascade.CascadeLeavesNoOrphans |
| code/server/index.js:1105-1108 | The faculty comment route inserts feedback without looking the project up. With foreign keys off, a comment for a project id not yet handed out goes in, and the project later created with that id starts with it. | A faculty comment on project 1 in a store with no projects; then `POST /api/projects` creates project 1, whose page lists the comment. | 404 for an unknown project, as the later handler for the same path does at lines 1287-1291; every route then keeps the reference bound. | not executed | FeedbackRoutes.StrayCommentJoinsNextProject | FeedbackRoutes.AddFacultyCommentChecked |
| code/server/index.js:74 | The users CHECK admits viewer, student and faculty only, yet the startup seed inserts an `admin` user, and the routes grant `admin` privileges. On a fresh store the insert fails and `initializeDB` exits the process (lines 209-212). | A fresh `code/server` store: the seed's `INSERT INTO users … 'admin'` breaks the CHECK. | The CHECK admits `admin`, as the frontend schema does, and the seed goes in. | not executed | Startup.SeedAdmin | Startup.SeedSucceedsWhenAdminAdmitted |
