/** Achievements: badges with a trigger and a threshold, awarded at most
    once per user, each first award paying its points and posting an in-app
    notification. */
module Gamification {
  import opened Common
  import opened Users
  import opened Notifications

  datatype AchievementTrigger = SessionsCompleted | RatingThreshold | AccountAge | CustomTrigger

  /** One achievement; `role` is 'user' or 'host'. */
  datatype Achievement = Achievement(
    id: string,
    name: string,
    description: string,
    icon: Option<string>,
    emoji: Option<string>,
    trigger: AchievementTrigger,
    threshold: int,
    points: int,
    role: string,
    isActive: bool)

  /** The columns a new achievement is given; points default to 0 and the
      achievement starts active unless told otherwise. */
  datatype AchievementDraft = AchievementDraft(
    name: string,
    description: string,
    icon: Option<string>,
    emoji: Option<string>,
    trigger: AchievementTrigger,
    threshold: int,
    points: Option<int>,
    role: string,
    isActive: Option<bool>)

  /** The columns an update supplies; for a nullable column, `Some(None)`
      clears it. */
  datatype AchievementPatch = AchievementPatch(
    name: Option<string>,
    description: Option<string>,
    icon: Option<Option<string>>,
    emoji: Option<Option<string>>,
    trigger: Option<AchievementTrigger>,
    threshold: Option<int>,
    points: Option<int>,
    role: Option<string>,
    isActive: Option<bool>)

  /** One award: that user holds that achievement. */
  datatype UserAchievement = UserAchievement(id: string, userId: string, achievementId: string)

  function NewAchievement(id: string, d: AchievementDraft): (a: Achievement)
    ensures a.id == id && a.name == d.name && a.trigger == d.trigger && a.threshold == d.threshold
    ensures a.points == d.points.GetOr(0) && a.isActive == d.isActive.GetOr(true) && a.role == d.role
    ensures a.description == d.description && a.icon == d.icon && a.emoji == d.emoji
  {
    Achievement(id, d.name, d.description, d.icon, d.emoji, d.trigger, d.threshold,
                d.points.GetOr(0), d.role, d.isActive.GetOr(true))
  }

  function ApplyAchievementPatch(a: Achievement, p: AchievementPatch): (b: Achievement)
    ensures b.id == a.id && b.icon == p.icon.GetOr(a.icon) && b.emoji == p.emoji.GetOr(a.emoji)
    ensures b.name == p.name.GetOr(a.name) && b.description == p.description.GetOr(a.description)
    ensures b.trigger == p.trigger.GetOr(a.trigger) && b.threshold == p.threshold.GetOr(a.threshold)
    ensures b.points == p.points.GetOr(a.points) && b.role == p.role.GetOr(a.role)
    ensures b.isActive == p.isActive.GetOr(a.isActive)
  {
    a.(name := p.name.GetOr(a.name), description := p.description.GetOr(a.description),
       icon := p.icon.GetOr(a.icon), emoji := p.emoji.GetOr(a.emoji),
       trigger := p.trigger.GetOr(a.trigger), threshold := p.threshold.GetOr(a.threshold),
       points := p.points.GetOr(a.points), role := p.role.GetOr(a.role),
       isActive := p.isActive.GetOr(a.isActive))
  }

  /** Whether the user holds the achievement already. */
  predicate Holds(awards: map<string, UserAchievement>, userId: string, achievementId: string) {
    exists id :: id in awards && awards[id].userId == userId && awards[id].achievementId == achievementId
  }

  /** No user holds the same achievement twice. */
  /** Some award row refers to the achievement. */
  predicate Awarded(awards: map<string, UserAchievement>, achievementId: string) {
    exists k :: k in awards && awards[k].achievementId == achievementId
  }

  predicate AwardsUnique(awards: map<string, UserAchievement>) {
    forall i, j ::
      (i in awards && j in awards && awards[i].userId == awards[j].userId
       && awards[i].achievementId == awards[j].achievementId) ==> i == j
  }

  /** The award row a repeated call finds, if the user holds the
      achievement already. */
  ghost function ExistingAward(awards: map<string, UserAchievement>, userId: string, achievementId: string)
    : (r: Option<UserAchievement>)
    ensures r.Some? <==> Holds(awards, userId, achievementId)
    ensures r.Some? ==> r.value in awards.Values && r.value.userId == userId && r.value.achievementId == achievementId
  {
    if Holds(awards, userId, achievementId) then
      var id :| id in awards && awards[id].userId == userId && awards[id].achievementId == achievementId;
      Some(awards[id])
    else None
  }

  /** Under unique awards, the row a repeated call finds is the one stored. */
  lemma ExistingAwardIsStored(awards: map<string, UserAchievement>, id: string, userId: string, achievementId: string)
    requires AwardsUnique(awards)
    requires id in awards && awards[id].userId == userId && awards[id].achievementId == achievementId
    ensures ExistingAward(awards, userId, achievementId) == Some(awards[id])
  {
    var e := ExistingAward(awards, userId, achievementId).value;
    var k :| k in awards && awards[k] == e;
    assert k == id;
  }

  /** Storing the first award of an achievement for a user keeps awards
      unique and grows the table by that row only. */
  lemma FirstAwardStored(awards: map<string, UserAchievement>, id: string, userId: string, achievementId: string)
    requires AwardsUnique(awards) && !Holds(awards, userId, achievementId) && id !in awards
    ensures AwardsUnique(awards[id := UserAchievement(id, userId, achievementId)])
    ensures Grown(awards, awards[id := UserAchievement(id, userId, achievementId)], userId, {achievementId})
  {}

  /** The notification text of a first award. */
  function UnlockMessage(a: Achievement): string {
    "You've earned the \"" + a.name + "\" achievement: " + a.description
  }

  /** Which achievements the session check looks for: active, triggered by
      completed sessions, for the caller's side (the role column compared
      as the database compares text, ignoring letter case), with a
      threshold equal to the session count. */
  predicate SessionsMatch(a: Achievement, sessionCount: int, isHost: bool) {
    a.trigger == SessionsCompleted && SameText(a.role, if isHost then "host" else "user")
    && a.threshold == sessionCount && a.isActive
  }

  /** Which achievements the rating check looks for: active host
      achievements triggered by rating, whose threshold equals the rating. */
  predicate RatingMatch(a: Achievement, rating: real) {
    a.trigger == RatingThreshold && SameText(a.role, "host") && a.threshold as real == rating && a.isActive
  }

  /** A host never earns a user-side session achievement and a customer
      never a host-side one: the two checks look at disjoint rows. */
  lemma SessionSidesDisjoint(a: Achievement, sessionCount: int)
    ensures !(SessionsMatch(a, sessionCount, true) && SessionsMatch(a, sessionCount, false))
  {
    assert Fold("host")[0] == 'h' && Fold("user")[0] == 'u';
  }

  /** A role written in capitals is the same role to the database: an
      achievement stored with role "HOST" is one the host-side checks
      find. */
  lemma CapitalRoleMatches(a: Achievement, sessionCount: int, rating: real)
    requires a.role == "HOST"
    ensures SessionsMatch(a, sessionCount, true) <==> a.trigger == SessionsCompleted && a.threshold == sessionCount && a.isActive
    ensures RatingMatch(a, rating) <==> a.trigger == RatingThreshold && a.threshold as real == rating && a.isActive
  {
    assert Fold("HOST") == "host" == Fold("host");
  }

  /** The rating threshold is an integer column and is compared for
      equality, so only a whole-number rating matches any rating
      achievement: an average with a fractional part never does. */
  lemma OnlyWholeRatingsMatch(a: Achievement, rating: real)
    ensures RatingMatch(a, rating) ==> rating.Floor as real == rating
  {
    if RatingMatch(a, rating) {
      assert rating.Floor == a.threshold;
    }
  }

  /** The achievements the session check looks for. */
  function SessionsEligible(achievements: map<string, Achievement>, sessionCount: int, isHost: bool): (r: set<Achievement>)
    ensures forall a :: a in r <==> a in achievements.Values && SessionsMatch(a, sessionCount, isHost)
  {
    set a | a in achievements.Values && SessionsMatch(a, sessionCount, isHost)
  }

  /** The achievements the rating check looks for. */
  function RatingEligible(achievements: map<string, Achievement>, rating: real): (r: set<Achievement>)
    ensures forall a :: a in r <==> a in achievements.Values && RatingMatch(a, rating)
  {
    set a | a in achievements.Values && RatingMatch(a, rating)
  }

  /** The in-app notification a first award posts. */
  function UnlockNotice(id: string, userId: string, a: Achievement, now: int): Notification {
    Notification(id, userId, AchievementUnlocked, "Achievement Unlocked!", UnlockMessage(a), InApp, false,
                 Some(a.id), Some(map["achievementId" := a.id]), now)
  }

  /** The users table after the achievements in `paid` have paid out to
      `userId` in turn: each positive amount is added, the rest pay
      nothing. */
  function CreditAll(users: map<string, User>, userId: string, paid: seq<Achievement>): (r: map<string, User>)
    requires userId in users
    ensures r.Keys == users.Keys
  {
    if paid == [] then users
    else
      var prev := CreditAll(users, userId, paid[..|paid| - 1]);
      var a := paid[|paid| - 1];
      if a.points > 0 then Credited(prev, userId, a.points) else prev
  }

  /** The total of the positive points among `paid`. */
  function PointsPaid(paid: seq<Achievement>): (n: int)
    ensures n >= 0
    ensures paid == [] ==> n == 0
  {
    if paid == [] then 0
    else
      var a := paid[|paid| - 1];
      PointsPaid(paid[..|paid| - 1]) + (if a.points > 0 then a.points else 0)
  }

  /** Paying out a run of awards adds their positive points to that user
      and leaves every other column and every other user as it was. */
  lemma {:induction false} CreditAllPays(users: map<string, User>, userId: string, paid: seq<Achievement>)
    requires userId in users
    ensures CreditAll(users, userId, paid)[userId]
            == users[userId].(points := users[userId].points + PointsPaid(paid))
    ensures forall k :: k in users && k != userId ==> CreditAll(users, userId, paid)[k] == users[k]
  {
    if paid != [] {
      CreditAllPays(users, userId, paid[..|paid| - 1]);
    }
  }

  /** The achievements newly awarded in a run: eligible ones the user did
      not hold before, none twice. */
  ghost predicate NewlyAwarded(awarded: seq<Achievement>, eligible: set<Achievement>,
                               before: map<string, UserAchievement>, userId: string) {
    && (forall i :: 0 <= i < |awarded| ==> awarded[i] in eligible && !Holds(before, userId, awarded[i].id))
    && (forall i, j :: 0 <= i < j < |awarded| ==> awarded[i] != awarded[j])
  }

  /** The notifications a run posted: in order, the unlock notice of each
      achievement newly awarded, each under its own id, none an old id. */
  ghost predicate UnlockRows(posted: seq<Notification>, userId: string, awarded: seq<Achievement>,
                             before: map<string, Notification>, now: int) {
    && |posted| == |awarded|
    && (forall k :: 0 <= k < |posted| ==> posted[k] == UnlockNotice(posted[k].id, userId, awarded[k], now) && posted[k].id !in before)
    && (forall k, l :: 0 <= k < l < |posted| ==> posted[k].id != posted[l].id)
  }

  /** Posting the next unlock notice under an id the table does not use
      keeps the posted rows well formed. */
  lemma UnlockRowsSnoc(posted: seq<Notification>, userId: string, awarded: seq<Achievement>,
                       before: map<string, Notification>, now: int, a: Achievement, n: Notification)
    requires UnlockRows(posted, userId, awarded, before, now)
    requires n == UnlockNotice(n.id, userId, a, now) && n.id !in AddRows(before, posted)
    ensures UnlockRows(posted + [n], userId, awarded + [a], before, now)
  {
    AddRowsFresh(before, posted, n.id);
  }

  /** How the awards may have grown: existing rows are kept, and every new
      row is one for `userId` and one of `achievementIds`. */
  predicate Grown(before: map<string, UserAchievement>, after: map<string, UserAchievement>,
                  userId: string, achievementIds: set<string>) {
    && (forall id :: id in before ==> id in after && after[id] == before[id])
    && (forall id :: id in after && id !in before ==> after[id].userId == userId && after[id].achievementId in achievementIds)
  }

  /** Growth in two steps is growth by the union of what each step added. */
  lemma GrownWider(a0: map<string, UserAchievement>, a1: map<string, UserAchievement>, a2: map<string, UserAchievement>,
                   userId: string, earlier: set<string>, next: string, all: set<string>)
    requires Grown(a0, a1, userId, earlier) && Grown(a1, a2, userId, {next})
    requires earlier <= all && next in all
    ensures Grown(a0, a2, userId, all)
  {}

  /** During a run over `eligible`, an achievement not yet reached that
      the user holds now was held before the run began: the run has only
      added awards for achievements it has reached. */
  lemma HeldBeforeRun(achievements: map<string, Achievement>, start: map<string, UserAchievement>,
                      now: map<string, UserAchievement>, userId: string,
                      eligible: set<Achievement>, remaining: set<Achievement>, a: Achievement)
    requires forall b :: b in eligible ==> b.id in achievements && achievements[b.id] == b
    requires a in remaining && remaining <= eligible
    requires Grown(start, now, userId, set b | b in eligible - remaining :: b.id)
    ensures Holds(now, userId, a.id) <==> Holds(start, userId, a.id)
  {
    if Holds(now, userId, a.id) {
      var k :| k in now && now[k].userId == userId && now[k].achievementId == a.id;
      assert forall b :: b in eligible && b.id == a.id ==> b == a;
      if k !in start {
        assert false;
      }
    }
    if Holds(start, userId, a.id) {
      var k :| k in start && start[k].userId == userId && start[k].achievementId == a.id;
      assert k in now && now[k] == start[k];
    }
  }

  /** What one call of `awardAchievement` leaves behind, from the awards,
      users and notifications tables before (`0`) to after (`1`), given the
      result and the notification posted, if any:
      - an achievement already held returns the existing row and changes
        nothing;
      - an unknown achievement is NotFound and changes nothing;
      - otherwise the award row is saved under a fresh id whatever
        follows; an unknown user then fails (NotFound from the points
        update when the achievement pays points, the notification's
        foreign key otherwise) with the users table unchanged; a known
        user is credited the positive points and sent the unlock notice;
      - the notifications table changes only by the notice posted. */
  ghost predicate AwardOutcome(achievements: map<string, Achievement>, userId: string, achievementId: string, now: int,
                               awards0: map<string, UserAchievement>, awards1: map<string, UserAchievement>,
                               users0: map<string, User>, users1: map<string, User>,
                               notes0: map<string, Notification>, notes1: map<string, Notification>,
                               r: Result<UserAchievement>, notice: Option<Notification>)
  {
    && (Holds(awards0, userId, achievementId) ==>
          r == Ok(ExistingAward(awards0, userId, achievementId).value) && awards1 == awards0 && users1 == users0)
    && (!Holds(awards0, userId, achievementId) && achievementId !in achievements ==>
          r.Err? && r.error.NotFound? && awards1 == awards0 && users1 == users0)
    && (!Holds(awards0, userId, achievementId) && achievementId in achievements ==>
          var a := achievements[achievementId];
          && (exists id :: id !in awards0 && awards1 == awards0[id := UserAchievement(id, userId, achievementId)])
          && (r.Err? <==> userId !in users0)
          && (r.Err? ==> users1 == users0)
          && (r.Err? && a.points > 0 ==> r.error.NotFound?)
          && (r.Err? && a.points <= 0 ==> r.error == ForeignKeyViolation("userId"))
          && (a.points > 0 && userId in users0 ==> users1 == Credited(users0, userId, a.points))
          && (a.points <= 0 ==> users1 == users0)
          && (r.Ok? ==> r.value.id !in awards0 && awards1 == awards0[r.value.id := r.value]
                        && r.value == UserAchievement(r.value.id, userId, achievementId)))
    && (notice.Some? <==> (!Holds(awards0, userId, achievementId) && achievementId in achievements && userId in users0))
    && (notice.Some? ==> notice.value.id !in notes0 && notes1 == notes0[notice.value.id := notice.value]
                         && notice.value == UnlockNotice(notice.value.id, userId, achievements[achievementId], now))
    && (notice.None? ==> notes1 == notes0)
    && Grown(awards0, awards1, userId, {achievementId})
  }

  /** The state of a run that awards `eligible` one achievement at a time,
      when `remaining` are still to do: the tables went from `awards0`,
      `users0`, `notes0` to `awards`, `users`, `notes`; `awarded` are the
      achievements newly awarded so far and `posted` their notices. */
  ghost predicate RunSoFar(achievements: map<string, Achievement>, userId: string, now: int,
                           eligible: set<Achievement>, remaining: set<Achievement>,
                           awards0: map<string, UserAchievement>, awards: map<string, UserAchievement>,
                           users0: map<string, User>, users: map<string, User>,
                           notes0: map<string, Notification>, notes: map<string, Notification>,
                           awarded: seq<Achievement>, posted: seq<Notification>)
  {
    && RunAwards(achievements, userId, eligible, remaining, awards0, awards, userId in users0, awarded)
    && RunTables(userId, now, users0, users, notes0, notes, awarded, posted)
  }

  /** The award side of a run: every achievement done is held, the new
      award rows are for achievements done, and `awarded` lists, once each,
      exactly the achievements done that were not held before (none at all
      for an unknown user, whose run stops at the first one). */
  ghost predicate RunAwards(achievements: map<string, Achievement>, userId: string,
                            eligible: set<Achievement>, remaining: set<Achievement>,
                            awards0: map<string, UserAchievement>, awards: map<string, UserAchievement>,
                            known: bool, awarded: seq<Achievement>)
  {
    && remaining <= eligible
    && (forall b :: b in eligible ==> b.id in achievements && achievements[b.id] == b)
    && Grown(awards0, awards, userId, set b | b in eligible - remaining :: b.id)
    && (forall b :: b in eligible - remaining ==> Holds(awards, userId, b.id))
    && (!known ==> forall b :: b in eligible - remaining ==> Holds(awards0, userId, b.id))
    && NewlyAwarded(awarded, eligible - remaining, awards0, userId)
    && (forall b :: b in eligible - remaining && !Holds(awards0, userId, b.id) ==> b in awarded)
  }

  /** The table side of a run: the user was paid for `awarded` (nothing for
      an unknown user) and `posted` were added to the notifications. */
  ghost predicate RunTables(userId: string, now: int,
                            users0: map<string, User>, users: map<string, User>,
                            notes0: map<string, Notification>, notes: map<string, Notification>,
                            awarded: seq<Achievement>, posted: seq<Notification>)
  {
    && users.Keys == users0.Keys
    && (userId in users0 ==> users == CreditAll(users0, userId, awarded))
    && (userId !in users0 ==> users == users0 && awarded == [])
    && UnlockRows(posted, userId, awarded, notes0, now)
    && notes == AddRows(notes0, posted)
  }

  /** A run starts with nothing done. */
  lemma RunStarts(achievements: map<string, Achievement>, userId: string, now: int, eligible: set<Achievement>,
                  awards0: map<string, UserAchievement>, users0: map<string, User>, notes0: map<string, Notification>)
    requires forall b :: b in eligible ==> b.id in achievements && achievements[b.id] == b
    ensures RunSoFar(achievements, userId, now, eligible, eligible, awards0, awards0, users0, users0, notes0, notes0, [], [])
  {
    assert eligible - eligible == {};
  }

  /** One successful award moves the run on by one achievement; it joins
      `awarded` exactly when a notice was posted for it. */
  lemma RunStep(achievements: map<string, Achievement>, userId: string, now: int,
                eligible: set<Achievement>, remaining: set<Achievement>,
                awards0: map<string, UserAchievement>, awards: map<string, UserAchievement>, awards1: map<string, UserAchievement>,
                users0: map<string, User>, users: map<string, User>, users1: map<string, User>,
                notes0: map<string, Notification>, notes: map<string, Notification>, notes1: map<string, Notification>,
                awarded: seq<Achievement>, posted: seq<Notification>,
                a: Achievement, r: Result<UserAchievement>, notice: Option<Notification>)
    requires RunSoFar(achievements, userId, now, eligible, remaining, awards0, awards, users0, users, notes0, notes, awarded, posted)
    requires a in remaining
    requires AwardOutcome(achievements, userId, a.id, now, awards, awards1, users, users1, notes, notes1, r, notice)
    requires r.Ok?
    ensures RunSoFar(achievements, userId, now, eligible, remaining - {a}, awards0, awards1, users0, users1, notes0, notes1,
                     if notice.Some? then awarded + [a] else awarded,
                     if notice.Some? then posted + [notice.value] else posted)
  {
    HeldBeforeRun(achievements, awards0, awards, userId, eligible, remaining, a);
    if notice.Some? {
      RunStepNew(achievements, userId, now, eligible, remaining, awards0, awards, awards1, users0, users, users1,
                 notes0, notes, notes1, awarded, posted, a, r.value, notice.value);
    } else {
      RunStepHeld(achievements, userId, now, eligible, remaining, awards0, awards, users0, users, notes0, notes,
                  awarded, posted, a);
    }
  }

  /** The step for an achievement the user held before the run: nothing
      changes but the achievements left to do. */
  lemma RunStepHeld(achievements: map<string, Achievement>, userId: string, now: int,
                    eligible: set<Achievement>, remaining: set<Achievement>,
                    awards0: map<string, UserAchievement>, awards: map<string, UserAchievement>,
                    users0: map<string, User>, users: map<string, User>,
                    notes0: map<string, Notification>, notes: map<string, Notification>,
                    awarded: seq<Achievement>, posted: seq<Notification>, a: Achievement)
    requires RunSoFar(achievements, userId, now, eligible, remaining, awards0, awards, users0, users, notes0, notes, awarded, posted)
    requires a in remaining && Holds(awards0, userId, a.id) && Holds(awards, userId, a.id)
    ensures RunSoFar(achievements, userId, now, eligible, remaining - {a}, awards0, awards, users0, users, notes0, notes,
                     awarded, posted)
  {
    assert (set b | b in eligible - (remaining - {a}) :: b.id) == (set b | b in eligible - remaining :: b.id) + {a.id};
  }

  /** The step for an achievement newly awarded to a known user: one award
      row, its points and its notice are added. */
  lemma RunStepNew(achievements: map<string, Achievement>, userId: string, now: int,
                   eligible: set<Achievement>, remaining: set<Achievement>,
                   awards0: map<string, UserAchievement>, awards: map<string, UserAchievement>, awards1: map<string, UserAchievement>,
                   users0: map<string, User>, users: map<string, User>, users1: map<string, User>,
                   notes0: map<string, Notification>, notes: map<string, Notification>, notes1: map<string, Notification>,
                   awarded: seq<Achievement>, posted: seq<Notification>,
                   a: Achievement, award: UserAchievement, n: Notification)
    requires RunSoFar(achievements, userId, now, eligible, remaining, awards0, awards, users0, users, notes0, notes, awarded, posted)
    requires a in remaining && !Holds(awards0, userId, a.id) && userId in users0
    requires award.id !in awards && awards1 == awards[award.id := award] && award == UserAchievement(award.id, userId, a.id)
    requires a.points > 0 ==> users1 == Credited(users, userId, a.points)
    requires a.points <= 0 ==> users1 == users
    requires n.id !in notes && notes1 == notes[n.id := n] && n == UnlockNotice(n.id, userId, a, now)
    ensures RunSoFar(achievements, userId, now, eligible, remaining - {a}, awards0, awards1, users0, users1, notes0, notes1,
                     awarded + [a], posted + [n])
  {
    AwardsStepNew(achievements, userId, eligible, remaining, awards0, awards, awards1, awarded, a, award);
    TablesStepNew(userId, now, users0, users, users1, notes0, notes, notes1, awarded, posted, a, n);
  }

  /** The award side of that step: the new row holds the achievement,
      which joins `awarded`. */
  lemma AwardsStepNew(achievements: map<string, Achievement>, userId: string,
                      eligible: set<Achievement>, remaining: set<Achievement>,
                      awards0: map<string, UserAchievement>, awards: map<string, UserAchievement>, awards1: map<string, UserAchievement>,
                      awarded: seq<Achievement>, a: Achievement, award: UserAchievement)
    requires RunAwards(achievements, userId, eligible, remaining, awards0, awards, true, awarded)
    requires a in remaining && !Holds(awards0, userId, a.id)
    requires award.id !in awards && awards1 == awards[award.id := award] && award == UserAchievement(award.id, userId, a.id)
    ensures RunAwards(achievements, userId, eligible, remaining - {a}, awards0, awards1, true, awarded + [a])
  {
    assert (set b | b in eligible - (remaining - {a}) :: b.id) == (set b | b in eligible - remaining :: b.id) + {a.id};
    forall b | b in eligible - (remaining - {a}) ensures Holds(awards1, userId, b.id) {
      if b != a {
        var k :| k in awards && awards[k].userId == userId && awards[k].achievementId == b.id;
        assert k in awards1 && awards1[k] == awards[k];
      } else {
        assert awards1[award.id] == award;
      }
    }
  }

  /** The table side of that step: the points paid and the notice posted. */
  lemma TablesStepNew(userId: string, now: int,
                      users0: map<string, User>, users: map<string, User>, users1: map<string, User>,
                      notes0: map<string, Notification>, notes: map<string, Notification>, notes1: map<string, Notification>,
                      awarded: seq<Achievement>, posted: seq<Notification>, a: Achievement, n: Notification)
    requires RunTables(userId, now, users0, users, notes0, notes, awarded, posted)
    requires userId in users0
    requires a.points > 0 ==> users1 == Credited(users, userId, a.points)
    requires a.points <= 0 ==> users1 == users
    requires n.id !in notes && notes1 == notes[n.id := n] && n == UnlockNotice(n.id, userId, a, now)
    ensures RunTables(userId, now, users0, users1, notes0, notes1, awarded + [a], posted + [n])
  {
    UnlockRowsSnoc(posted, userId, awarded, notes0, now, a, n);
    assert (awarded + [a])[..|awarded|] == awarded;
  }

  /** A failed award ends the run: the user is unknown, nothing was
      credited or posted, and an eligible achievement was not held. */
  lemma RunStops(achievements: map<string, Achievement>, userId: string, now: int,
                 eligible: set<Achievement>, remaining: set<Achievement>,
                 awards0: map<string, UserAchievement>, awards: map<string, UserAchievement>, awards1: map<string, UserAchievement>,
                 users0: map<string, User>, users: map<string, User>, users1: map<string, User>,
                 notes0: map<string, Notification>, notes: map<string, Notification>, notes1: map<string, Notification>,
                 awarded: seq<Achievement>, posted: seq<Notification>,
                 a: Achievement, r: Result<UserAchievement>, notice: Option<Notification>)
    requires RunSoFar(achievements, userId, now, eligible, remaining, awards0, awards, users0, users, notes0, notes, awarded, posted)
    requires a in remaining
    requires AwardOutcome(achievements, userId, a.id, now, awards, awards1, users, users1, notes, notes1, r, notice)
    requires r.Err?
    ensures userId !in users0 && users1 == users0 && awarded == [] && posted == [] && notes1 == notes0
    ensures a in eligible && !Holds(awards0, userId, a.id)
    ensures r.error.NotFound? || r.error == ForeignKeyViolation("userId")
    ensures Grown(awards0, awards1, userId, set b | b in eligible :: b.id)
  {
    HeldBeforeRun(achievements, awards0, awards, userId, eligible, remaining, a);
    GrownWider(awards0, awards, awards1, userId, set b | b in eligible - remaining :: b.id, a.id,
               set b | b in eligible :: b.id);
  }

  /** A run with nothing left to do has awarded every eligible achievement
      and newly awarded exactly those not held before. */
  lemma RunDone(achievements: map<string, Achievement>, userId: string, now: int, eligible: set<Achievement>,
                awards0: map<string, UserAchievement>, awards: map<string, UserAchievement>,
                users0: map<string, User>, users: map<string, User>,
                notes0: map<string, Notification>, notes: map<string, Notification>,
                awarded: seq<Achievement>, posted: seq<Notification>)
    requires RunSoFar(achievements, userId, now, eligible, {}, awards0, awards, users0, users, notes0, notes, awarded, posted)
    ensures Grown(awards0, awards, userId, set b | b in eligible :: b.id)
    ensures forall b :: b in eligible ==> Holds(awards, userId, b.id)
    ensures userId in users0 || forall b :: b in eligible ==> Holds(awards0, userId, b.id)
    ensures NewlyAwarded(awarded, eligible, awards0, userId)
    ensures forall b :: b in eligible && !Holds(awards0, userId, b.id) ==> b in awarded
  {
    assert eligible - {} == eligible;
  }

  class GamificationService {
    var achievements: map<string, Achievement>
    var awards: map<string, UserAchievement>
    const users: UsersService
    const notifications: NotificationsService

    ghost predicate Valid()
      reads this, users, notifications
    {
      && users.Valid()
      && notifications.Valid()
      && notifications.users == users
      && (forall id :: id in achievements ==> achievements[id].id == id)
      && (forall id :: id in awards ==> awards[id].id == id)
      && AwardsUnique(awards)
    }

    constructor (users: UsersService, notifications: NotificationsService)
      requires users.Valid() && notifications.Valid() && notifications.users == users
      ensures Valid() && achievements == map[] && awards == map[]
      ensures this.users == users && this.notifications == notifications
    {
      achievements := map[];
      awards := map[];
      this.users := users;
      this.notifications := notifications;
    }

    /** `findAllAchievements`: the active achievements. */
    function FindAllAchievements(): (r: set<Achievement>)
      reads this
      ensures forall a :: a in r <==> a in achievements.Values && a.isActive
    {
      set a | a in achievements.Values && a.isActive
    }

    /** `findAchievementById`: the achievement, or NotFound. */
    function FindAchievementById(id: string): (r: Result<Achievement>)
      reads this
      ensures r.Ok? <==> id in achievements
      ensures r.Ok? ==> r.value == achievements[id]
      ensures r.Err? ==> r.error.NotFound?
    {
      if id in achievements then Ok(achievements[id])
      else Err(NotFound("Achievement with ID " + id + " not found"))
    }

    /** `getUserAchievements`: the user's award rows. */
    function GetUserAchievements(userId: string): (r: set<UserAchievement>)
      reads this
      ensures forall x :: x in r <==> x in awards.Values && x.userId == userId
    {
      set x | x in awards.Values && x.userId == userId
    }

    /** `createAchievement`: stores a new achievement with the defaults. */
    method CreateAchievement(d: AchievementDraft) returns (a: Achievement)
      requires Valid()
      modifies this
      ensures Valid() && awards == old(awards)
      ensures a.id !in old(achievements) && a == NewAchievement(a.id, d)
      ensures achievements == old(achievements)[a.id := a]
    {
      FreshIdExists(achievements.Keys);
      var id :| id !in achievements;
      a := NewAchievement(id, d);
      achievements := achievements[id := a];
    }

    /** `updateAchievement`: the achievement must exist; the supplied
        columns are written and the stored row is returned. */
    method UpdateAchievement(id: string, p: AchievementPatch) returns (r: Result<Achievement>)
      requires Valid()
      modifies this
      ensures Valid() && awards == old(awards)
      ensures r.Ok? <==> id in old(achievements)
      ensures r.Ok? ==> achievements == old(achievements)[id := ApplyAchievementPatch(old(achievements)[id], p)]
                        && r.value == achievements[id]
      ensures r.Err? ==> r.error.NotFound? && achievements == old(achievements)
    {
      var found := FindAchievementById(id);
      if found.Err? {
        return Err(found.error);
      }
      achievements := achievements[id := ApplyAchievementPatch(found.value, p)];
      r := Ok(achievements[id]);
    }

    /** `deleteAchievement`: the achievement must exist; it is removed. An
        award row refers to its achievement by a foreign key (the award
        relation to `achievement`), so the database refuses the delete while
        some user holds the achievement. */
    method DeleteAchievement(id: string) returns (r: Result<()>)
      requires Valid()
      modifies this
      ensures Valid() && awards == old(awards)
      ensures r.Ok? <==> id in old(achievements) && !Awarded(old(awards), id)
      ensures r.Ok? ==> achievements == old(achievements) - {id}
      ensures r.Err? ==> achievements == old(achievements)
      ensures r.Err? ==> (if id in old(achievements) then r.error == ForeignKeyViolation("achievementId")
                          else r.error.NotFound?)
    {
      var found := FindAchievementById(id);
      if found.Err? {
        return Err(found.error);
      }
      if Awarded(awards, id) {
        return Err(ForeignKeyViolation("achievementId"));
      }
      achievements := achievements - {id};
      r := Ok(());
    }

    /** `awardAchievement`. A user who holds the achievement already gets
        the existing row back and nothing else happens. Otherwise the
        achievement must exist; the award row is saved; positive points are
        added to the user (which fails, after the save, when the user does
        not exist); and one unread in-app notification is posted (which the
        database refuses for an unknown user). `notice` is the notification
        posted, if any. */
    method AwardAchievement(userId: string, achievementId: string, now: int)
      returns (r: Result<UserAchievement>, ghost notice: Option<Notification>)
      requires Valid()
      modifies this, users, notifications
      ensures Valid() && achievements == old(achievements)
      ensures AwardOutcome(achievements, userId, achievementId, now, old(awards), awards, old(users.users), users.users,
                           old(notifications.notifications), notifications.notifications, r, notice)
    {
      notice := None;
      if exists id :: id in awards && awards[id].userId == userId && awards[id].achievementId == achievementId {
        var id :| id in awards && awards[id].userId == userId && awards[id].achievementId == achievementId;
        ExistingAwardIsStored(awards, id, userId, achievementId);
        r := Ok(awards[id]);
        return;
      }
      var found := FindAchievementById(achievementId);
      if found.Err? {
        r := Err(found.error);
        return;
      }
      var a := found.value;
      FreshIdExists(awards.Keys);
      var id :| id !in awards;
      var award := UserAchievement(id, userId, achievementId);
      FirstAwardStored(awards, id, userId, achievementId);
      awards := awards[id := award];
      if a.points > 0 {
        var updated := users.UpdatePoints(userId, a.points);
        if updated.Err? {
          r := Err(updated.error);
          return;
        }
      }
      ghost var usersNow := users.users;
      assert Valid();
      var n := notifications.Create(userId, AchievementUnlocked, "Achievement Unlocked!", UnlockMessage(a),
                                    InApp, Some(a.id), Some(map["achievementId" := a.id]), now);
      assert users.users == usersNow && users.Valid();
      if n.Err? {
        r := Err(n.error);
        return;
      }
      r, notice := Ok(award), Some(n.value);
    }

    /** Awards each of the achievements in turn; the first failure stops
        the rest. `awarded` lists the achievements newly awarded, in the
        order they were awarded, and `posted` the notifications that
        announced them. */
    method AwardEach(userId: string, eligible: set<Achievement>, now: int)
      returns (r: Result<()>, ghost awarded: seq<Achievement>, ghost posted: seq<Notification>)
      requires Valid()
      requires forall a :: a in eligible ==> a.id in achievements && achievements[a.id] == a
      modifies this, users, notifications
      ensures Valid() && achievements == old(achievements)
      ensures Grown(old(awards), awards, userId, set a | a in eligible :: a.id)
      ensures r.Ok? <==> userId in old(users.users) || forall a :: a in eligible ==> Holds(old(awards), userId, a.id)
      ensures r.Ok? ==> forall a :: a in eligible ==> Holds(awards, userId, a.id)
      ensures r.Err? ==> r.error.NotFound? || r.error == ForeignKeyViolation("userId")
      ensures NewlyAwarded(awarded, eligible, old(awards), userId)
      ensures r.Ok? ==> forall a :: a in eligible && !Holds(old(awards), userId, a.id) ==> a in awarded
      ensures userId in old(users.users) ==> users.users == CreditAll(old(users.users), userId, awarded)
      ensures userId !in old(users.users) ==> users.users == old(users.users) && awarded == []
      ensures UnlockRows(posted, userId, awarded, old(notifications.notifications), now)
      ensures notifications.notifications == AddRows(old(notifications.notifications), posted)
    {
      awarded, posted := [], [];
      var remaining := eligible;
      RunStarts(achievements, userId, now, eligible, awards, users.users, notifications.notifications);
      while remaining != {}
        invariant Valid() && achievements == old(achievements)
        invariant RunSoFar(achievements, userId, now, eligible, remaining, old(awards), awards, old(users.users), users.users,
                           old(notifications.notifications), notifications.notifications, awarded, posted)
        decreases remaining
      {
        var a :| a in remaining;
        ghost var awardsBefore, usersBefore, notesBefore := awards, users.users, notifications.notifications;
        var res, notice := AwardAchievement(userId, a.id, now);
        if res.Err? {
          RunStops(achievements, userId, now, eligible, remaining, old(awards), awardsBefore, awards,
                   old(users.users), usersBefore, users.users, old(notifications.notifications), notesBefore,
                   notifications.notifications, awarded, posted, a, res, notice);
          r := Err(res.error);
          return;
        }
        RunStep(achievements, userId, now, eligible, remaining, old(awards), awardsBefore, awards,
                old(users.users), usersBefore, users.users, old(notifications.notifications), notesBefore,
                notifications.notifications, awarded, posted, a, res, notice);
        if notice.Some? {
          awarded, posted := awarded + [a], posted + [notice.value];
        }
        remaining := remaining - {a};
      }
      RunDone(achievements, userId, now, eligible, old(awards), awards, old(users.users), users.users,
              old(notifications.notifications), notifications.notifications, awarded, posted);
      r := Ok(());
    }

    /** `checkSessionsAchievements`: awards every matching achievement, and
        reports what was newly awarded and posted. */
    method CheckSessionsAchievements(userId: string, sessionCount: int, isHost: bool, now: int)
      returns (r: Result<()>, ghost awarded: seq<Achievement>, ghost posted: seq<Notification>)
      requires Valid()
      modifies this, users, notifications
      ensures Valid() && achievements == old(achievements)
      ensures var eligible := SessionsEligible(old(achievements), sessionCount, isHost);
              && Grown(old(awards), awards, userId, set a | a in eligible :: a.id)
              && (r.Ok? <==> userId in old(users.users) || forall a :: a in eligible ==> Holds(old(awards), userId, a.id))
              && (r.Ok? ==> forall a :: a in eligible ==> Holds(awards, userId, a.id))
              && (r.Err? ==> r.error.NotFound? || r.error == ForeignKeyViolation("userId"))
              && NewlyAwarded(awarded, eligible, old(awards), userId)
              && (r.Ok? ==> forall a :: a in eligible && !Holds(old(awards), userId, a.id) ==> a in awarded)
      ensures userId in old(users.users) ==> users.users == CreditAll(old(users.users), userId, awarded)
      ensures userId !in old(users.users) ==> users.users == old(users.users) && awarded == []
      ensures UnlockRows(posted, userId, awarded, old(notifications.notifications), now)
      ensures notifications.notifications == AddRows(old(notifications.notifications), posted)
    {
      var eligible := SessionsEligible(achievements, sessionCount, isHost);
      r, awarded, posted := AwardEach(userId, eligible, now);
    }

    /** `checkRatingAchievements`: awards every matching achievement, and
        reports what was newly awarded and posted. */
    method CheckRatingAchievements(userId: string, rating: real, now: int)
      returns (r: Result<()>, ghost awarded: seq<Achievement>, ghost posted: seq<Notification>)
      requires Valid()
      modifies this, users, notifications
      ensures Valid() && achievements == old(achievements)
      ensures var eligible := RatingEligible(old(achievements), rating);
              && Grown(old(awards), awards, userId, set a | a in eligible :: a.id)
              && (r.Ok? <==> userId in old(users.users) || forall a :: a in eligible ==> Holds(old(awards), userId, a.id))
              && (r.Ok? ==> forall a :: a in eligible ==> Holds(awards, userId, a.id))
              && (r.Err? ==> r.error.NotFound? || r.error == ForeignKeyViolation("userId"))
              && NewlyAwarded(awarded, eligible, old(awards), userId)
              && (r.Ok? ==> forall a :: a in eligible && !Holds(old(awards), userId, a.id) ==> a in awarded)
      ensures userId in old(users.users) ==> users.users == CreditAll(old(users.users), userId, awarded)
      ensures userId !in old(users.users) ==> users.users == old(users.users) && awarded == []
      ensures UnlockRows(posted, userId, awarded, old(notifications.notifications), now)
      ensures notifications.notifications == AddRows(old(notifications.notifications), posted)
    {
      var eligible := RatingEligible(achievements, rating);
      r, awarded, posted := AwardEach(userId, eligible, now);
    }
  }
}
