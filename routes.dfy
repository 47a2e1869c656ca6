/**
  The request handlers of app/routes.py over an explicit store: the skills
  table as a map from id to row, the sessions table as a ledger in insertion
  order, and the next values of the two auto-incremented primary keys.
  Requests arrive already decoded; a field that is absent from the JSON body
  is `None`.
 */
module Routes {
  import opened Levels
  import opened Names
  import opened Models

  datatype Option<T> = None | Some(value: T)

  /** Longest session one request may log: 24 hours. */
  const MaxSessionMinutes := 1440

  /** The error responses of the handlers; each reply carries its HTTP status next to it. */
  datatype Error =
    | NameRequired        // 400: no `name` field
    | NameEmpty           // 400: the name is blank after stripping
    | DuplicateName       // 409: an existing name matches ignoring case
    | NameTooLong         // 500: the insert violates the String(100) column
    | FieldsRequired      // 400: `skill_id` or `duration_minutes` missing
    | DurationOutOfRange  // 422: duration outside 1..1440
    | SkillNotFound       // 404: no skill with that id

  datatype Reply<T> = Ok(status: int, value: T) | Fail(status: int, error: Error)

  /** Body of a successful `POST /skills`. */
  datatype Created = Created(id: int, name: string, currentLevel: int)

  /** Body of a successful `POST /sessions`. */
  datatype Logged = Logged(newTotalXp: int, newLevel: int)

  /** One entry of `GET /skills`. */
  datatype SkillView = SkillView(
    id: int, name: string, currentLevel: int, totalXp: int,
    xpToNextLevel: int, progressXp: int)

  /** The `ilike` duplicate query: some stored name equals `name` ignoring case. */
  predicate NameTaken(skills: map<int, Skill>, name: string) {
    exists id :: id in skills && SameIgnoringCase(skills[id].name, name)
  }

  /**
    The duplicate query matches exactly the stored names of the same length
    that agree with `name` at every position once ASCII letters are lower-cased.
   */
  lemma NameTakenIff(skills: map<int, Skill>, name: string)
    ensures NameTaken(skills, name) <==>
      exists id :: id in skills && |skills[id].name| == |name|
        && forall i :: 0 <= i < |name| ==> LowerAscii(skills[id].name[i]) == LowerAscii(name[i])
  {
    forall id | id in skills {
      SameIgnoringCaseIff(skills[id].name, name);
    }
  }

  /** A skill whose cached level is the one its XP earns. */
  predicate OnCurve(s: Skill) {
    s.totalXp >= 0 && s.currentLevel == CalculateLevel(s.totalXp)
  }

  /**
    The entry `get_skills` builds for one skill.  For a skill on the curve the
    XP still missing for the next level is positive, the XP gained inside the
    current level is not negative, and the two add up to the width of the
    current level's band.
   */
  function Project(id: int, s: Skill): (v: SkillView)
    ensures v.id == id && v.name == s.name
    ensures v.currentLevel == s.currentLevel && v.totalXp == s.totalXp
    ensures OnCurve(s) ==>
      && 0 < v.xpToNextLevel
      && 0 <= v.progressXp
      && v.progressXp + v.xpToNextLevel == Threshold(s.currentLevel + 1) - Threshold(s.currentLevel)
  {
    var requiredXp := XpForNextLevel(s.currentLevel);
    var v := SkillView(id, s.name, s.currentLevel, s.totalXp,
                       requiredXp - s.totalXp,
                       s.totalXp - Threshold(s.currentLevel));
    if OnCurve(s) then
      LevelInBand(s.totalXp);
      v
    else
      v
  }

  /** The entries of the skills with ids in [lo, hi), in ascending id order. */
  function Listing(skills: map<int, Skill>, lo: int, hi: int): (views: seq<SkillView>)
    ensures forall i :: 0 <= i < |views| ==>
      var id := views[i].id;
      lo <= id < hi && id in skills && views[i] == Project(id, skills[id])
    ensures forall i, j :: 0 <= i < j < |views| ==> views[i].id < views[j].id
    decreases hi - lo
  {
    if hi <= lo then []
    else Listing(skills, lo, hi - 1) + (if hi - 1 in skills then [Project(hi - 1, skills[hi - 1])] else [])
  }

  /** Every skill with an id in [lo, hi) is listed. */
  lemma {:induction false} ListingMembership(skills: map<int, Skill>, lo: int, hi: int, id: int)
    ensures (id in skills && lo <= id < hi) <==>
      exists i :: 0 <= i < |Listing(skills, lo, hi)| && Listing(skills, lo, hi)[i].id == id
    decreases hi - lo
  {
    if lo < hi {
      ListingMembership(skills, lo, hi - 1, id);
      var init := Listing(skills, lo, hi - 1);
      if id == hi - 1 && id in skills {
        assert Listing(skills, lo, hi)[|init|].id == id;
      } else {
        assert forall i :: 0 <= i < |init| ==> Listing(skills, lo, hi)[i] == init[i];
      }
    }
  }

  /** The listing of skills on the curve shows positive missing XP and non-negative progress. */
  lemma ListingOnCurve(skills: map<int, Skill>, lo: int, hi: int)
    requires forall id :: id in skills ==> OnCurve(skills[id])
    ensures forall i :: 0 <= i < |Listing(skills, lo, hi)| ==>
      Listing(skills, lo, hi)[i].xpToNextLevel > 0 && Listing(skills, lo, hi)[i].progressXp >= 0
  {
  }

  /**
    The store at rest: the schema's constraints hold, ids are below their
    counters, every stored name is stripped, non-empty and unique ignoring
    case, every logged duration is within 1..1440, every skill's level is
    the one its XP earns, and its XP is the sum of its sessions' minutes.
   */
  ghost predicate StoreInvariant(skills: map<int, Skill>, sessions: seq<Session>, nextSkillId: int, nextSessionId: int) {
    && WellFormed(skills, sessions)
    && SkillIdsBelow(skills, nextSkillId)
    && SessionIdsBelow(sessions, nextSessionId)
    && NamesDistinct(skills)
    && DurationsInRange(sessions)
    && LevelsOnCurve(skills)
    && LedgerAgrees(skills, sessions)
  }

  /** Every skill id is positive and below the counter that will hand out the next one. */
  ghost predicate SkillIdsBelow(skills: map<int, Skill>, nextSkillId: int) {
    && 1 <= nextSkillId
    && (forall id :: id in skills ==> 1 <= id < nextSkillId)
  }

  /** Every session id is positive and below the counter that will hand out the next one. */
  ghost predicate SessionIdsBelow(sessions: seq<Session>, nextSessionId: int) {
    && 1 <= nextSessionId
    && (forall x :: x in sessions ==> 1 <= x.id < nextSessionId)
  }

  /** Stored names are stripped, non-empty and pairwise different ignoring case. */
  ghost predicate NamesDistinct(skills: map<int, Skill>) {
    && (forall id :: id in skills ==> IsStripped(skills[id].name))
    && (forall a, b :: a in skills && b in skills && a != b ==> !SameIgnoringCase(skills[a].name, skills[b].name))
  }

  /** Names distinct ignoring case are distinct outright, so the column's `unique=True` holds as well. */
  lemma DistinctNamesAreUnique(skills: map<int, Skill>)
    requires NamesDistinct(skills)
    ensures UniqueNames(skills)
  {
    forall a, b | a in skills && b in skills && a != b
      ensures skills[a].name != skills[b].name
    {
      assert !SameIgnoringCase(skills[a].name, skills[b].name);
    }
  }

  /** Every session logged in the store has a duration the handler accepts. */
  ghost predicate DurationsInRange(sessions: seq<Session>) {
    forall x :: x in sessions ==> 1 <= x.durationMinutes <= MaxSessionMinutes
  }

  /** The central invariant: every cached level is the level its XP earns. */
  ghost predicate LevelsOnCurve(skills: map<int, Skill>) {
    forall id :: id in skills ==> OnCurve(skills[id])
  }

  /** Every skill's XP is the total of its logged minutes, 1 XP per minute. */
  ghost predicate LedgerAgrees(skills: map<int, Skill>, sessions: seq<Session>) {
    forall id :: id in skills ==> skills[id].totalXp == TotalMinutes(SessionsOf(sessions, id))
  }

  /** Inserting a new, stripped, fitting name that no skill has ignoring case keeps the invariant. */
  lemma CreateKeepsInvariant(skills: map<int, Skill>, sessions: seq<Session>, nextSkillId: int, nextSessionId: int, name: string)
    requires StoreInvariant(skills, sessions, nextSkillId, nextSessionId)
    requires IsStripped(name) && |name| <= NameMaxLength && !NameTaken(skills, name)
    ensures nextSkillId !in skills
    ensures StoreInvariant(skills[nextSkillId := NewSkill(name)], sessions, nextSkillId + 1, nextSessionId)
  {
    var id := nextSkillId;
    var skills' := skills[id := NewSkill(name)];
    NoSessionsOfUnreferenced(sessions, id);
    forall a, b | a in skills' && b in skills' && a != b
      ensures !SameIgnoringCase(skills'[a].name, skills'[b].name)
    {
      if a == id {
        assert b in skills && !SameIgnoringCase(skills[b].name, name);
      } else if b == id {
        assert a in skills && !SameIgnoringCase(skills[a].name, name);
      }
    }
    assert WellFormed(skills', sessions);
    assert SkillIdsBelow(skills', id + 1);
    assert NamesDistinct(skills');
    assert LevelsOnCurve(skills');
    assert LedgerAgrees(skills', sessions);
  }

  /** Logging a session for a skill adds its minutes to that skill's XP and to no other. */
  lemma LogKeepsLedger(skills: map<int, Skill>, sessions: seq<Session>, id: int, x: Session)
    requires LedgerAgrees(skills, sessions)
    requires id in skills && x.skillId == id
    ensures var xp := skills[id].totalXp + x.durationMinutes;
      LedgerAgrees(skills[id := Skill(skills[id].name, CalculateLevel(xp), xp)], sessions + [x])
  {
    var xp := skills[id].totalXp + x.durationMinutes;
    var skills' := skills[id := Skill(skills[id].name, CalculateLevel(xp), xp)];
    forall k | k in skills'
      ensures skills'[k].totalXp == TotalMinutes(SessionsOf(sessions + [x], k))
    {
      SessionsOfAppend(sessions, x, k);
      if k == id {
        assert SessionsOf(sessions + [x], k) == SessionsOf(sessions, k) + [x];
        TotalMinutesAppend(SessionsOf(sessions, k), x);
      } else {
        assert SessionsOf(sessions + [x], k) == SessionsOf(sessions, k) + [];
        assert SessionsOf(sessions, k) + [] == SessionsOf(sessions, k);
      }
    }
  }

  /** Appending a session that takes the next id keeps every session id below the advanced counter. */
  lemma AppendKeepsSessionIdsBelow(sessions: seq<Session>, nextSessionId: int, x: Session)
    requires SessionIdsBelow(sessions, nextSessionId) && x.id == nextSessionId
    ensures SessionIdsBelow(sessions + [x], nextSessionId + 1)
  {
  }

  lemma AppendKeepsDurations(sessions: seq<Session>, x: Session)
    requires DurationsInRange(sessions) && 1 <= x.durationMinutes <= MaxSessionMinutes
    ensures DurationsInRange(sessions + [x])
  {
  }

  /** Updating a skill without renaming it keeps the names distinct. */
  lemma UpdateKeepsNames(skills: map<int, Skill>, id: int, updated: Skill)
    requires NamesDistinct(skills) && id in skills && updated.name == skills[id].name
    ensures NamesDistinct(skills[id := updated])
  {
  }

  /** Updating a skill to a value on the curve keeps every level on the curve. */
  lemma UpdateKeepsOnCurve(skills: map<int, Skill>, id: int, updated: Skill)
    requires LevelsOnCurve(skills) && OnCurve(updated)
    ensures LevelsOnCurve(skills[id := updated])
  {
  }

  /** Appending a valid session and moving its skill to the XP and level it earns keeps the invariant. */
  lemma LogKeepsInvariant(skills: map<int, Skill>, sessions: seq<Session>, nextSkillId: int, nextSessionId: int,
                          x: Session, updated: Skill)
    requires StoreInvariant(skills, sessions, nextSkillId, nextSessionId)
    requires x.id == nextSessionId && x.skillId in skills && 1 <= x.durationMinutes <= MaxSessionMinutes
    requires var before := skills[x.skillId];
      updated == Skill(before.name, CalculateLevel(before.totalXp + x.durationMinutes), before.totalXp + x.durationMinutes)
    ensures StoreInvariant(skills[x.skillId := updated], sessions + [x], nextSkillId, nextSessionId + 1)
  {
    var id := x.skillId;
    assert OnCurve(skills[id]);
    LogKeepsLedger(skills, sessions, id, x);
    AppendKeepsWellFormed(skills, sessions, id, updated, x);
    AppendKeepsSessionIdsBelow(sessions, nextSessionId, x);
    AppendKeepsDurations(sessions, x);
    UpdateKeepsNames(skills, id, updated);
    UpdateKeepsOnCurve(skills, id, updated);
  }

  /** Removing a skill together with its sessions keeps the invariant. */
  lemma DeleteKeepsInvariant(skills: map<int, Skill>, sessions: seq<Session>, nextSkillId: int, nextSessionId: int, id: int)
    requires StoreInvariant(skills, sessions, nextSkillId, nextSessionId)
    requires id in skills
    ensures StoreInvariant(skills - {id}, Without(sessions, id), nextSkillId, nextSessionId)
  {
    var w := Without(sessions, id);
    CascadeKeepsWellFormed(skills, sessions, id);
    forall x | x in w
      ensures x in sessions
    {
      WithoutMembership(sessions, id, x);
    }
    forall k | k in skills && k != id
      ensures SessionsOf(w, k) == SessionsOf(sessions, k)
    {
      WithoutKeepsOthers(sessions, id, k);
    }
  }

  class SkillStore {
    var skills: map<int, Skill>
    var sessions: seq<Session>
    var nextSkillId: int
    var nextSessionId: int

    /** The store at rest satisfies the store invariant. */
    ghost predicate Valid()
      reads this
    {
      StoreInvariant(skills, sessions, nextSkillId, nextSessionId)
    }

    /** An empty database. */
    constructor ()
      ensures Valid()
      ensures skills == map[] && sessions == []
      ensures nextSkillId == 1 && nextSessionId == 1
    {
      skills := map[];
      sessions := [];
      nextSkillId := 1;
      nextSessionId := 1;
    }

    /**
      `create_skill`: strip the name, reject a missing or blank name (400),
      a name some skill already has ignoring case (409) and, at insert time,
      a name too long for its column (500); otherwise insert the skill with
      the column defaults and reply 201.
     */
    method CreateSkill(name: Option<string>) returns (r: Reply<Created>)
      requires Valid()
      modifies this
      ensures Valid()
      ensures name.None? ==> r == Fail(400, NameRequired)
      ensures name.Some? && Strip(name.value) == [] ==> r == Fail(400, NameEmpty)
      ensures name.Some? && Strip(name.value) != [] && NameTaken(old(skills), Strip(name.value))
        ==> r == Fail(409, DuplicateName)
      ensures name.Some? && Strip(name.value) != [] && !NameTaken(old(skills), Strip(name.value))
        && |Strip(name.value)| > NameMaxLength
        ==> r == Fail(500, NameTooLong)
      ensures r.Ok? <==> (name.Some? && Strip(name.value) != [] && !NameTaken(old(skills), Strip(name.value))
                          && |Strip(name.value)| <= NameMaxLength)
      ensures r.Fail? ==> skills == old(skills) && sessions == old(sessions) && nextSkillId == old(nextSkillId)
      ensures r.Ok? ==> (
        name.Some? &&
        var n, id := Strip(name.value), old(nextSkillId);
        && r == Ok(201, Created(id, n, 1))
        && id !in old(skills)
        && skills == old(skills)[id := NewSkill(n)]
        && sessions == old(sessions)
        && nextSkillId == id + 1)
      ensures nextSessionId == old(nextSessionId)
    {
      if name.None? {
        return Fail(400, NameRequired);
      }
      var skillName := Strip(name.value);
      if skillName == [] {
        return Fail(400, NameEmpty);
      }
      if NameTaken(skills, skillName) {
        return Fail(409, DuplicateName);
      }
      if |skillName| > NameMaxLength {
        return Fail(500, NameTooLong);
      }
      var id := nextSkillId;
      CreateKeepsInvariant(skills, sessions, nextSkillId, nextSessionId, skillName);
      skills := skills[id := NewSkill(skillName)];
      nextSkillId := nextSkillId + 1;
      r := Ok(201, Created(id, skillName, 1));
    }

    /**
      `log_session`: both fields are required (400); the duration is checked
      before the skill is looked up (422, then 404).  A valid request appends
      one session, raises that skill's XP by the duration, recomputes its
      level and replies 201; no other skill and no other skill's sessions
      change.
     */
    method LogSession(skillId: Option<int>, durationMinutes: Option<int>) returns (r: Reply<Logged>)
      requires Valid()
      modifies this
      ensures Valid()
      ensures skillId.None? || durationMinutes.None? ==> r == Fail(400, FieldsRequired)
      ensures skillId.Some? && durationMinutes.Some?
        && !(1 <= durationMinutes.value <= MaxSessionMinutes)
        ==> r == Fail(422, DurationOutOfRange)
      ensures skillId.Some? && durationMinutes.Some?
        && 1 <= durationMinutes.value <= MaxSessionMinutes && skillId.value !in old(skills)
        ==> r == Fail(404, SkillNotFound)
      ensures r.Ok? <==> (skillId.Some? && durationMinutes.Some?
                          && 1 <= durationMinutes.value <= MaxSessionMinutes && skillId.value in old(skills))
      ensures r.Fail? ==> skills == old(skills) && sessions == old(sessions) && nextSessionId == old(nextSessionId)
      ensures r.Ok? ==> (
        skillId.Some? && durationMinutes.Some? && skillId.value in old(skills) &&
        var id, minutes := skillId.value, durationMinutes.value;
        var before := old(skills)[id];
        var xp := before.totalXp + minutes;
        && 1 <= minutes <= MaxSessionMinutes
        && r == Ok(201, Logged(xp, CalculateLevel(xp)))
        && skills == old(skills)[id := Skill(before.name, CalculateLevel(xp), xp)]
        && sessions == old(sessions) + [Session(old(nextSessionId), id, minutes)]
        && nextSessionId == old(nextSessionId) + 1
        && before.currentLevel <= CalculateLevel(xp))
      ensures nextSkillId == old(nextSkillId)
    {
      if skillId.None? || durationMinutes.None? {
        return Fail(400, FieldsRequired);
      }
      var duration := durationMinutes.value;
      if duration <= 0 || duration > MaxSessionMinutes {
        return Fail(422, DurationOutOfRange);
      }
      var id := skillId.value;
      if id !in skills {
        return Fail(404, SkillNotFound);
      }
      r := Record(id, duration);
    }

    /** The successful path of `log_session`: record the session and move the skill up the curve. */
    method Record(id: int, duration: int) returns (r: Reply<Logged>)
      requires Valid()
      requires id in skills && 1 <= duration <= MaxSessionMinutes
      modifies this
      ensures Valid()
      ensures var before := old(skills)[id];
        var xp := before.totalXp + duration;
        && r == Ok(201, Logged(xp, CalculateLevel(xp)))
        && skills == old(skills)[id := Skill(before.name, CalculateLevel(xp), xp)]
        && sessions == old(sessions) + [Session(old(nextSessionId), id, duration)]
        && nextSessionId == old(nextSessionId) + 1
        && before.currentLevel <= CalculateLevel(xp)
      ensures nextSkillId == old(nextSkillId)
    {
      var skill := skills[id];
      var newSession := Session(nextSessionId, id, duration);
      var totalXp := skill.totalXp + duration;
      var level := CalculateLevel(totalXp);
      var updated := Skill(skill.name, level, totalXp);
      LogKeepsInvariant(skills, sessions, nextSkillId, nextSessionId, newSession, updated);
      sessions := sessions + [newSession];
      nextSessionId := nextSessionId + 1;
      skills := skills[id := updated];
      LevelMonotone(skill.totalXp, totalXp);
      r := Ok(201, Logged(totalXp, level));
    }

    /**
      `delete_skill`: an unknown id is 404 and changes nothing; otherwise the
      skill and, by the delete-orphan cascade, all of its sessions are removed,
      every other skill keeps its sessions, and the reply is 200.
     */
    method DeleteSkill(skillId: int) returns (r: Reply<string>)
      requires Valid()
      modifies this
      ensures Valid()
      ensures skillId !in old(skills) ==> r == Fail(404, SkillNotFound)
      ensures r.Fail? ==> skills == old(skills) && sessions == old(sessions)
      ensures skillId in old(skills) ==>
        && r == Ok(200, old(skills)[skillId].name)
        && skills == old(skills) - {skillId}
        && sessions == Without(old(sessions), skillId)
      ensures SessionsOf(sessions, skillId) == []
      ensures forall other :: other != skillId ==> SessionsOf(sessions, other) == SessionsOf(old(sessions), other)
      ensures nextSkillId == old(nextSkillId) && nextSessionId == old(nextSessionId)
    {
      if skillId !in skills {
        NoSessionsOfUnreferenced(sessions, skillId);
        return Fail(404, SkillNotFound);
      }
      var name := skills[skillId].name;
      ghost var oldSessions := sessions;
      DeleteKeepsInvariant(skills, sessions, nextSkillId, nextSessionId, skillId);
      CascadeKeepsWellFormed(skills, sessions, skillId);
      forall other | other != skillId
        ensures SessionsOf(Without(oldSessions, skillId), other) == SessionsOf(oldSessions, other)
      {
        WithoutKeepsOthers(oldSessions, skillId, other);
      }
      skills := skills - {skillId};
      sessions := Without(sessions, skillId);
      r := Ok(200, name);
    }

    /**
      `get_skills`: the listing of every stored skill in primary-key order,
      each with the XP it still needs for the next level and the XP it has
      gained inside its current level.
     */
    method ListSkills() returns (r: Reply<seq<SkillView>>)
      requires Valid()
      ensures r == Ok(200, Listing(skills, 1, nextSkillId))
      ensures forall id :: id in skills <==> exists i :: 0 <= i < |r.value| && r.value[i].id == id
      ensures forall i :: 0 <= i < |r.value| ==> r.value[i].xpToNextLevel > 0 && r.value[i].progressXp >= 0
    {
      var skillsData: seq<SkillView> := [];
      var id := 1;
      while id < nextSkillId
        invariant 1 <= id <= nextSkillId
        invariant skillsData == Listing(skills, 1, id)
      {
        if id in skills {
          skillsData := skillsData + [Project(id, skills[id])];
        }
        id := id + 1;
      }
      r := Ok(200, skillsData);
      forall k
        ensures k in skills <==> exists i :: 0 <= i < |skillsData| && skillsData[i].id == k
      {
        ListingMembership(skills, 1, nextSkillId, k);
      }
      ListingOnCurve(skills, 1, nextSkillId);
    }
  }
}
