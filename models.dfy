/**
  The two tables of app/models.py: skills and the training sessions logged
  against them, with the column defaults, the uniqueness and length limits on
  skill names, the foreign key from a session to its skill, and the
  "delete-orphan" cascade that removes a skill's sessions with the skill.
 */
module Models {
  import opened Levels
  import opened Names

  /** Longest skill name the `name` column holds (String(100)). */
  const NameMaxLength := 100

  /** A row of the skills table, without its primary key (the store keys rows by id). */
  datatype Skill = Skill(name: string, currentLevel: int, totalXp: int)

  /** A row of the sessions table; `skillId` is the foreign key to its skill. */
  datatype Session = Session(id: int, skillId: int, durationMinutes: int)

  /**
    A freshly inserted skill takes the column defaults, level 1 and 0 XP, and
    those defaults already sit on the level curve.
   */
  function NewSkill(name: string): (s: Skill)
    ensures s.name == name && s.currentLevel == 1 && s.totalXp == 0
    ensures s.currentLevel == CalculateLevel(s.totalXp)
  {
    Skill(name, 1, 0)
  }

  /*
    The ledger functions below recurse on a count `n` of leading sessions
    rather than on slices of the ledger, so that unfolding them on a ledger
    with a session appended never produces slices of the appended ledger.
   */

  /** The sessions of `skillId` among the first `n` sessions of the ledger, in order. */
  function SessionsAmong(ledger: seq<Session>, skillId: int, n: nat): (r: seq<Session>)
    requires n <= |ledger|
    ensures |r| <= n
    ensures forall i :: 0 <= i < |r| ==> r[i].skillId == skillId
  {
    if n == 0 then []
    else SessionsAmong(ledger, skillId, n - 1) + (if ledger[n - 1].skillId == skillId then [ledger[n - 1]] else [])
  }

  /** The `sessions` relationship of one skill: the ledger's sessions carrying its id, in order. */
  function SessionsOf(ledger: seq<Session>, skillId: int): (r: seq<Session>)
    ensures |r| <= |ledger|
    ensures forall i :: 0 <= i < |r| ==> r[i].skillId == skillId
  {
    SessionsAmong(ledger, skillId, |ledger|)
  }

  /** The first `n` sessions of the ledger without those of `skillId`, in order. */
  function WithoutAmong(ledger: seq<Session>, skillId: int, n: nat): (r: seq<Session>)
    requires n <= |ledger|
    ensures |r| <= n
    ensures forall i :: 0 <= i < |r| ==> r[i].skillId != skillId
  {
    if n == 0 then []
    else WithoutAmong(ledger, skillId, n - 1) + (if ledger[n - 1].skillId != skillId then [ledger[n - 1]] else [])
  }

  /** The ledger once the cascade has deleted every session of `skillId`. */
  function Without(ledger: seq<Session>, skillId: int): (r: seq<Session>)
    ensures |r| <= |ledger|
    ensures forall i :: 0 <= i < |r| ==> r[i].skillId != skillId
  {
    WithoutAmong(ledger, skillId, |ledger|)
  }

  /** Total minutes of the first `n` sessions of a list. */
  function MinutesAmong(sessions: seq<Session>, n: nat): int
    requires n <= |sessions|
  {
    if n == 0 then 0 else MinutesAmong(sessions, n - 1) + sessions[n - 1].durationMinutes
  }

  /** Total minutes of a list of sessions. */
  function TotalMinutes(sessions: seq<Session>): int {
    MinutesAmong(sessions, |sessions|)
  }

  /** A skill's sessions are exactly the ledger's sessions that carry its id. */
  lemma {:induction false} SessionsAmongMembership(ledger: seq<Session>, skillId: int, n: nat, x: Session)
    requires n <= |ledger|
    ensures x in SessionsAmong(ledger, skillId, n) <==> (exists i :: 0 <= i < n && ledger[i] == x) && x.skillId == skillId
  {
    if n > 0 {
      SessionsAmongMembership(ledger, skillId, n - 1, x);
      if ledger[n - 1] == x {
        assert exists i :: 0 <= i < n && ledger[i] == x;
      }
    }
  }

  lemma SessionsOfMembership(ledger: seq<Session>, skillId: int, x: Session)
    ensures x in SessionsOf(ledger, skillId) <==> x in ledger && x.skillId == skillId
  {
    SessionsAmongMembership(ledger, skillId, |ledger|, x);
  }

  /** The cascade keeps exactly the sessions of the other skills. */
  lemma {:induction false} WithoutAmongMembership(ledger: seq<Session>, skillId: int, n: nat, x: Session)
    requires n <= |ledger|
    ensures x in WithoutAmong(ledger, skillId, n) <==> (exists i :: 0 <= i < n && ledger[i] == x) && x.skillId != skillId
  {
    if n > 0 {
      WithoutAmongMembership(ledger, skillId, n - 1, x);
      if ledger[n - 1] == x {
        assert exists i :: 0 <= i < n && ledger[i] == x;
      }
    }
  }

  lemma WithoutMembership(ledger: seq<Session>, skillId: int, x: Session)
    ensures x in Without(ledger, skillId) <==> x in ledger && x.skillId != skillId
  {
    WithoutAmongMembership(ledger, skillId, |ledger|, x);
  }

  /** Appending a session leaves the account of the sessions before it unchanged. */
  lemma {:induction false} SessionsAmongAppend(ledger: seq<Session>, x: Session, skillId: int, n: nat)
    requires n <= |ledger|
    ensures SessionsAmong(ledger + [x], skillId, n) == SessionsAmong(ledger, skillId, n)
  {
    if n > 0 {
      SessionsAmongAppend(ledger, x, skillId, n - 1);
      assert (ledger + [x])[n - 1] == ledger[n - 1];
    }
  }

  /** Appending a session adds it to its own skill's sessions and to no other skill's. */
  lemma SessionsOfAppend(ledger: seq<Session>, x: Session, skillId: int)
    ensures SessionsOf(ledger + [x], skillId)
         == SessionsOf(ledger, skillId) + (if x.skillId == skillId then [x] else [])
  {
    SessionsAmongAppend(ledger, x, skillId, |ledger|);
    assert (ledger + [x])[|ledger|] == x;
  }

  lemma {:induction false} MinutesAmongAppend(sessions: seq<Session>, x: Session, n: nat)
    requires n <= |sessions|
    ensures MinutesAmong(sessions + [x], n) == MinutesAmong(sessions, n)
  {
    if n > 0 {
      MinutesAmongAppend(sessions, x, n - 1);
      assert (sessions + [x])[n - 1] == sessions[n - 1];
    }
  }

  /** The minutes of a list grow by the duration of an appended session. */
  lemma TotalMinutesAppend(sessions: seq<Session>, x: Session)
    ensures TotalMinutes(sessions + [x]) == TotalMinutes(sessions) + x.durationMinutes
  {
    MinutesAmongAppend(sessions, x, |sessions|);
    assert (sessions + [x])[|sessions|] == x;
  }

  /** Deleting one skill's sessions leaves every other skill's sessions as they were. */
  lemma {:induction false} WithoutAmongKeepsOthers(ledger: seq<Session>, deleted: int, skillId: int, n: nat)
    requires skillId != deleted && n <= |ledger|
    ensures SessionsOf(WithoutAmong(ledger, deleted, n), skillId) == SessionsAmong(ledger, skillId, n)
  {
    if n > 0 {
      var w := WithoutAmong(ledger, deleted, n - 1);
      var last := ledger[n - 1];
      WithoutAmongKeepsOthers(ledger, deleted, skillId, n - 1);
      if last.skillId != deleted {
        SessionsOfAppend(w, last, skillId);
      } else {
        assert WithoutAmong(ledger, deleted, n) == w + [];
        assert w + [] == w;
      }
    }
  }

  lemma WithoutKeepsOthers(ledger: seq<Session>, deleted: int, skillId: int)
    requires skillId != deleted
    ensures SessionsOf(Without(ledger, deleted), skillId) == SessionsOf(ledger, skillId)
  {
    WithoutAmongKeepsOthers(ledger, deleted, skillId, |ledger|);
  }

  /** A skill no session refers to has no sessions. */
  lemma NoSessionsOfUnreferenced(ledger: seq<Session>, skillId: int)
    requires forall x :: x in ledger ==> x.skillId != skillId
    ensures SessionsOf(ledger, skillId) == []
  {
    var r := SessionsOf(ledger, skillId);
    if r != [] {
      SessionsOfMembership(ledger, skillId, r[0]);
    }
  }

  /** Session ids increase along the first `n` sessions of the ledger. */
  ghost predicate IdsIncreasingAmong(ledger: seq<Session>, n: nat)
    requires n <= |ledger|
  {
    n <= 1 || (IdsIncreasingAmong(ledger, n - 1) && ledger[n - 2].id < ledger[n - 1].id)
  }

  /** Session ids increase along the ledger (they are auto-incremented primary keys). */
  ghost predicate IdsIncreasing(ledger: seq<Session>) {
    IdsIncreasingAmong(ledger, |ledger|)
  }

  lemma {:induction false} IdsIncreasingAmongPairwise(ledger: seq<Session>, n: nat, i: int, j: int)
    requires n <= |ledger| && IdsIncreasingAmong(ledger, n)
    requires 0 <= i < j < n
    ensures ledger[i].id < ledger[j].id
  {
    if j < n - 1 {
      IdsIncreasingAmongPairwise(ledger, n - 1, i, j);
    } else if i < j - 1 {
      IdsIncreasingAmongPairwise(ledger, n - 1, i, j - 1);
    }
  }

  /** Increasing ids are pairwise distinct: no two sessions share a primary key. */
  lemma IdsIncreasingPairwise(ledger: seq<Session>, i: int, j: int)
    requires IdsIncreasing(ledger)
    requires 0 <= i < j < |ledger|
    ensures ledger[i].id < ledger[j].id
  {
    IdsIncreasingAmongPairwise(ledger, |ledger|, i, j);
  }

  lemma {:induction false} IdsIncreasingAmongAppend(ledger: seq<Session>, x: Session, n: nat)
    requires n <= |ledger| && IdsIncreasingAmong(ledger, n)
    ensures IdsIncreasingAmong(ledger + [x], n)
  {
    if n > 1 {
      IdsIncreasingAmongAppend(ledger, x, n - 1);
      assert (ledger + [x])[n - 1] == ledger[n - 1] && (ledger + [x])[n - 2] == ledger[n - 2];
    }
  }

  /** A session whose id exceeds the last one may be appended. */
  lemma AppendKeepsIdsIncreasing(ledger: seq<Session>, x: Session)
    requires IdsIncreasing(ledger)
    requires ledger == [] || ledger[|ledger| - 1].id < x.id
    ensures IdsIncreasing(ledger + [x])
  {
    IdsIncreasingAmongAppend(ledger, x, |ledger|);
    if ledger != [] {
      assert (ledger + [x])[|ledger| - 1] == ledger[|ledger| - 1];
    }
  }

  /** The cascade keeps the ledger's order, so ids still increase. */
  lemma {:induction false} WithoutAmongKeepsIdsIncreasing(ledger: seq<Session>, skillId: int, n: nat)
    requires IdsIncreasing(ledger) && n <= |ledger|
    ensures IdsIncreasing(WithoutAmong(ledger, skillId, n))
  {
    if n > 0 {
      var last := ledger[n - 1];
      var w := WithoutAmong(ledger, skillId, n - 1);
      WithoutAmongKeepsIdsIncreasing(ledger, skillId, n - 1);
      if last.skillId != skillId {
        if w != [] {
          WithoutAmongMembership(ledger, skillId, n - 1, w[|w| - 1]);
          var k :| 0 <= k < n - 1 && ledger[k] == w[|w| - 1];
          IdsIncreasingPairwise(ledger, k, n - 1);
        }
        AppendKeepsIdsIncreasing(w, last);
      } else {
        assert WithoutAmong(ledger, skillId, n) == w + [];
        assert w + [] == w;
      }
    }
  }

  lemma WithoutKeepsIdsIncreasing(ledger: seq<Session>, skillId: int)
    requires IdsIncreasing(ledger)
    ensures IdsIncreasing(Without(ledger, skillId))
  {
    WithoutAmongKeepsIdsIncreasing(ledger, skillId, |ledger|);
  }

  /** Column constraint of one skill row: the name fits its String(100) column. */
  predicate ValidSkill(s: Skill) {
    |s.name| <= NameMaxLength
  }

  /** The `unique=True` constraint on skill names. */
  ghost predicate UniqueNames(skills: map<int, Skill>) {
    forall a, b :: a in skills && b in skills && a != b ==> skills[a].name != skills[b].name
  }

  /**
    The row and key constraints the schema declares over both tables, besides
    name uniqueness: names that fit their column, session ids that increase
    (so no two sessions share one), and no session whose foreign key names a
    missing skill.
   */
  ghost predicate WellFormed(skills: map<int, Skill>, ledger: seq<Session>) {
    && (forall id :: id in skills ==> ValidSkill(skills[id]))
    && IdsIncreasing(ledger)
    && (forall x :: x in ledger ==> x.skillId in skills)
  }

  /**
    Appending a session with a fresh, larger id for an existing skill, and
    updating that skill without renaming it, keeps the schema's constraints.
   */
  lemma AppendKeepsWellFormed(skills: map<int, Skill>, ledger: seq<Session>, skillId: int, updated: Skill, x: Session)
    requires WellFormed(skills, ledger)
    requires skillId in skills && updated.name == skills[skillId].name
    requires x.skillId == skillId
    requires forall y :: y in ledger ==> y.id < x.id
    ensures WellFormed(skills[skillId := updated], ledger + [x])
  {
    if ledger != [] {
      assert ledger[|ledger| - 1] in ledger;
    }
    AppendKeepsIdsIncreasing(ledger, x);
  }

  /**
    The delete-orphan cascade keeps the schema's constraints: removing a skill
    together with its sessions leaves no session pointing at a missing skill.
   */
  lemma CascadeKeepsWellFormed(skills: map<int, Skill>, ledger: seq<Session>, skillId: int)
    requires WellFormed(skills, ledger)
    ensures WellFormed(skills - {skillId}, Without(ledger, skillId))
    ensures SessionsOf(Without(ledger, skillId), skillId) == []
  {
    var w := Without(ledger, skillId);
    WithoutKeepsIdsIncreasing(ledger, skillId);
    forall y | y in w
      ensures y.skillId in skills - {skillId}
    {
      WithoutMembership(ledger, skillId, y);
    }
    NoSessionsOfUnreferenced(w, skillId);
  }
}
