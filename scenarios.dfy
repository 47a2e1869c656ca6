/**
  The request sequences of tests/test_api.py, each played against an empty
  store, with the reply the test expects stated as the method's postcondition.
 */
module Scenarios {
  import opened Levels
  import opened Names
  import opened Models
  import opened Routes

  /** Creating "React Hooks" in an empty store replies 201 with that name at level 1. */
  method CreateOneSkill() returns (r: Reply<Created>)
    ensures r == Ok(201, Created(1, "React Hooks", 1))
  {
    var store := new SkillStore();
    StrippedIsFixed("React Hooks");
    r := store.CreateSkill(Some("React Hooks"));
  }

  /** Creating "Docker" a second time is refused with 409. */
  method CreateDuplicateSkill() returns (r: Reply<Created>)
    ensures r == Fail(409, DuplicateName)
  {
    var store := new SkillStore();
    StrippedIsFixed("Docker");
    var first := store.CreateSkill(Some("Docker"));
    assert store.skills[1].name == "Docker";
    assert NameTaken(store.skills, "Docker");
    r := store.CreateSkill(Some("Docker"));
  }

  /** 150 minutes logged on a new skill give 150 XP and level 2. */
  method LogFirstSession() returns (r: Reply<Logged>)
    ensures r == Ok(201, Logged(150, 2))
  {
    var store := new SkillStore();
    var name := "Testing";
    StrippedIsFixed(name);
    assert !NameTaken(store.skills, name);
    var created := store.CreateSkill(Some(name));
    assert store.skills[1].totalXp == 0;
    LevelExamples();
    r := store.LogSession(Some(1), Some(150));
  }

  /** A negative duration is refused with 422 before anything is stored. */
  method LogNegativeDuration() returns (r: Reply<Logged>)
    ensures r == Fail(422, DurationOutOfRange)
  {
    var store := new SkillStore();
    StrippedIsFixed("Hacking");
    var created := store.CreateSkill(Some("Hacking"));
    r := store.LogSession(Some(created.value.id), Some(-50));
  }
}
