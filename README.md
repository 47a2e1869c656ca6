# SkillForge backend, modelled in Dafny

SkillForge is a small skill-tracking service: the user creates skills, logs
practice sessions against them in minutes, and each minute is one XP point.
A skill reaches level L once its total XP is at least 100 * (L - 1)^2. The
Flask backend keeps two tables, skills and sessions, and serves four
handlers: create a skill, list the skills with their progress, delete a skill
together with its sessions, and log a session.

The model has five modules:

- `Levels` (levels.dfy) holds the level curve. `CalculateLevel` computes
  floor(sqrt(xp / 100)) + 1 with an integer square root. It is proved to be
  the largest level whose threshold the XP has reached, so it agrees with the
  curve in the source's doc comment.
- `Names` (names.dfy) holds Python's `str.strip()` over the `str.isspace`
  character set, and the case-insensitive comparison that the duplicate check
  performs with `ilike`.
- `Models` (models.dfy) holds the two tables:
  - the `Skill` and `Session` rows and the column defaults
  - the per-skill session relationship and the XP total of its sessions
  - the delete-orphan cascade
  - the schema's constraints: name length, unique names, increasing session
    ids, and no session pointing at a missing skill
- `Routes` (routes.dfy) holds the handlers. They are methods of the class
  `SkillStore`, whose fields are the skills table (a map from primary key to
  row), the sessions table (a ledger in insertion order) and the next value of
  each auto-incremented key. Every handler keeps the store invariant
  `StoreInvariant`, which requires all of the following:
  - every cached level is the level its XP earns (`LevelsOnCurve`)
  - every skill's XP is the total of its sessions' minutes (`LedgerAgrees`)
  - the stored names are stripped, non-empty and distinct ignoring case
  - every logged duration lies in 1..1440
  - the schema's constraints hold
- `Scenarios` (scenarios.dfy) replays the request sequences of
  tests/test_api.py on an empty store. Each reply the tests expect is proved
  as a postcondition.

Requests arrive already decoded. A field missing from the JSON body is
`None`, and an absent or empty body is a body with every field missing.

## Model

| member | source | states |
|---|---|---|
| Levels.CalculateLevel | app/routes.py:4-9 | The level is at least 1, and it is 1 for any XP below 100. |
| Levels.Threshold | app/routes.py:5 | The XP at which a level is reached, 100(L-1)^2, also used for the progress at line 60. Its properties are stated by ThresholdStrictlyIncreasing and ThresholdMonotone. |
| Levels.LevelInBand | app/routes.py:4-9 | For non-negative XP, the computed level L satisfies 100(L-1)^2 <= xp < 100 L^2. |
| Levels.LevelIsLargestReached | app/routes.py:4-9 | A level L >= 1 has its threshold 100(L-1)^2 reached exactly when L <= calculate_level(xp), in both directions. So the floor formula is the largest level the doc-comment curve allows. |
| Levels.LevelUnique | app/routes.py:4-9 | Any level whose threshold band contains the XP is the computed level. |
| Levels.LevelMonotone | app/routes.py:4-9 | More XP never gives a lower level. |
| Levels.Isqrt | app/routes.py:9 | The integer root r of n satisfies r*r <= n < (r+1)*(r+1). |
| Levels.ThresholdStrictlyIncreasing | app/routes.py:5 | The curve 100(L-1)^2 increases strictly from level 1 on. |
| Levels.ThresholdMonotone | app/routes.py:5 | The curve never decreases from level 1 on. |
| Levels.XpForNextLevel | app/routes.py:11-14 | The result is the threshold of the next level. For a level >= 1 it is the first XP that calculate_level maps to the next level, and one XP less still maps to the current level. |
| Levels.LevelExamples | tests/test_api.py:15-32 | 0 and 99 XP are level 1, 100 and 150 XP are level 2, and 1440 XP (one day's cap) is level 4. |
| Names.IsSpace | app/routes.py:29 | The 29 characters Python's `str.isspace` accepts, which `strip()` removes. |
| Names.AsciiSpaces | app/routes.py:29 | Below code point 128, the whitespace set is exactly Python's ASCII list: tab, line feed, vertical tab, form feed, carriage return, the four separators 0x1C-0x1F and the space. |
| Names.LeadingSpaces | app/routes.py:29 | Counts the whitespace run at the front of the string: everything before the count is whitespace, and the character at the count is not. |
| Names.TrailingSpaces | app/routes.py:29 | Counts the whitespace run at the back of the string, the mirror of the leading count. |
| Names.Strip | app/routes.py:29 | The result is a slice of the input that starts after the leading whitespace. Every character outside the slice is whitespace, and the result neither starts nor ends with whitespace. |
| Names.StripEmptyIff | app/routes.py:29-31 | A name is rejected as empty exactly when it consists only of whitespace. |
| Names.StrippedIsFixed | app/routes.py:29 | Stripping a non-empty name with no whitespace at either end returns it unchanged. |
| Names.StripIdempotent | app/routes.py:29 | Stripping twice gives the same result as stripping once. |
| Names.LowerAscii | app/routes.py:34 | SQLite's lower-casing of one character: it never yields an upper-case ASCII letter, yields a lower-case letter exactly for ASCII letters, and leaves every other character unchanged. |
| Names.Fold | app/routes.py:34 | The ilike key keeps the length and contains no upper-case ASCII letter. |
| Names.FoldAt | app/routes.py:34 | The ilike key is formed character by character. |
| Names.SameIgnoringCaseIff | app/routes.py:34 | Two names match under ilike exactly when they have the same length and agree at every position after lower-casing ASCII letters. |
| Models.NewSkill | app/models.py:8-10 | A new row takes the defaults, level 1 and 0 XP, and those defaults lie on the level curve. |
| Models.ValidSkill | app/models.py:8 | A skill row's name fits its String(100) column. |
| Models.UniqueNames | app/models.py:8 | The `unique=True` constraint: two different skill rows never have the same name. |
| Models.WellFormed | app/models.py:7-23 | The schema's constraints besides name uniqueness: every name fits its column, session ids increase along the ledger, so no two sessions share a primary key, and every session's foreign key names a stored skill. |
| Models.SessionsOf | app/models.py:13 | A skill's relationship contains only that skill's sessions and is no longer than the ledger. |
| Models.SessionsOfMembership | app/models.py:13 | A session belongs to a skill's relationship exactly when it is in the ledger and carries that skill's id. |
| Models.SessionsOfAppend | app/routes.py:101-102 | Appending a session to the ledger appends it to its own skill's relationship and to no other skill's. |
| Models.TotalMinutesAppend | app/routes.py:105 | Appending a session adds its minutes to the total. |
| Models.Without | app/models.py:13 | The cascade's remaining ledger contains no session of the deleted skill and is no longer than the ledger. |
| Models.WithoutMembership | app/models.py:13 | A session survives the cascade exactly when it was in the ledger and belongs to another skill. |
| Models.WithoutKeepsOthers | app/models.py:13 | The cascade leaves every other skill's sessions unchanged, in order. |
| Models.NoSessionsOfUnreferenced | app/models.py:22 | A skill that no session references has an empty relationship. |
| Models.IdsIncreasingPairwise | app/models.py:21 | In a ledger with increasing ids, an earlier session has a smaller id than a later one, so no two sessions share a key. |
| Models.AppendKeepsIdsIncreasing | app/models.py:21 | Appending a session whose id exceeds the last one keeps the ids increasing. |
| Models.WithoutKeepsIdsIncreasing | app/models.py:13 | The cascade keeps the session ids increasing. |
| Models.AppendKeepsWellFormed | app/models.py:18-23 | Logging a session with a fresh, larger id for an existing skill, without renaming it, keeps the schema's constraints. |
| Models.CascadeKeepsWellFormed | app/models.py:13 | Deleting a skill with its sessions keeps the schema's constraints and leaves it no sessions. |
| Routes.NameTaken | app/routes.py:34-35 | The duplicate query: some stored name equals the submitted name ignoring case. |
| Routes.NameTakenIff | app/routes.py:34-35 | The duplicate query matches exactly when some stored name has the submitted name's length and agrees with it at every position once ASCII letters are lower-cased. |
| Routes.Project | app/routes.py:51-60 | An entry copies the skill's id, name, level and XP. For a skill on the curve, the XP still needed is positive, the progress is not negative, and the two add up to the width of the current level's band. |
| Routes.Listing | app/routes.py:46-61 | The listing's entries are projections of stored skills, in strictly ascending id order. |
| Routes.ListingMembership | app/routes.py:46-61 | A skill is listed exactly when it is stored with an id in the listed range. |
| Routes.ListingOnCurve | app/routes.py:58-60 | For skills on the curve, every listed entry shows positive missing XP and non-negative progress. |
| Routes.StoreInvariant | app/models.py:7-23 | The store at rest: the schema's constraints hold, ids lie below their counters, stored names are stripped and distinct ignoring case, every logged duration lies in 1..1440, every level is on the curve, and every XP equals its sessions' minutes. |
| Routes.LevelsOnCurve | app/routes.py:104-108 | The central invariant: every skill's cached level is calculate_level of its total XP, which is never negative. |
| Routes.LedgerAgrees | app/routes.py:101-105 | Every skill's total XP is the sum of the minutes of the sessions logged against it, one XP per minute. |
| Routes.DistinctNamesAreUnique | app/models.py:8 | Names that are distinct ignoring case are also distinct outright, so the invariant implies the column's unique constraint. |
| Routes.CreateKeepsInvariant | app/routes.py:29-40 | Inserting a stripped, fitting name that no stored name matches ignoring case, under the next id, keeps the store invariant. |
| Routes.LogKeepsLedger | app/routes.py:101-105 | Logging a session adds its minutes to its own skill's XP and leaves every other skill's XP equal to its sessions' total. |
| Routes.LogKeepsInvariant | app/routes.py:101-110 | Appending a valid session and moving its skill to the XP and level it earns keeps the store invariant. |
| Routes.DeleteKeepsInvariant | app/routes.py:75-76 | Removing a skill together with its sessions keeps the store invariant. |
| Routes.SkillStore.constructor | app/models.py:4-23 | An empty database satisfies the invariant, and both keys start at 1. |
| Routes.SkillStore.CreateSkill | app/routes.py:21-42 | A missing name gives 400, a blank name 400, a name matching ignoring case 409, and an over-long name 500, in that order. The reply is 201 exactly when none of these applies. It then inserts the stripped name under the next id with level 1 and 0 XP, and changes nothing else. The invariant is kept. |
| Routes.SkillStore.LogSession | app/routes.py:80-116 | A missing field gives 400, a duration outside 1..1440 gives 422 before the lookup, and an unknown skill gives 404. The reply is 201 exactly when none of these applies. Then exactly one session is appended, that skill's XP rises by the duration, its level becomes calculate_level of the new XP and never drops, and the other skills are unchanged. The invariant is kept. |
| Routes.SkillStore.Record | app/routes.py:100-116 | On a valid request, the new state and the 201 reply are exactly those described for LogSession's success path, and the invariant is kept. |
| Routes.SkillStore.DeleteSkill | app/routes.py:65-78 | An unknown id gives 404 and changes nothing. Otherwise the skill and all of its sessions are removed, every other skill keeps its sessions, the reply is 200, and the invariant is kept. |
| Routes.SkillStore.ListSkills | app/routes.py:44-63 | The reply is 200 with exactly one entry per stored skill, in ascending id order, each showing positive missing XP and non-negative progress. |
| Scenarios.CreateOneSkill | tests/test_api.py:1-5 | Creating "React Hooks" in an empty store replies 201 with that name, id 1 and level 1. |
| Scenarios.CreateDuplicateSkill | tests/test_api.py:7-13 | Creating "Docker" a second time replies 409 with the duplicate-name error. |
| Scenarios.LogFirstSession | tests/test_api.py:15-32 | Logging 150 minutes on a new skill replies 201 with 150 XP and level 2. |
| Scenarios.LogNegativeDuration | tests/test_api.py:34-45 | Logging -50 minutes replies 422. |

## Left out

- Floating point: `calculate_level` takes `math.sqrt` of the float quotient `xp / 100`. The model takes the exact integer square root of `xp // 100`. The float path can only overshoot: it returns one level more when `xp / 100` or its root rounds up to the next whole number. That first happens just below the threshold of level 2^23 + 2. The smallest such XP is 100 * (2^23 + 1)^2 - 2 = 7,036,876,095,488,098, about 2^52.6. Below that the two agree. The model follows the exact curve.
- JSON decoding: the model receives `duration_minutes` as an integer. The source passes the JSON value to `int()` and catches only `ValueError` (app/routes.py:88-93).
  - A numeric string such as "30" is accepted.
  - Any other string gives 422.
  - A float such as 150.7 is truncated to 150 and accepted.
  - `true` becomes 1 and is accepted, and `false` becomes 0 and gives 422.
  - `null`, a list or an object raise a `TypeError` that nothing catches, so the reply is 500.
  - `skill_id` reaches the lookup unconverted.
  - `.strip()` is called on `name` without checking that it is a string, so a non-string name also gives 500.
  - None of these conversions is modelled.
- `ilike` wildcards: `%` and `_` in a submitted name act as patterns in the source's duplicate query. The model compares names literally.
- Case folding beyond ASCII: SQLite folds only ASCII letters, and so does the model. A database that folds more would treat more names as duplicates.
- The name length: the route never checks it. The model assumes a database that enforces `String(100)`, where the commit fails and the uncaught error becomes a 500. SQLite itself does not enforce the length, and there the long name would be stored.
- Routes.SkillStore.ListSkills: `Skill.query.all()` has no ORDER BY. The model lists skills in ascending primary-key order, which is what SQLite returns for this table.
- Routes.SkillStore.CreateSkill: the model takes each new skill id from a counter that only grows, and a refused insert does not advance it. The source's ids can differ in two ways.
  - On SQLite, the skills table has no AUTOINCREMENT, so a new row takes one more than the largest id in the table. Create "A", create "B", delete skill 2, then create "C": the source gives "C" id 2, while the model's 201 reply names id 3.
  - On a database whose ids come from a sequence, the failed insert behind the 500 for an over-long name uses up a value. The source's next id is then one larger than the model's.
- Routes.SkillStore.LogSession: a request that names a skill id reused by the source, or skipped by the model, gets 201 in the source and 404 in the model. The reverse also happens.
- Routes.SkillStore.DeleteSkill: the same id differences apply: the source's 200 can be the model's 404, and the reverse.
- Routes.SkillStore.LogSession: the XP is an unbounded integer, so every valid request is promised 201.
  - `total_xp` is a `db.Integer` column (app/models.py:10). On a database that enforces 32-bit integers, the commit fails once a skill's XP would pass 2,147,483,647, and the reply is 500. That takes about 1.49 million full-day sessions on one skill.
  - SQLite stores 64-bit integers and fails only past 2^63 - 1.
  - Session ids are bounded in the same way.
- `logged_at`: session timestamps come from the clock and nothing reads them back, so they are not modelled.
- `__repr__` methods, the reply messages' text and the `message` field of the replies are not modelled. Each error is an `Error` value paired with its HTTP status.
- Transactions and concurrency: each handler runs atomically in the model. Two requests racing on the duplicate check or on a skill's XP are not modelled.
- The app factory, the database set-up, the test fixtures and the React frontend are not part of this model.
