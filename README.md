# Study platform store — a Dafny model

The study platform serves a course made of **rounds**. A round holds
**missions** and a mission holds **topics**. Signed-in users tick topics off
in a **progress ledger** (`userProgress`), attach files to topics and comment
on missions. Administrators create and delete course content and manage users.
A seed script loads a nested course description (rounds → missions → topics)
into the tables.

The model is an in-memory version of the relational store plus the logic the
server layers on it:

- `Store.Database` keeps each table as a sequence of rows and hands out ids
  from one auto-increment counter per table. Its invariant `Valid()` holds
  the primary keys and the UNIQUE index on `users.openId`. The store enforces
  nothing else: there are no foreign keys and no unique (userId, topicId)
  index.
- The `Db` module models `server/db.ts`. It has:
  - the getters: rows selected by parent key, ordered by `order` or newest
    first;
  - `upsertUser`, which merges a partial user record into the row for the
    same openId;
  - `insertAttachment`, `createComment` and `getRoundProgress`.
- The `Routers` module models the tRPC procedures of `server/routers.ts`:
  - the input validators and the admin role gate;
  - the progress toggle;
  - the admin create, delete and user-management mutations;
  - `addComment`.
- The `Seed` module models `seed-db.mjs`. It empties the course tables, then
  flattens the nested input with its three nested loops. `order` starts at 1
  under each parent.

`getDb()` returning null (no database configured) appears as a null
`Database?` argument. What a call then does follows the source, member by
member:

- the read queries of `server/db.ts` give an empty list or `None`;
- most mutations fail with "Database not available";
- `upsertUser` is a mutation that returns silently instead (`server/db.ts:27-30`);
- `admin.getUsers` is a query that fails with "Database not available"
  (`server/routers.ts:325-334`).

The signed-in user (`ctx.user`), the clock (`new Date()`, `Date.now()`), the
owner's openId (`ENV.ownerOpenId`) and `DATABASE_URL` are parameters.

Files:

- `wrappers.dfy`: `Option` and `Result`.
- `errors.dfy`: the thrown errors and their messages.
- `seqs.dfy`: generic filter, first-match, uniqueness and stable sort, with
  their lemmas.
- `schema.dfy`: the row types of `drizzle/schema.ts`.
- `store.dfy`: the store.
- `db.dfy`, `routers.dfy`, `seed.dfy`: the three source files above.

## Model

| member | source | states |
|---|---|---|
| Schema.DuplicatePairAdmitted | drizzle/schema.ts:67-75 | Two progress rows with distinct primary keys and the same (userId, topicId) are a legal table. Only the toggle logic keeps one row per pair. |
| Schema.PrimaryKeyFilter | drizzle/schema.ts:8-103 | Deleting rows keeps an auto-increment primary key unique and below the counter. |
| Schema.FreshKeyLookup | drizzle/schema.ts:30 | A row inserted with the next auto-increment id is what a lookup by that id finds. |
| Schema.DeleteLookup | server/routers.ts:227 | After `DELETE ... WHERE id = x`, a lookup finds nothing for x and, for every other id, what it found before. |
| Store.UpsertRows | server/db.ts:71-73 | `INSERT ... ON DUPLICATE KEY UPDATE`. When the openId exists, that row gets the update set and the table keeps its length. Otherwise exactly one new row is appended. Rows with other openIds are untouched, and openIds stay unique. |
| Store.ApplyCells | drizzle/schema.ts:8-23 | An UPDATE never changes a user's id or openId. An empty update set changes nothing. |
| Store.NewUserRow | drizzle/schema.ts:19-22 | A column missing from the inserted values takes its default: role `user`, lastSignedIn the current time. |
| Store.SetProgress | server/routers.ts:86-92 | `UPDATE userProgress ... WHERE userId AND topicId` changes only the rows of that pair and keeps every id and pair. |
| Store.UpdateUserRows | server/routers.ts:401-403 | `UPDATE users ... WHERE id` changes only the rows with that id and keeps ids and openIds. |
| Store.Database.Valid | drizzle/schema.ts:8-103 | The store invariant: every counter is positive, every table's ids are unique, positive and below the table's counter, and no two users share an openId. |
| Store.Database.InsertRound | server/routers.ts:203-207 | One INSERT into rounds: the row is appended with the counter's id, which is returned, and the counter advances. |
| Store.Database.InsertMission | server/routers.ts:249-256 | One INSERT into missions, as InsertRound. |
| Store.Database.InsertTopic | server/routers.ts:296-303 | One INSERT into topics, as InsertRound. |
| Store.Database.InsertProgress | server/routers.ts:98-103 | One INSERT into userProgress, as InsertRound. No (userId, topicId) check is made. |
| Store.Database.UpdateProgress | server/routers.ts:87-94 | `UPDATE userProgress SET completed, completedAt WHERE userId AND topicId` sets every row of the pair and changes nothing else. |
| Store.Database.InsertAttachment | server/db.ts:214-222 | One INSERT into attachments, as InsertRound. |
| Store.Database.InsertComment | server/db.ts:183 | One INSERT into comments, as InsertRound. |
| Store.Database.InsertUser | server/routers.ts:358-364 | A plain INSERT into users. The UNIQUE openId index refuses an openId already present as a duplicate entry, with no change. Otherwise one row is appended with the column defaults for what is missing. |
| Store.Database.UpsertUser | server/db.ts:71-73 | `INSERT ... ON DUPLICATE KEY UPDATE`: the users table becomes UpsertRows of the old one, and the counter advances only when a row is inserted. |
| Store.Database.UpdateUsers | server/routers.ts:401-403 | `UPDATE users SET ... WHERE id`. A SET naming no users column is refused with no change. Otherwise the table becomes UpdateUserRows of the old one. |
| Store.Database.ClearCourse | seed-db.mjs:16-20 | The five DELETEs empty userProgress, attachments, topics, missions and rounds. Users, comments and every counter are untouched. |
| Store.Database.DeleteRounds | server/routers.ts:227 | `DELETE FROM rounds WHERE id`: exactly the rows with another id remain, in order. |
| Store.Database.DeleteMissions | server/routers.ts:274 | `DELETE FROM missions WHERE id`, as DeleteRounds. |
| Store.Database.DeleteTopics | server/routers.ts:321 | `DELETE FROM topics WHERE id`, as DeleteRounds. |
| Store.Database.DeleteUsers | server/routers.ts:422 | `DELETE FROM users WHERE id`, as DeleteRounds; openIds stay unique. |
| Db.CopyTextFields | server/db.ts:41-53 | A text field goes into both the values and the update set exactly when it is not undefined. A null is stored as null, never skipped. |
| Db.BuildUpsert | server/db.ts:33-69 | The inserted values and the update set are built as follows. Text fields are copied when not undefined. An explicit role wins, and otherwise the owner's openId gets admin. lastSignedIn is always inserted, and enters the update set when given or as the fallback for an otherwise empty update set. No password is written. |
| Db.MergeOnUpdate | server/db.ts:71-73 | Applying that update set to the existing row gives the merged user. |
| Db.MergeOnInsert | server/db.ts:71-73 | Inserting those values as a new row gives the merged user over the column defaults. |
| Db.UpsertUser | server/db.ts:21-78 | A missing or empty openId fails with "User openId is required for upsert" and changes nothing. With no database the call does nothing. Otherwise, afterwards the openId finds the merged row. Every other openId finds what it found before, and the users table grows by one row exactly when the openId was new. |
| Db.UserByOpenId | server/db.ts:86-88 | The lookup finds nothing exactly when no row has the openId. Otherwise it finds a row of the table with that openId. |
| Db.UpsertLookup | server/db.ts:71-73 | After an upsert the openId finds either the old row with the update set applied or the inserted row. |
| Db.UpsertLookupOthers | server/db.ts:71-73 | An upsert leaves what every other openId finds unchanged. |
| Db.UpsertOutcome | server/db.ts:33-73 | An upsert built from the record yields the merged user for its openId and changes no other openId's row. |
| Db.GetUserByOpenId | server/db.ts:80-90 | With no database the result is undefined (None). Otherwise it is the row with that openId. |
| Db.RoundsByOrder | server/db.ts:96 | The rounds in ascending `order`: a permutation of the table, sorted. |
| Db.GetRounds | server/db.ts:93-98 | With no database, an empty list. Otherwise every round in ascending `order`. |
| Db.GetRoundById | server/db.ts:100-105 | Nothing exactly when no round has the id. Otherwise a row of the table with that id. With no database, nothing. |
| Db.MissionsOfRound | server/db.ts:111 | Exactly the round's missions, each as often as in the table, in ascending `order`. |
| Db.MissionsOfRoundInOrder | server/db.ts:111 | When the round's missions have distinct orders, already ascending, they come back in table order. |
| Db.GetMissionsByRoundId | server/db.ts:108-113 | The round's missions ordered by `order`. With no database, an empty list. |
| Db.GetMissionById | server/db.ts:115-120 | Nothing exactly when no mission has the id. Otherwise that mission. With no database, nothing. |
| Db.TopicsOfMission | server/db.ts:130 | Exactly the mission's topics, each as often as in the table, in ascending `order`. |
| Db.TopicsOfMissionInOrder | server/db.ts:130 | When the mission's topics have distinct orders, already ascending, they come back in table order. |
| Db.GetTopicsByMissionId | server/db.ts:123-133 | The mission's topics ordered by `order`. With no database, an empty list. |
| Db.GetTopicById | server/db.ts:135-140 | Nothing exactly when no topic has the id. Otherwise that topic. With no database, nothing. |
| Db.FindProgress | server/db.ts:146 | Nothing exactly when the pair has no row. Otherwise a row of the ledger for that (userId, topicId). |
| Db.GetUserProgress | server/db.ts:143-148 | The pair's row, found with `LIMIT 1`. With no database, nothing. |
| Db.GetUserProgressByUserId | server/db.ts:150-155 | Exactly the user's progress rows, each as often as in the table. With no database, an empty list. |
| Db.GetAttachmentsByRoundId | server/db.ts:158-163 | Always empty, whatever the store holds. |
| Db.GetAttachmentById | server/db.ts:165-170 | Nothing exactly when no attachment has the id. Otherwise that attachment. With no database, nothing. |
| Db.CommentsOfMission | server/db.ts:176 | Exactly the mission's comments, each as often as in the table, newest first. |
| Db.GetCommentsByMissionId | server/db.ts:173-178 | The mission's comments newest first. With no database, an empty list. |
| Db.NewestCommentFirst | server/db.ts:176 | A comment stamped later than every other comment of its mission heads that mission's list. |
| Db.CreateComment | server/db.ts:180-185 | With no database the call fails with "Database not available". Otherwise exactly one comment row is appended, stamped with the clock, and its id is returned. |
| Db.AttachmentsOfTopic | server/db.ts:191 | Exactly the topic's attachments, each as often as in the table, newest first. |
| Db.GetAttachmentsByTopicId | server/db.ts:188-193 | The topic's attachments newest first. With no database, an empty list. |
| Db.GetAttachmentsByMissionId | server/db.ts:196-201 | Always empty, whatever the store holds. |
| Db.Uploader | server/db.ts:221 | An absent or zero uploader becomes user 1. Any other uploader is kept. |
| Db.InsertAttachment | server/db.ts:203-224 | With no database the call fails with "Database not available". Otherwise one attachment row is appended with the given fields, `uploadedBy \|\| 1` and the clock, and its id is returned. |
| Db.Percentage | server/db.ts:260 | Round-half-up of 100·completed/total: the integer r with 2·total·r − total ≤ 200·completed < 2·total·r + total. It is at most 100 when completed ≤ total. |
| Db.PercentageMonotone | server/db.ts:260 | Completing more topics never lowers the percentage. |
| Db.RoundMissionId | server/db.ts:232-238 | A mission id is among the ids of the round's missions exactly when some mission of that round has it. |
| Db.RoundTopicsBySelection | server/db.ts:240-244 | Selecting topics by `inArray(missionId, missionIds)` selects exactly the topics under some mission of the round. |
| Db.NoMissionNoTopic | server/db.ts:235-237 | A round with no mission has no topic. |
| Db.CompletedBySelection | server/db.ts:251-259 | Selecting progress rows by the list of topic ids is selecting by the set of the round's topic ids. |
| Db.RoundProgressOf | server/db.ts:231-262 | totalTopics is the number of topics under some mission of the round. A round with no mission or no topic gets {0,0,0}. Otherwise completedTopics counts this user's rows with completed = 1 on a topic of the round, and percentage is their half-up percentage. |
| Db.GetRoundProgress | server/db.ts:227-263 | {0,0,0} with no database. Otherwise the round's progress on the tables. |
| Db.CompletedRowsBound | server/db.ts:251-259 | With one row per (user, topic), a user's completed rows among some topic ids number at most those ids. |
| Db.IdImageBound | server/db.ts:254 | A set of ids taken from rows is no larger than the rows. |
| Db.RoundProgressBounded | server/db.ts:227-263 | With one row per (user, topic), completedTopics ≤ totalTopics and the percentage lies in 0..100. |
| Routers.Validate | server/routers.ts:26-30 | The input passes exactly when it is an object holding every required key. Failure is "Invalid input". The parsed input holds exactly the required and optional keys present, with their values. |
| Routers.ExtraKeyIgnored | server/routers.ts:160-167 | A key a procedure does not read neither makes its input fail nor reaches the parsed input. |
| Routers.RequireAdmin | server/routers.ts:196 | Passes exactly for an admin. Otherwise "Unauthorized". |
| Routers.Toggle | server/routers.ts:77-105 | The result is the negation of whether the pair was completed. With no row, one row is appended with completed 1 and the clock, and the counter advances. With a row, the table keeps its length. Every row of another pair is unchanged. Every row of the pair now holds 1 and the clock when the result is true, and 0 and null otherwise. |
| Routers.ToggleTopicProgress | server/routers.ts:64-106 | With no database the call fails. Otherwise only the ledger changes, exactly as Toggle says, and invariant `Valid()` is kept. |
| Routers.FindAfterSet | server/routers.ts:86-92 | After an UPDATE of the pair, the lookup finds the same row with the new values. |
| Routers.ToggleFlips | server/routers.ts:84-104 | After a toggle the pair has a row. It holds 1 and a timestamp exactly when the toggle returned true, so the returned flag is the new state. |
| Routers.ToggleOthers | server/routers.ts:77-104 | A toggle leaves what every other (user, topic) pair finds unchanged. |
| Routers.TogglePreservesOnePerPair | server/routers.ts:77-104 | A toggle keeps at most one ledger row per (user, topic). |
| Routers.DoubleToggleRestores | server/routers.ts:86 | Two toggles of a pair holding 0 or 1 restore its value without adding a row. |
| Routers.ToggleAlternates | server/routers.ts:86-104 | Successive toggles return true, false, true, … from a pair not completed, and false, true, … from a completed one. |
| Routers.ToggleCount | server/routers.ts:77-104 | With one row per pair, a user's completed rows among some topics go up by one when that user's toggle of one of them returns true, and down by one when it returns false. They do not change otherwise. |
| Routers.ToggleRoundProgress | server/routers.ts:64-106 | A toggle keeps a round's totalTopics. The toggling user's completed count moves by one exactly for a topic of that round, and nothing moves otherwise. A toggle that returns true never lowers the percentage. |
| Routers.OrNull | server/routers.ts:205 | `description \|\| null`: an absent or empty description becomes null. Any other is kept. |
| Routers.CreateRound | server/routers.ts:195-210 | A non-admin gets "Unauthorized" and nothing changes. Otherwise exactly one round is appended with order 0 and `description \|\| null`, its id is returned, and it is what lookup by that id finds. |
| Routers.CreateMission | server/routers.ts:241-257 | As CreateRound, for one mission under the given round. The mission is then among that round's missions. |
| Routers.CreateTopic | server/routers.ts:288-304 | As CreateRound, for one topic under the given mission. The topic is then among that mission's topics. |
| Routers.DeleteRound | server/routers.ts:218-229 | Non-admins are refused. Otherwise only the round with that id goes: every other id finds what it found before, and the round's missions stay. |
| Routers.DeleteMission | server/routers.ts:265-276 | Non-admins are refused. Otherwise only the mission with that id goes: its topics and comments stay. |
| Routers.DeleteTopic | server/routers.ts:312-323 | Non-admins are refused. Otherwise only the topic with that id goes: its attachments and progress rows stay. |
| Routers.GetUsers | server/routers.ts:325-334 | Every user row, for an admin only. |
| Routers.ParseNatToString | server/routers.ts:363 | The decimal digits of a timestamp read back as that timestamp. |
| Routers.TempOpenId | server/routers.ts:363 | The temporary openId is `temp-` followed by the digits of the clock reading. |
| Routers.TempOpenIdInjective | server/routers.ts:363 | Users created at different milliseconds get different temporary openIds. |
| Routers.CreateUser | server/routers.ts:347-367 | Non-admins are refused. A temporary openId already taken fails as a duplicate entry and changes nothing. Otherwise one user is appended with the given name, email and role (default `user`) and the clock as lastSignedIn. The password is hashed and not stored. |
| Routers.AssembleUserUpdate | server/routers.ts:390-395 | The update set holds the name when truthy, the role when given and the hashed password when truthy, and nothing else. It is empty exactly when none of them is supplied. |
| Routers.UpdateUser | server/routers.ts:380-405 | Non-admins are refused. Nothing supplied gives "No fields to update" and no change. A password alone passes that guard, but the UPDATE then names no users column and the store refuses it, with no change. Otherwise only the user with that id changes, in exactly the supplied name and role. |
| Routers.DeleteUser | server/routers.ts:413-424 | Non-admins are refused. Otherwise exactly the users with that id are removed. |
| Routers.AddComment | server/routers.ts:168-182 | Any signed-in user's comment is appended, stamped with the clock, and is then among the mission's comments. |
| Seed.TopicsOfPrefix | seed-db.mjs:43-51 | The topics rows of the first missions do not depend on the missions after them. |
| Seed.TopicsAppend | seed-db.mjs:43-51 | The topics rows of two runs of missions are those of the first run followed by those of the second. |
| Seed.SeedFromEmpty | seed-db.mjs:22-57 | The nested loops run on empty tables give the flattened tables: rounds, missions and topics with consecutive ids from the counters, and the counters advanced by the row counts. |
| Seed.SeededRoundsInOrder | seed-db.mjs:22-56 | Seeded rounds carry orders 1..n, so getRounds lists them in input order. |
| Seed.MissionRowsLayout | seed-db.mjs:33-40 | Mission row g has the g-th input mission's name, a consecutive id and description ''. |
| Seed.MissionRowsOfRound | seed-db.mjs:30-40 | Once round i is in, the mission rows under its id are exactly its own missions. |
| Seed.SeededMissionsOfRound | seed-db.mjs:30-54 | After seeding, getMissionsByRoundId on the i-th round lists exactly that round's input missions in input order, with orders 1, 2, …. |
| Seed.TopicRowsOfMission | seed-db.mjs:40-51 | Once mission j is in, the topic rows under its id are exactly its own topics. |
| Seed.SeededTopicsOfMission | seed-db.mjs:40-51 | After seeding, getTopicsByMissionId on the j-th mission lists exactly its input topics in input order, with orders 1, 2, …. |
| Seed.SeededLayout | seed-db.mjs:22-57 | Every seeded description is ''. Mission rows follow the input missions. There are as many topic rows as input topics. |
| Seed.SeedTopics | seed-db.mjs:43-51 | The inner loop appends the mission's topics with orders 1, 2, … and consecutive ids. |
| Seed.SeedMissions | seed-db.mjs:33-54 | The middle loop adds the round's missions and their topics as the flattening says. |
| Seed.SeedRounds | seed-db.mjs:22-57 | The outer loop adds every round, its missions and their topics as the flattening says. |
| Seed.Reseed | seed-db.mjs:14-57 | userProgress and attachments end up empty, comments and users are untouched, and the course tables are the flattened input. |
| Seed.Seed | seed-db.mjs:5-57 | An unset or empty DATABASE_URL (`!dbUrl`) stops the script with nothing changed. Otherwise the tables are as Reseed says. |

## Left out

- Floating point: `Math.round(completed / total * 100)` is modelled as exact round-half-up on integers, `(200·c + t) / (2·t)`. Float error in the quotient is not modelled.
- Integer widths: ids, counters, orders and timestamps are unbounded integers. The 32-bit `int` columns never overflow in the model.
- Concurrency: every procedure runs alone and each SQL statement is atomic. Two simultaneous toggles are not modelled: the source reads and then writes without a transaction, so a race could insert two rows for one pair.
- getDb's connection cache, the console logging and the seed script's `process.exit`: I/O only. The database is a possibly-null parameter instead.
- Authentication: `ctx.user` is a parameter. `auth.me` and `auth.logout` (session cookies) are not modelled.
- The upload endpoint in `server/_core/index.ts` (Express, multer, S3) is not part of this model. `insertAttachment` is modelled as the store call it makes.
- bcrypt: `bcrypt.hash` is an abstract `HashCell` holding the plain password. The users table has no password column, so no password is ever stored.
- Routers.UpdateUser: what the ORM and the engine do with a `password` key that is not a column cannot be read from this source. The model assumes the key is dropped from the SET clause. Next to another field it then changes nothing. Alone it leaves an empty SET clause, which the store refuses (`EmptySetClause`, with an assumed message). Routers.CreateUser likewise assumes the password key is ignored on INSERT.
- `createdAt`/`updatedAt`: these are modelled only where a query orders by them (comments, attachments). `updatedAt` and `onUpdateNow` are not modelled.
- Cascade deletes: the code deletes single rows only (`server/routers.ts:227`, `:274`, `:321`). The model does the same and proves that children stay. Whether deleting a round or mission should also remove its missions or topics is left open by the code; orphaned children are representable because the schema declares no foreign keys (`drizzle/schema.ts:43`, `:56`).
- No delete of attachments or comments: the server has no such procedure.
- The course query procedures of `server/routers.ts` that only validate and forward to a getter are not modelled separately: the getters and `Routers.Validate` cover them. `getAllRoundsProgress`, which a page calls, does not exist in the routers and is not modelled.
- Seed input: reading and parsing `estrutura_curso.json` is not modelled. The parsed list is a parameter. A failed insert half-way through the seed, and the partial state it leaves, are not modelled: every statement succeeds.
- Ties in ORDER BY: SQL leaves the order of equal keys open. The model sorts stably, but the getters' contracts state only "sorted and a permutation". Db.MissionsOfRoundInOrder and Db.TopicsOfMissionInOrder promise table order only for strictly ascending orders, where SQL's order is fixed too. The seed lemmas use them with orders 1, 2, …. Content created by the admin procedures has order 0 throughout, so its listing order is not modelled.
- Routers.ToggleTopicProgress: the `completed` column may hold values other than 0 and 1, which it treats as not completed. Double-toggle restoration is stated only for 0/1 values, as the source's flip does not restore other values.
- Routers.CreateUser: `role as 'admin' | 'user'` is an unchecked cast in the source. The model takes the role as an already-valid `Role`.
- Field types of the inputs: every validator reads its fields with an unchecked `as number` / `as string` / `as 'admin' | 'user'` (`server/routers.ts:26-30`, `:64-68`, `:160-167`, `:187-194`, `:213-217`, `:232-240`, `:260-264`, `:279-287`, `:307-311`, `:337-346`, `:370-379`, `:408-412`). A payload such as `{topicId: null}` or `{name: 5}` therefore passes Routers.Validate. Routers.ToggleTopicProgress, CreateRound, CreateMission, CreateTopic, DeleteRound, DeleteMission, DeleteTopic, CreateUser, UpdateUser, DeleteUser and AddComment take typed arguments: the model assumes every field carries its declared type. What the store does with an ill-typed value is not modelled, and nothing links Validate's parsed map to those arguments.
- Engine semantics the store idealises:
  - strings compare as exact character sequences, while MySQL's usual case-insensitive collation would make the UNIQUE openId index (`drizzle/schema.ts:15`) treat "Alice" and "alice" as one key (Store.UpsertRows, Store.Database.InsertUser, Db.UserByOpenId);
  - no varchar length limit is enforced (`drizzle/schema.ts:15-18`, `:31` and the other varchar columns);
  - timestamps keep the clock value given, while `timestamp` columns without fractional seconds keep whole seconds, so the store may tie comments or attachments that the model orders (Db.NewestCommentFirst assumes distinct stored stamps);
  - the auto-increment counter advances only when a row is inserted, while InnoDB may also use up a value on the update path of ON DUPLICATE KEY UPDATE and on a refused duplicate insert (Store.Database.UpsertUser, Store.Database.InsertUser), so ids may have gaps the model does not show.
