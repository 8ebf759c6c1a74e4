/**
 * The tRPC procedures of the server (server/routers.ts): the input
 * validators, the admin role gate, the progress toggle, the admin
 * create/delete and user-management mutations, and addComment.
 *
 * `ctx: User` is the signed-in user a protected procedure receives, `now`
 * is the clock reading of `new Date()` / `Date.now()`, and `db: Database?`
 * is what getDb() returns.
 */
module Routers {
  import opened Wrappers
  import opened Seqs
  import opened Schema
  import opened Errors
  import opened Store
  import opened Db

  // ------------------------------------------------------------ validators

  /** A deserialised request body. */
  datatype Json =
    | JNull
    | JBool(b: bool)
    | JNum(n: int)
    | JStr(s: string)
    | JArr(items: seq<Json>)
    | JObj(fields: map<string, Json>)

  /** The procedures that take an input. */
  datatype Procedure =
    | CourseGetRoundById | CourseGetMissionsByRoundId | CourseGetTopicsByMissionId
    | CourseToggleTopicProgress | CourseGetAttachmentsByRoundId | CourseGetAttachmentsByMissionId
    | CourseGetAttachmentsByTopicId | CourseGetRoundProgress | CourseGetCommentsByMissionId
    | CourseAddComment
    | AdminCreateRound | AdminDeleteRound | AdminCreateMission | AdminDeleteMission
    | AdminCreateTopic | AdminDeleteTopic | AdminCreateUser | AdminUpdateUser | AdminDeleteUser

  /** The keys the validator checks with `'key' in val`. */
  function Required(p: Procedure): seq<string> {
    match p
    case CourseGetRoundById => ["id"]
    case CourseGetMissionsByRoundId => ["roundId"]
    case CourseGetTopicsByMissionId => ["missionId"]
    case CourseToggleTopicProgress => ["topicId"]
    case CourseGetAttachmentsByRoundId => ["roundId"]
    case CourseGetAttachmentsByMissionId => ["missionId"]
    case CourseGetAttachmentsByTopicId => ["topicId"]
    case CourseGetRoundProgress => ["roundId"]
    case CourseGetCommentsByMissionId => ["missionId"]
    case CourseAddComment => ["missionId", "content"]
    case AdminCreateRound => ["name"]
    case AdminDeleteRound => ["roundId"]
    case AdminCreateMission => ["roundId", "name"]
    case AdminDeleteMission => ["missionId"]
    case AdminCreateTopic => ["missionId", "name"]
    case AdminDeleteTopic => ["topicId"]
    case AdminCreateUser => ["email", "name", "password"]
    case AdminUpdateUser => ["id"]
    case AdminDeleteUser => ["userId"]
  }

  /** The keys the validator copies when present without demanding them. */
  function Optional(p: Procedure): seq<string> {
    match p
    case AdminCreateRound => ["description"]
    case AdminCreateMission => ["description"]
    case AdminCreateTopic => ["description"]
    case AdminCreateUser => ["role"]
    case AdminUpdateUser => ["name", "password", "role"]
    case _ => []
  }

  /**
   * The input validator of a procedure: an object (not null) holding every
   * required key passes, and the parsed input is that object cut down to
   * the keys the procedure reads; anything else is "Invalid input".
   */
  function Validate(p: Procedure, val: Json): (r: Result<map<string, Json>, Error>)
    ensures r.Err? ==> r.error == InvalidInput
    ensures r.Ok? <==> val.JObj? && forall k :: k in Required(p) ==> k in val.fields
    ensures r.Ok? ==> forall k :: k in r.value <==> k in val.fields && (k in Required(p) || k in Optional(p))
    ensures r.Ok? ==> forall k :: k in r.value ==> r.value[k] == val.fields[k]
  {
    if val.JObj? && forall k :: k in Required(p) ==> k in val.fields then
      Ok(map k | k in val.fields && (k in Required(p) || k in Optional(p)) :: val.fields[k])
    else
      Err(InvalidInput)
  }

  /** Keys a procedure does not read neither make its input fail nor reach the parsed input. */
  lemma ExtraKeyIgnored(p: Procedure, fields: map<string, Json>, k: string, v: Json)
    requires k !in Required(p) && k !in Optional(p)
    ensures Validate(p, JObj(fields[k := v])) == Validate(p, JObj(fields))
  {
    var wider := fields[k := v];
    var a := Validate(p, JObj(wider));
    var b := Validate(p, JObj(fields));
    assert forall key :: key in Required(p) ==> (key in wider <==> key in fields);
    assert a.Ok? == b.Ok?;
    if a.Ok? {
      assert forall key :: key in a.value <==> key in b.value;
      assert forall key :: key in a.value ==> a.value[key] == b.value[key];
      assert a.value == b.value;
    }
  }

  // ------------------------------------------------------------ role gate

  /** `if (ctx.user.role !== 'admin') throw new Error('Unauthorized')`. */
  function RequireAdmin(user: User): (r: Result<(), Error>)
    ensures r.Ok? <==> user.role == AdminRole
    ensures r.Err? ==> r.error == Unauthorized
  {
    if user.role != AdminRole then Err(Unauthorized) else Ok(())
  }

  // ---------------------------------------------------------- progress toggle

  /** Whether the row a `LIMIT 1` lookup finds for the pair says completed. */
  predicate Completed(rows: seq<UserProgress>, userId: int, topicId: int) {
    var f := FindProgress(rows, userId, topicId);
    f.Some? && f.value.completed == 1
  }

  /** The progress table and its counter after a toggle, and the `completed` flag returned. */
  datatype Toggled = Toggled(rows: seq<UserProgress>, nextId: int, completed: bool)

  /**
   * toggleTopicProgress on the progress table (server/routers.ts:77-105):
   * with no row for the pair one row is inserted as completed; otherwise
   * every row of the pair is set to 0 if the row found held 1, and to 1
   * (stamped with the clock) if it held anything else.
   */
  function Toggle(rows: seq<UserProgress>, nextId: int, userId: int, topicId: int, now: int): (r: Toggled)
    ensures r.completed <==> !Completed(rows, userId, topicId)
    ensures FindProgress(rows, userId, topicId).None? ==>
              r.rows == rows + [UserProgress(nextId, userId, topicId, 1, Some(now))] && r.nextId == nextId + 1
    ensures FindProgress(rows, userId, topicId).Some? ==> |r.rows| == |rows| && r.nextId == nextId
    ensures forall i :: 0 <= i < |rows| && ProgressPair(rows[i]) != (userId, topicId) ==> r.rows[i] == rows[i]
    ensures forall i :: 0 <= i < |rows| && ProgressPair(rows[i]) == (userId, topicId) ==>
              r.rows[i] == rows[i].(completed := if r.completed then 1 else 0,
                                    completedAt := if r.completed then Some(now) else None)
  {
    match FindProgress(rows, userId, topicId)
    case Some(existing) =>
      var newStatus := if existing.completed == 1 then 0 else 1;
      Toggled(SetProgress(rows, userId, topicId, newStatus, if newStatus == 1 then Some(now) else None),
              nextId, newStatus == 1)
    case None =>
      Toggled(rows + [UserProgress(nextId, userId, topicId, 1, Some(now))], nextId + 1, true)
  }

  /** toggleTopicProgress (server/routers.ts:64-106). */
  method ToggleTopicProgress(db: Database?, ctx: User, topicId: int, now: int) returns (r: Result<bool, Error>)
    requires db != null ==> db.Valid()
    modifies db
    ensures db == null ==> r == Err(DatabaseNotAvailable)
    ensures db != null ==>
              && db.Valid() && UnchangedExcept(db, {ProgressTable})
              && (var t := Toggle(old(db.progress), old(db.nextProgressId), ctx.id, topicId, now);
                  r == Ok(t.completed) && db.progress == t.rows && db.nextProgressId == t.nextId)
  {
    if db == null {
      return Err(DatabaseNotAvailable);
    }
    var existing := FindProgress(db.progress, ctx.id, topicId);
    if existing.Some? {
      var newStatus := if existing.value.completed == 1 then 0 else 1;
      db.UpdateProgress(ctx.id, topicId, newStatus, if newStatus == 1 then Some(now) else None);
      r := Ok(newStatus == 1);
    } else {
      var _ := db.InsertProgress(ctx.id, topicId, 1, Some(now));
      r := Ok(true);
    }
  }

  /** The pair's lookup after an UPDATE of the pair finds the same row with the new values. */
  lemma {:induction false} FindAfterSet(rows: seq<UserProgress>, userId: int, topicId: int,
                                        completed: int, completedAt: Option<int>)
    ensures FindProgress(SetProgress(rows, userId, topicId, completed, completedAt), userId, topicId) ==
              match FindProgress(rows, userId, topicId)
              case None => None
              case Some(p) => Some(p.(completed := completed, completedAt := completedAt))
  {
    if rows != [] {
      var s := SetProgress(rows, userId, topicId, completed, completedAt);
      assert s[1..] == SetProgress(rows[1..], userId, topicId, completed, completedAt);
      FindAfterSet(rows[1..], userId, topicId, completed, completedAt);
    }
  }

  /**
   * After a toggle the pair has a row, it holds 1 and a timestamp exactly
   * when the toggle returned true and 0 and null otherwise, so the
   * returned flag is the new state.
   */
  lemma ToggleFlips(rows: seq<UserProgress>, nextId: int, userId: int, topicId: int, now: int)
    ensures var r := Toggle(rows, nextId, userId, topicId, now);
            var f := FindProgress(r.rows, userId, topicId);
            && f.Some?
            && f.value.completed == (if r.completed then 1 else 0)
            && f.value.completedAt == (if r.completed then Some(now) else None)
            && Completed(r.rows, userId, topicId) == r.completed
  {
    var r := Toggle(rows, nextId, userId, topicId, now);
    match FindProgress(rows, userId, topicId)
    case Some(existing) =>
      FindAfterSet(rows, userId, topicId, if r.completed then 1 else 0, if r.completed then Some(now) else None);
    case None =>
      FirstWithAppend(rows, UserProgress(nextId, userId, topicId, 1, Some(now)), OfPair(userId, topicId));
  }

  /** A toggle leaves what every other (user, topic) pair finds unchanged. */
  lemma ToggleOthers(rows: seq<UserProgress>, nextId: int, userId: int, topicId: int, now: int,
                     otherUser: int, otherTopic: int)
    requires (otherUser, otherTopic) != (userId, topicId)
    ensures FindProgress(Toggle(rows, nextId, userId, topicId, now).rows, otherUser, otherTopic)
         == FindProgress(rows, otherUser, otherTopic)
  {
    var r := Toggle(rows, nextId, userId, topicId, now);
    if FindProgress(rows, userId, topicId).Some? {
      FirstWithSameSelection(rows, r.rows, OfPair(otherUser, otherTopic));
    } else {
      FirstWithAppend(rows, UserProgress(nextId, userId, topicId, 1, Some(now)), OfPair(otherUser, otherTopic));
    }
  }

  /** A toggle inserts only when the pair has no row, so it keeps one row per pair. */
  lemma TogglePreservesOnePerPair(rows: seq<UserProgress>, nextId: int, userId: int, topicId: int, now: int)
    requires AtMostOnePerPair(rows)
    ensures AtMostOnePerPair(Toggle(rows, nextId, userId, topicId, now).rows)
  {
    var r := Toggle(rows, nextId, userId, topicId, now);
    if FindProgress(rows, userId, topicId).Some? {
      assert forall i :: 0 <= i < |rows| ==> ProgressPair(r.rows[i]) == ProgressPair(rows[i]);
    } else {
      assert forall i :: 0 <= i < |rows| ==> ProgressPair(rows[i]) != ProgressPair(r.rows[|rows|]);
    }
  }

  /** Two toggles of a pair whose row holds 0 or 1 restore that value without adding a row. */
  lemma DoubleToggleRestores(rows: seq<UserProgress>, nextId: int, userId: int, topicId: int, now1: int, now2: int)
    requires FindProgress(rows, userId, topicId).Some?
    requires FindProgress(rows, userId, topicId).value.completed in {0, 1}
    ensures var t1 := Toggle(rows, nextId, userId, topicId, now1);
            var t2 := Toggle(t1.rows, t1.nextId, userId, topicId, now2);
            && |t2.rows| == |rows| && t2.nextId == nextId
            && FindProgress(t2.rows, userId, topicId).Some?
            && FindProgress(t2.rows, userId, topicId).value.completed == FindProgress(rows, userId, topicId).value.completed
  {
    var t1 := Toggle(rows, nextId, userId, topicId, now1);
    ToggleFlips(rows, nextId, userId, topicId, now1);
    ToggleFlips(t1.rows, t1.nextId, userId, topicId, now2);
  }

  /** The flags returned by toggling one pair at each of the given clock readings in turn. */
  function ToggleSeries(rows: seq<UserProgress>, nextId: int, userId: int, topicId: int, times: seq<int>): (r: seq<bool>)
    ensures |r| == |times|
    decreases |times|
  {
    if times == [] then []
    else
      var t := Toggle(rows, nextId, userId, topicId, times[0]);
      [t.completed] + ToggleSeries(t.rows, t.nextId, userId, topicId, times[1..])
  }

  /**
   * Successive toggles of a pair alternate: from a pair not completed they
   * return true, false, true, ...; from a completed one false, true, ...
   */
  lemma {:induction false} ToggleAlternates(rows: seq<UserProgress>, nextId: int, userId: int, topicId: int,
                                            times: seq<int>)
    decreases |times|
    ensures forall k :: 0 <= k < |times| ==>
              ToggleSeries(rows, nextId, userId, topicId, times)[k] == (Completed(rows, userId, topicId) == (k % 2 == 1))
  {
    if times != [] {
      var t := Toggle(rows, nextId, userId, topicId, times[0]);
      ToggleFlips(rows, nextId, userId, topicId, times[0]);
      ToggleAlternates(t.rows, t.nextId, userId, topicId, times[1..]);
      var r := ToggleSeries(rows, nextId, userId, topicId, times);
      var rest := ToggleSeries(t.rows, t.nextId, userId, topicId, times[1..]);
      assert r == [t.completed] + rest;
      assert Completed(t.rows, userId, topicId) == !Completed(rows, userId, topicId);
      forall k | 0 <= k < |r| ensures r[k] == (Completed(rows, userId, topicId) == (k % 2 == 1)) {
        if k == 0 {
          assert r[0] == t.completed;
        } else {
          assert r[k] == rest[k - 1];
          assert 0 <= k - 1 < |rest|;
          assert rest[k - 1] == (Completed(t.rows, userId, topicId) == ((k - 1) % 2 == 1));
          assert (k - 1) % 2 == 1 <==> k % 2 == 0;
        }
      }
    }
  }

  /**
   * Under one row per pair, a user's completed rows among a set of topics
   * change by one when that user toggles one of those topics (up when the
   * toggle returns true, down otherwise) and not at all for any other
   * user or topic.
   */
  lemma ToggleCount(rows: seq<UserProgress>, nextId: int, userId: int, topicId: int, now: int,
                    viewer: int, ids: set<int>)
    requires AtMostOnePerPair(rows)
    ensures var r := Toggle(rows, nextId, userId, topicId, now);
            |Filter(r.rows, CompletedIn(viewer, ids))| ==
              |Filter(rows, CompletedIn(viewer, ids))| +
              (if viewer == userId && topicId in ids then (if r.completed then 1 else -1) else 0)
  {
    var r := Toggle(rows, nextId, userId, topicId, now);
    var counted := CompletedIn(viewer, ids);
    match FindProgress(rows, userId, topicId)
    case None =>
      var row := UserProgress(nextId, userId, topicId, 1, Some(now));
      FilterConcat(rows, [row], counted);
      assert [row][1..] == [];
    case Some(p) =>
      var k :| 0 <= k < |rows| && rows[k] == p;
      forall i | 0 <= i < |rows| && i != k ensures r.rows[i] == rows[i] {
        assert ProgressPair(rows[i]) != ProgressPair(rows[k]);
      }
      if viewer == userId && topicId in ids {
        if r.completed {
          FilterPointChange(rows, r.rows, counted, k);
        } else {
          FilterPointChange(r.rows, rows, counted, k);
        }
      } else {
        FilterSameSelection(rows, r.rows, counted);
      }
  }

  /**
   * What a toggle does to getRoundProgress: the total stays, the viewer's
   * completed count moves by one exactly when the viewer toggled a topic
   * of the round, and a toggle that returns true never lowers the
   * percentage.
   */
  lemma ToggleRoundProgress(missions: seq<Mission>, topics: seq<Topic>, progress: seq<UserProgress>,
                            nextId: int, userId: int, topicId: int, now: int, viewer: int, roundId: int)
    requires AtMostOnePerPair(progress)
    ensures var r := Toggle(progress, nextId, userId, topicId, now);
            var before := RoundProgressOf(missions, topics, progress, viewer, roundId);
            var after := RoundProgressOf(missions, topics, r.rows, viewer, roundId);
            var moves := viewer == userId && topicId in RoundTopicIds(missions, topics, roundId);
            && after.totalTopics == before.totalTopics
            && (moves ==> after.completedTopics == before.completedTopics + (if r.completed then 1 else -1))
            && (!moves ==> after == before)
            && (r.completed && after.totalTopics > 0 ==> after.percentage >= before.percentage)
  {
    var r := Toggle(progress, nextId, userId, topicId, now);
    var ids := RoundTopicIds(missions, topics, roundId);
    ToggleCount(progress, nextId, userId, topicId, now, viewer, ids);
    if viewer == userId && topicId in ids {
      var t :| t in topics && TopicInRound(missions, roundId)(t) && t.id == topicId;
      FilterMembers(topics, TopicInRound(missions, roundId));
      assert t in Filter(topics, TopicInRound(missions, roundId));
    }
    var before := RoundProgressOf(missions, topics, progress, viewer, roundId);
    var after := RoundProgressOf(missions, topics, r.rows, viewer, roundId);
    if r.completed && after.totalTopics > 0 {
      PercentageMonotone(before.completedTopics, after.completedTopics, after.totalTopics);
    }
  }

  // ------------------------------------------------------ admin: content

  /** `description || null`: an absent or empty description is stored as null. */
  function OrNull(description: Option<string>): (r: Option<string>)
    ensures r.None? <==> description.None? || description == Some("")
    ensures r.Some? ==> r == description
  {
    if description.Some? && description.value != "" then description else None
  }

  /** admin.createRound (server/routers.ts:195-210): one round with order 0; returns its id. */
  method CreateRound(db: Database?, ctx: User, name: string, description: Option<string>)
    returns (r: Result<int, Error>)
    requires db != null ==> db.Valid()
    modifies db
    ensures ctx.role != AdminRole ==> r == Err(Unauthorized) && (db != null ==> unchanged(db))
    ensures ctx.role == AdminRole && db == null ==> r == Err(DatabaseNotAvailable)
    ensures ctx.role == AdminRole && db != null ==>
              && r == Ok(old(db.nextRoundId)) && UnchangedExcept(db, {RoundsTable})
              && db.rounds == old(db.rounds) + [Round(r.value, name, OrNull(description), 0)]
              && GetRoundById(db, r.value) == Some(Round(r.value, name, OrNull(description), 0))
    ensures db != null ==> db.Valid()
  {
    var gate := RequireAdmin(ctx);
    if gate.Err? {
      return Err(gate.error);
    }
    if db == null {
      return Err(DatabaseNotAvailable);
    }
    FreshKeyLookup(db.rounds, RoundId, db.nextRoundId, Round(db.nextRoundId, name, OrNull(description), 0));
    var id := db.InsertRound(name, OrNull(description), 0);
    r := Ok(id);
  }

  /** admin.createMission (server/routers.ts:241-257): one mission under the given round, order 0. */
  method CreateMission(db: Database?, ctx: User, roundId: int, name: string, description: Option<string>)
    returns (r: Result<int, Error>)
    requires db != null ==> db.Valid()
    modifies db
    ensures ctx.role != AdminRole ==> r == Err(Unauthorized) && (db != null ==> unchanged(db))
    ensures ctx.role == AdminRole && db == null ==> r == Err(DatabaseNotAvailable)
    ensures ctx.role == AdminRole && db != null ==>
              && r == Ok(old(db.nextMissionId)) && UnchangedExcept(db, {MissionsTable})
              && db.missions == old(db.missions) + [Mission(r.value, roundId, name, OrNull(description), 0)]
              && GetMissionById(db, r.value) == Some(Mission(r.value, roundId, name, OrNull(description), 0))
              && Mission(r.value, roundId, name, OrNull(description), 0) in GetMissionsByRoundId(db, roundId)
    ensures db != null ==> db.Valid()
  {
    var gate := RequireAdmin(ctx);
    if gate.Err? {
      return Err(gate.error);
    }
    if db == null {
      return Err(DatabaseNotAvailable);
    }
    var row := Mission(db.nextMissionId, roundId, name, OrNull(description), 0);
    FreshKeyLookup(db.missions, MissionId, db.nextMissionId, row);
    var id := db.InsertMission(roundId, name, OrNull(description), 0);
    assert row in multiset(db.missions);
    assert row in multiset(GetMissionsByRoundId(db, roundId));
    r := Ok(id);
  }

  /** admin.createTopic (server/routers.ts:288-304): one topic under the given mission, order 0. */
  method CreateTopic(db: Database?, ctx: User, missionId: int, name: string, description: Option<string>)
    returns (r: Result<int, Error>)
    requires db != null ==> db.Valid()
    modifies db
    ensures ctx.role != AdminRole ==> r == Err(Unauthorized) && (db != null ==> unchanged(db))
    ensures ctx.role == AdminRole && db == null ==> r == Err(DatabaseNotAvailable)
    ensures ctx.role == AdminRole && db != null ==>
              && r == Ok(old(db.nextTopicId)) && UnchangedExcept(db, {TopicsTable})
              && db.topics == old(db.topics) + [Topic(r.value, missionId, name, OrNull(description), 0)]
              && GetTopicById(db, r.value) == Some(Topic(r.value, missionId, name, OrNull(description), 0))
              && Topic(r.value, missionId, name, OrNull(description), 0) in GetTopicsByMissionId(db, missionId)
    ensures db != null ==> db.Valid()
  {
    var gate := RequireAdmin(ctx);
    if gate.Err? {
      return Err(gate.error);
    }
    if db == null {
      return Err(DatabaseNotAvailable);
    }
    var row := Topic(db.nextTopicId, missionId, name, OrNull(description), 0);
    FreshKeyLookup(db.topics, TopicId, db.nextTopicId, row);
    var id := db.InsertTopic(missionId, name, OrNull(description), 0);
    assert row in multiset(db.topics);
    assert row in multiset(GetTopicsByMissionId(db, missionId));
    r := Ok(id);
  }

  /**
   * admin.deleteRound (server/routers.ts:218-229): removes the round with
   * that id and nothing else; its missions stay, orphaned.
   */
  method DeleteRound(db: Database?, ctx: User, roundId: int) returns (r: Result<(), Error>)
    requires db != null ==> db.Valid()
    modifies db
    ensures ctx.role != AdminRole ==> r == Err(Unauthorized) && (db != null ==> unchanged(db))
    ensures ctx.role == AdminRole && db == null ==> r == Err(DatabaseNotAvailable)
    ensures ctx.role == AdminRole && db != null ==>
              && r == Ok(()) && UnchangedExcept(db, {RoundsTable})
              && db.rounds == Filter(old(db.rounds), Except(RoundId, roundId))
              && GetRoundById(db, roundId) == None
              && (forall other :: other != roundId ==> GetRoundById(db, other) == old(GetRoundById(db, other)))
              && GetMissionsByRoundId(db, roundId) == old(GetMissionsByRoundId(db, roundId))
    ensures db != null ==> db.Valid()
  {
    var gate := RequireAdmin(ctx);
    if gate.Err? {
      return Err(gate.error);
    }
    if db == null {
      return Err(DatabaseNotAvailable);
    }
    ghost var before := db.rounds;
    db.DeleteRounds(roundId);
    forall other ensures GetRoundById(db, other) == if other == roundId then None else FirstWith(before, WithId(RoundId, other)) {
      DeleteLookup(before, RoundId, roundId, other);
    }
    r := Ok(());
  }

  /**
   * admin.deleteMission (server/routers.ts:265-276): removes the mission
   * with that id and nothing else; its topics and comments stay.
   */
  method DeleteMission(db: Database?, ctx: User, missionId: int) returns (r: Result<(), Error>)
    requires db != null ==> db.Valid()
    modifies db
    ensures ctx.role != AdminRole ==> r == Err(Unauthorized) && (db != null ==> unchanged(db))
    ensures ctx.role == AdminRole && db == null ==> r == Err(DatabaseNotAvailable)
    ensures ctx.role == AdminRole && db != null ==>
              && r == Ok(()) && UnchangedExcept(db, {MissionsTable})
              && db.missions == Filter(old(db.missions), Except(MissionId, missionId))
              && GetMissionById(db, missionId) == None
              && (forall other :: other != missionId ==> GetMissionById(db, other) == old(GetMissionById(db, other)))
              && GetTopicsByMissionId(db, missionId) == old(GetTopicsByMissionId(db, missionId))
              && GetCommentsByMissionId(db, missionId) == old(GetCommentsByMissionId(db, missionId))
    ensures db != null ==> db.Valid()
  {
    var gate := RequireAdmin(ctx);
    if gate.Err? {
      return Err(gate.error);
    }
    if db == null {
      return Err(DatabaseNotAvailable);
    }
    ghost var before := db.missions;
    db.DeleteMissions(missionId);
    forall other
      ensures GetMissionById(db, other) == if other == missionId then None else FirstWith(before, WithId(MissionId, other))
    {
      DeleteLookup(before, MissionId, missionId, other);
    }
    r := Ok(());
  }

  /**
   * admin.deleteTopic (server/routers.ts:312-323): removes the topic with
   * that id and nothing else; its progress rows and attachments stay.
   */
  method DeleteTopic(db: Database?, ctx: User, topicId: int) returns (r: Result<(), Error>)
    requires db != null ==> db.Valid()
    modifies db
    ensures ctx.role != AdminRole ==> r == Err(Unauthorized) && (db != null ==> unchanged(db))
    ensures ctx.role == AdminRole && db == null ==> r == Err(DatabaseNotAvailable)
    ensures ctx.role == AdminRole && db != null ==>
              && r == Ok(()) && UnchangedExcept(db, {TopicsTable})
              && db.topics == Filter(old(db.topics), Except(TopicId, topicId))
              && GetTopicById(db, topicId) == None
              && (forall other :: other != topicId ==> GetTopicById(db, other) == old(GetTopicById(db, other)))
              && GetAttachmentsByTopicId(db, topicId) == old(GetAttachmentsByTopicId(db, topicId))
              && (forall u :: GetUserProgress(db, u, topicId) == old(GetUserProgress(db, u, topicId)))
    ensures db != null ==> db.Valid()
  {
    var gate := RequireAdmin(ctx);
    if gate.Err? {
      return Err(gate.error);
    }
    if db == null {
      return Err(DatabaseNotAvailable);
    }
    ghost var before := db.topics;
    db.DeleteTopics(topicId);
    forall other
      ensures GetTopicById(db, other) == if other == topicId then None else FirstWith(before, WithId(TopicId, other))
    {
      DeleteLookup(before, TopicId, topicId, other);
    }
    r := Ok(());
  }

  // -------------------------------------------------------- admin: users

  /** admin.getUsers (server/routers.ts:325-334): every users row, for an admin. */
  function GetUsers(db: Database?, ctx: User): (r: Result<seq<User>, Error>)
    reads db
    ensures ctx.role != AdminRole ==> r == Err(Unauthorized)
    ensures ctx.role == AdminRole && db == null ==> r == Err(DatabaseNotAvailable)
    ensures ctx.role == AdminRole && db != null ==> r == Ok(db.users)
  {
    if ctx.role != AdminRole then Err(Unauthorized)
    else if db == null then Err(DatabaseNotAvailable)
    else Ok(db.users)
  }

  function DigitChar(d: nat): char
    requires d < 10
  {
    "0123456789"[d]
  }

  /** The decimal digits of `n`, as a template literal prints a non-negative integer. */
  function NatToString(n: nat): (r: string)
    ensures |r| > 0
    decreases n
  {
    if n < 10 then [DigitChar(n)] else NatToString(n / 10) + [DigitChar(n % 10)]
  }

  function DigitValue(c: char): nat {
    if '0' <= c <= '9' then (c as int - '0' as int) as nat else 0
  }

  /** Reads a string of decimal digits back as a number. */
  function ParseNat(s: string): nat
    decreases |s|
  {
    if s == [] then 0 else 10 * ParseNat(s[..|s| - 1]) + DigitValue(s[|s| - 1])
  }

  lemma DigitRoundTrip(d: nat)
    requires d < 10
    ensures DigitValue(DigitChar(d)) == d
  {
    assert "0123456789"[0] == '0';
  }

  lemma {:induction false} ParseNatToString(n: nat)
    decreases n
    ensures ParseNat(NatToString(n)) == n
  {
    var s := NatToString(n);
    if n < 10 {
      DigitRoundTrip(n);
      assert s[..|s| - 1] == [];
    } else {
      ParseNatToString(n / 10);
      DigitRoundTrip(n % 10);
      assert s[..|s| - 1] == NatToString(n / 10);
    }
  }

  /** `temp-${Date.now()}`: the openId createUser gives a user created at `now`. */
  function TempOpenId(now: nat): (r: string)
    ensures |r| > 5 && r[..5] == "temp-"
  {
    "temp-" + NatToString(now)
  }

  /** Users created at different milliseconds get different openIds. */
  lemma TempOpenIdInjective(now1: nat, now2: nat)
    requires now1 != now2
    ensures TempOpenId(now1) != TempOpenId(now2)
  {
    ParseNatToString(now1);
    ParseNatToString(now2);
    assert TempOpenId(now1)[5..] == NatToString(now1);
    assert TempOpenId(now2)[5..] == NatToString(now2);
  }

  /** The users row values createUser inserts; `role || 'user'`. */
  function CreatedUserCells(email: string, name: string, password: string, role: Option<Role>): map<UserField, Cell> {
    map[EmailField := TextCell(Some(email)), NameField := TextCell(Some(name)),
        PasswordField := HashCell(password), RoleField := RoleCell(role.GetOr(UserRole))]
  }

  /**
   * admin.createUser (server/routers.ts:347-367): inserts a user with a
   * temporary openId taken from the clock; a second user created in the
   * same millisecond collides on the openId index.
   */
  method CreateUser(db: Database?, ctx: User, email: string, name: string, password: string,
                    role: Option<Role>, now: nat)
    returns (r: Result<int, Error>)
    requires db != null ==> db.Valid()
    modifies db
    ensures ctx.role != AdminRole ==> r == Err(Unauthorized) && (db != null ==> unchanged(db))
    ensures ctx.role == AdminRole && db == null ==> r == Err(DatabaseNotAvailable)
    ensures ctx.role == AdminRole && db != null ==>
              && UnchangedExcept(db, {UsersTable})
              && (old(HasOpenId(db.users, TempOpenId(now))) ==> r == Err(DuplicateEntry) && unchanged(db))
              && (!old(HasOpenId(db.users, TempOpenId(now))) ==>
                    && r == Ok(old(db.nextUserId))
                    && db.users == old(db.users) +
                         [User(r.value, TempOpenId(now), Some(name), Some(email), None, role.GetOr(UserRole), now)])
    ensures db != null ==> db.Valid()
  {
    var gate := RequireAdmin(ctx);
    if gate.Err? {
      return Err(gate.error);
    }
    if db == null {
      return Err(DatabaseNotAvailable);
    }
    r := db.InsertUser(TempOpenId(now), CreatedUserCells(email, name, password, role), now);
  }

  /** JavaScript truthiness of an optional string: present and not empty. */
  predicate Truthy(s: Option<string>) {
    s.Some? && s.value != ""
  }

  /** What the update set of updateUser holds: each supplied field, and nothing else. */
  predicate UserUpdateCells(name: Option<string>, role: Option<Role>, password: Option<string>,
                            data: map<UserField, Cell>)
  {
    && (NameField in data <==> Truthy(name))
    && (NameField in data ==> data[NameField] == TextCell(Some(name.value)))
    && (RoleField in data <==> role.Some?)
    && (RoleField in data ==> data[RoleField] == RoleCell(role.value))
    && (PasswordField in data <==> Truthy(password))
    && (PasswordField in data ==> data[PasswordField] == HashCell(password.value))
    && EmailField !in data && LoginMethodField !in data && LastSignedInField !in data
  }

  /** Fills the update set of updateUser field by field (server/routers.ts:390-395). */
  method AssembleUserUpdate(name: Option<string>, role: Option<Role>, password: Option<string>)
    returns (data: map<UserField, Cell>)
    ensures UserUpdateCells(name, role, password, data)
    ensures data == map[] <==> !Truthy(name) && role.None? && !Truthy(password)
  {
    data := map[];
    if Truthy(name) {
      data := data[NameField := TextCell(Some(name.value))];
    }
    if role.Some? {
      data := data[RoleField := RoleCell(role.value)];
    }
    if Truthy(password) {
      data := data[PasswordField := HashCell(password.value)];
    }
    assert Truthy(name) ==> NameField in data;
  }

  /** A users row after updateUser: the supplied name and role, the rest as before. */
  function EditedUser(u: User, name: Option<string>, role: Option<Role>): User {
    u.(name := if Truthy(name) then Some(name.value) else u.name,
       role := if role.Some? then role.value else u.role)
  }

  /** Applying updateUser's update set changes exactly the supplied name and role. */
  lemma UserUpdateApplies(u: User, name: Option<string>, role: Option<Role>, password: Option<string>,
                          data: map<UserField, Cell>)
    requires UserUpdateCells(name, role, password, data)
    ensures ApplyCells(u, data) == EditedUser(u, name, role)
  {
  }

  /**
   * admin.updateUser (server/routers.ts:380-405): refuses an update that
   * supplies nothing, otherwise changes only the supplied fields of the
   * user with that id. A password alone passes the guard but names no
   * column of users, so the store refuses the UPDATE.
   */
  method UpdateUser(db: Database?, ctx: User, id: int, name: Option<string>, password: Option<string>,
                    role: Option<Role>)
    returns (r: Result<(), Error>)
    requires db != null ==> db.Valid()
    modifies db
    ensures ctx.role != AdminRole ==> r == Err(Unauthorized) && (db != null ==> unchanged(db))
    ensures ctx.role == AdminRole && db == null ==> r == Err(DatabaseNotAvailable)
    ensures ctx.role == AdminRole && db != null && !Truthy(name) && role.None? && !Truthy(password) ==>
              r == Err(NoFieldsToUpdate) && unchanged(db)
    ensures ctx.role == AdminRole && db != null && !Truthy(name) && role.None? && Truthy(password) ==>
              r == Err(EmptySetClause) && unchanged(db)
    ensures ctx.role == AdminRole && db != null && (Truthy(name) || role.Some?) ==>
              && r == Ok(()) && UnchangedExcept(db, {UsersTable})
              && |db.users| == old(|db.users|)
              && (forall i :: 0 <= i < |db.users| ==>
                    db.users[i] == if old(db.users[i]).id == id then EditedUser(old(db.users[i]), name, role)
                                   else old(db.users[i]))
    ensures db != null ==> db.Valid()
  {
    var gate := RequireAdmin(ctx);
    if gate.Err? {
      return Err(gate.error);
    }
    if db == null {
      return Err(DatabaseNotAvailable);
    }
    var data := AssembleUserUpdate(name, role, password);
    if data == map[] {
      return Err(NoFieldsToUpdate);
    }
    forall u: User ensures ApplyCells(u, data) == EditedUser(u, name, role) {
      UserUpdateApplies(u, name, role, password, data);
    }
    assert SetsUserColumn(data) <==> Truthy(name) || role.Some? by {
      if Truthy(name) {
        assert NameField in data;
      } else if role.Some? {
        assert RoleField in data;
      }
    }
    r := db.UpdateUsers(id, data);
  }

  /** admin.deleteUser (server/routers.ts:413-424): removes the user with that id and nothing else. */
  method DeleteUser(db: Database?, ctx: User, userId: int) returns (r: Result<(), Error>)
    requires db != null ==> db.Valid()
    modifies db
    ensures ctx.role != AdminRole ==> r == Err(Unauthorized) && (db != null ==> unchanged(db))
    ensures ctx.role == AdminRole && db == null ==> r == Err(DatabaseNotAvailable)
    ensures ctx.role == AdminRole && db != null ==>
              && r == Ok(()) && UnchangedExcept(db, {UsersTable})
              && db.users == Filter(old(db.users), Except(UserId, userId))
              && (forall u :: u in db.users <==> u in old(db.users) && u.id != userId)
    ensures db != null ==> db.Valid()
  {
    var gate := RequireAdmin(ctx);
    if gate.Err? {
      return Err(gate.error);
    }
    if db == null {
      return Err(DatabaseNotAvailable);
    }
    FilterMembers(db.users, Except(UserId, userId));
    db.DeleteUsers(userId);
    r := Ok(());
  }

  // ------------------------------------------------------------ comments

  /**
   * course.addComment (server/routers.ts:168-182): any signed-in user may
   * comment; the row is stamped with the clock.
   */
  method AddComment(db: Database?, ctx: User, missionId: int, content: string, now: int)
    returns (r: Result<(), Error>)
    requires db != null ==> db.Valid()
    modifies db
    ensures db == null ==> r == Err(DatabaseNotAvailable)
    ensures db != null ==>
              && db.Valid() && r == Ok(()) && UnchangedExcept(db, {CommentsTable})
              && db.comments == old(db.comments) + [Comment(old(db.nextCommentId), missionId, ctx.id, content, now)]
              && Comment(old(db.nextCommentId), missionId, ctx.id, content, now) in GetCommentsByMissionId(db, missionId)
  {
    if db == null {
      return Err(DatabaseNotAvailable);
    }
    var row := Comment(db.nextCommentId, missionId, ctx.id, content, now);
    var _ := db.InsertComment(missionId, ctx.id, content, now);
    assert row in multiset(db.comments);
    assert row in multiset(GetCommentsByMissionId(db, missionId));
    r := Ok(());
  }
}
