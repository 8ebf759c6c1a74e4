/**
 * The query layer of the server (server/db.ts). `db: Database?` is what
 * getDb() returns: null when no database is configured, in which case the
 * read queries return an empty result rather than failing, and the writes
 * that need the database fail with "Database not available".
 */
module Db {
  import opened Wrappers
  import opened Seqs
  import opened Schema
  import opened Errors
  import opened Store

  // ---------------------------------------------------------------- users

  /** A text field of the user record given to upsertUser: left out, explicitly null, or a string. */
  datatype Nullable<T> = Undefined | Null | Present(value: T)

  /** The argument of upsertUser: a users row in which every column may be missing. */
  datatype InsertUser = InsertUser(
    openId: Option<string>,
    name: Nullable<string>,
    email: Nullable<string>,
    loginMethod: Nullable<string>,
    lastSignedIn: Option<int>,
    role: Option<Role>)

  /** The text fields upsertUser copies one by one, in this order. */
  const TextFields: seq<UserField> := [NameField, EmailField, LoginMethodField]

  function TextOf(user: InsertUser, f: UserField): Nullable<string> {
    match f
    case NameField => user.name
    case EmailField => user.email
    case LoginMethodField => user.loginMethod
    case _ => Undefined
  }

  /** `value ?? null`: a null stays null, a string is kept. */
  function Normalized(v: Nullable<string>): Option<string> {
    if v.Present? then Some(v.value) else None
  }

  /** Whether the user record supplies anything for the update set before the fallback. */
  predicate SuppliesUpdate(user: InsertUser, ownerOpenId: string)
    requires user.openId.Some?
  {
    || (exists f :: f in TextFields && TextOf(user, f) != Undefined)
    || user.lastSignedIn.Some?
    || user.role.Some?
    || user.openId.value == ownerOpenId
  }

  /**
   * What the inserted values and the ON DUPLICATE KEY update set of
   * upsertUser hold (server/db.ts:33-69). The openId itself is passed to
   * the store separately.
   */
  ghost predicate UpsertCells(user: InsertUser, ownerOpenId: string, now: int,
                              values: map<UserField, Cell>, updateSet: map<UserField, Cell>)
    requires user.openId.Some?
  {
    // a text field is written exactly when it is not undefined, and null stays null
    && (forall f :: f in TextFields ==>
          && (f in values <==> TextOf(user, f) != Undefined)
          && (f in updateSet <==> TextOf(user, f) != Undefined)
          && (f in updateSet ==> values[f] == updateSet[f] == TextCell(Normalized(TextOf(user, f)))))
    // an explicit role wins; otherwise the owner is made an admin
    && (RoleField in values <==> user.role.Some? || user.openId.value == ownerOpenId)
    && (RoleField in updateSet <==> RoleField in values)
    && (RoleField in values ==> values[RoleField] == updateSet[RoleField] == RoleCell(user.role.GetOr(AdminRole)))
    // the inserted row always has lastSignedIn; the update set has it when given or as the fallback
    && LastSignedInField in values && values[LastSignedInField] == TimeCell(user.lastSignedIn.GetOr(now))
    && (LastSignedInField in updateSet <==> user.lastSignedIn.Some? || !SuppliesUpdate(user, ownerOpenId))
    && (LastSignedInField in updateSet ==> updateSet[LastSignedInField] == TimeCell(user.lastSignedIn.GetOr(now)))
    && updateSet != map[]
    && PasswordField !in values && PasswordField !in updateSet
  }

  /** The loop of server/db.ts:44-53: each text field that is not undefined goes into both maps, null kept as null. */
  method CopyTextFields(user: InsertUser) returns (values: map<UserField, Cell>, updateSet: map<UserField, Cell>)
    ensures forall f :: f in values <==> f in updateSet
    ensures forall f :: f in values <==> f in TextFields && TextOf(user, f) != Undefined
    ensures forall f :: f in values ==> values[f] == updateSet[f] == TextCell(Normalized(TextOf(user, f)))
  {
    values, updateSet := map[], map[];
    for i := 0 to |TextFields|
      invariant forall f :: f in values <==> f in updateSet
      invariant forall f :: f in values <==> exists j :: 0 <= j < i && TextFields[j] == f && TextOf(user, f) != Undefined
      invariant forall f :: f in values ==> values[f] == updateSet[f] == TextCell(Normalized(TextOf(user, f)))
    {
      var field := TextFields[i];
      var value := TextOf(user, field);
      if value != Undefined {
        var normalized := TextCell(if value.Present? then Some(value.value) else None);
        values := values[field := normalized];
        updateSet := updateSet[field := normalized];
      }
    }
  }

  /** Builds the inserted values and the update set of upsertUser, field by field. */
  method BuildUpsert(user: InsertUser, ownerOpenId: string, now: int)
    returns (values: map<UserField, Cell>, updateSet: map<UserField, Cell>)
    requires user.openId.Some?
    ensures UpsertCells(user, ownerOpenId, now, values, updateSet)
  {
    values, updateSet := CopyTextFields(user);
    ghost var copied := updateSet;
    if user.lastSignedIn.Some? {
      values := values[LastSignedInField := TimeCell(user.lastSignedIn.value)];
      updateSet := updateSet[LastSignedInField := TimeCell(user.lastSignedIn.value)];
    }
    if user.role.Some? {
      values := values[RoleField := RoleCell(user.role.value)];
      updateSet := updateSet[RoleField := RoleCell(user.role.value)];
    } else if user.openId.value == ownerOpenId {
      values := values[RoleField := RoleCell(AdminRole)];
      updateSet := updateSet[RoleField := RoleCell(AdminRole)];
    }
    if LastSignedInField !in values {
      values := values[LastSignedInField := TimeCell(now)];
    }
    if updateSet == map[] {
      assert !SuppliesUpdate(user, ownerOpenId) by {
        forall f | f in TextFields ensures TextOf(user, f) == Undefined {
          assert f !in updateSet && f !in copied;
        }
      }
      updateSet := map[LastSignedInField := TimeCell(now)];
    } else {
      assert SuppliesUpdate(user, ownerOpenId) by {
        var f :| f in updateSet;
        if f in TextFields {
          assert TextOf(user, f) != Undefined;
        }
      }
    }
  }

  /**
   * The users row upsertUser leaves behind, stated column by column
   * against the row that had the openId before (`before`), or against a
   * fresh row with id `id` and the column defaults.
   */
  function MergedUser(before: Option<User>, id: int, user: InsertUser, ownerOpenId: string, now: int): User
    requires user.openId.Some?
  {
    var base := if before.Some? then before.value else User(id, user.openId.value, None, None, None, DefaultRole, now);
    base.(
      name := if user.name == Undefined then base.name else Normalized(user.name),
      email := if user.email == Undefined then base.email else Normalized(user.email),
      loginMethod := if user.loginMethod == Undefined then base.loginMethod else Normalized(user.loginMethod),
      role := if user.role.Some? then user.role.value
              else if user.openId.value == ownerOpenId then AdminRole
              else base.role,
      lastSignedIn := if user.lastSignedIn.Some? then user.lastSignedIn.value
                      else if before.None? || !SuppliesUpdate(user, ownerOpenId) then now
                      else base.lastSignedIn)
  }

  /** Updating the existing row with the update set yields the merged row. */
  lemma MergeOnUpdate(u: User, user: InsertUser, ownerOpenId: string, now: int,
                      values: map<UserField, Cell>, updateSet: map<UserField, Cell>)
    requires user.openId.Some? && u.openId == user.openId.value
    requires UpsertCells(user, ownerOpenId, now, values, updateSet)
    ensures ApplyCells(u, updateSet) == MergedUser(Some(u), u.id, user, ownerOpenId, now)
  {
    assert NameField in TextFields && EmailField in TextFields && LoginMethodField in TextFields;
  }

  /** Inserting the values as a new row yields the merged row over the defaults. */
  lemma MergeOnInsert(id: int, user: InsertUser, ownerOpenId: string, now: int,
                      values: map<UserField, Cell>, updateSet: map<UserField, Cell>)
    requires user.openId.Some?
    requires UpsertCells(user, ownerOpenId, now, values, updateSet)
    ensures NewUserRow(id, user.openId.value, values, now) == MergedUser(None, id, user, ownerOpenId, now)
  {
    assert NameField in TextFields && EmailField in TextFields && LoginMethodField in TextFields;
  }

  /**
   * upsertUser (server/db.ts:21-78): an openId is required; with no
   * database it does nothing; otherwise it inserts the user or, when the
   * openId is taken, updates that row with the update set.
   */
  method UpsertUser(db: Database?, user: InsertUser, ownerOpenId: string, now: int) returns (r: Result<(), Error>)
    requires db != null ==> db.Valid()
    modifies db
    ensures user.openId.None? || user.openId == Some("") ==> r == Err(OpenIdRequired) && (db != null ==> unchanged(db))
    ensures user.openId.Some? && user.openId != Some("") ==> r == Ok(())
    ensures db != null ==> db.Valid() && UnchangedExcept(db, {UsersTable})
    ensures db != null && r.Ok? ==>
              && UserByOpenId(db.users, user.openId.value) ==
                   Some(MergedUser(old(UserByOpenId(db.users, user.openId.value)), old(db.nextUserId),
                                   user, ownerOpenId, now))
              && (forall o :: o != user.openId.value ==> UserByOpenId(db.users, o) == old(UserByOpenId(db.users, o)))
              && |db.users| == old(|db.users|) + (if old(HasOpenId(db.users, user.openId.value)) then 0 else 1)
  {
    if user.openId.None? || user.openId.value == "" {
      return Err(OpenIdRequired);
    }
    if db == null {
      return Ok(());
    }
    var openId := user.openId.value;
    var values, updateSet := BuildUpsert(user, ownerOpenId, now);
    UpsertOutcome(db.users, db.nextUserId, user, ownerOpenId, now, values, updateSet);
    db.UpsertUser(openId, values, updateSet, now);
    r := Ok(());
  }

  /** The row with this openId; LIMIT 1 over a UNIQUE column. */
  function UserByOpenId(users: seq<User>, openId: string): (r: Option<User>)
    ensures r.None? <==> !HasOpenId(users, openId)
    ensures r.Some? ==> r.value in users && r.value.openId == openId
  {
    FirstWith(users, (u: User) => u.openId == openId)
  }

  lemma UserByOpenIdAt(users: seq<User>, i: nat)
    requires UniqueBy(users, UserOpenId) && i < |users|
    ensures UserByOpenId(users, users[i].openId) == Some(users[i])
  {
    var r := UserByOpenId(users, users[i].openId);
    var j :| 0 <= j < |users| && users[j] == r.value;
    assert UserOpenId(users[i]) == UserOpenId(users[j]);
  }

  /**
   * After an upsert the openId finds the merged row: the old row with the
   * update set applied, or the inserted one.
   */
  lemma UpsertLookup(users: seq<User>, nextId: int, openId: string,
                     values: map<UserField, Cell>, updateSet: map<UserField, Cell>, now: int)
    requires UniqueBy(users, UserOpenId)
    ensures UserByOpenId(UpsertRows(users, nextId, openId, values, updateSet, now), openId) ==
              Some(match UserByOpenId(users, openId)
                   case Some(u) => ApplyCells(u, updateSet)
                   case None => NewUserRow(nextId, openId, values, now))
  {
    var after := UpsertRows(users, nextId, openId, values, updateSet, now);
    match UserByOpenId(users, openId)
    case Some(u) =>
      var i :| 0 <= i < |users| && users[i] == u;
      UserByOpenIdAt(after, i);
    case None =>
      UserByOpenIdAt(after, |users|);
  }

  /** An upsert leaves what every other openId finds unchanged. */
  lemma UpsertLookupOthers(users: seq<User>, nextId: int, openId: string,
                           values: map<UserField, Cell>, updateSet: map<UserField, Cell>, now: int, other: string)
    requires UniqueBy(users, UserOpenId) && other != openId
    ensures UserByOpenId(UpsertRows(users, nextId, openId, values, updateSet, now), other) == UserByOpenId(users, other)
  {
    var after := UpsertRows(users, nextId, openId, values, updateSet, now);
    match UserByOpenId(users, other)
    case Some(u) =>
      var i :| 0 <= i < |users| && users[i] == u;
      UserByOpenIdAt(after, i);
      UserByOpenIdAt(users, i);
    case None =>
      forall j | 0 <= j < |after| ensures after[j].openId != other {
        if j < |users| {
          assert after[j] == users[j] || after[j].openId == openId;
        }
      }
  }

  /** What every openId finds after an upsert built by BuildUpsert. */
  lemma UpsertOutcome(users: seq<User>, nextId: int, user: InsertUser, ownerOpenId: string, now: int,
                      values: map<UserField, Cell>, updateSet: map<UserField, Cell>)
    requires user.openId.Some? && UniqueBy(users, UserOpenId)
    requires UpsertCells(user, ownerOpenId, now, values, updateSet)
    ensures var after := UpsertRows(users, nextId, user.openId.value, values, updateSet, now);
            && UserByOpenId(after, user.openId.value) ==
                 Some(MergedUser(UserByOpenId(users, user.openId.value), nextId, user, ownerOpenId, now))
            && (forall o :: o != user.openId.value ==> UserByOpenId(after, o) == UserByOpenId(users, o))
  {
    var openId := user.openId.value;
    var after := UpsertRows(users, nextId, openId, values, updateSet, now);
    UpsertLookup(users, nextId, openId, values, updateSet, now);
    forall o | o != openId ensures UserByOpenId(after, o) == UserByOpenId(users, o) {
      UpsertLookupOthers(users, nextId, openId, values, updateSet, now, o);
    }
    match UserByOpenId(users, openId)
    case Some(u) =>
      MergeOnUpdate(u, user, ownerOpenId, now, values, updateSet);
    case None =>
      MergeOnInsert(nextId, user, ownerOpenId, now, values, updateSet);
  }

  /** getUserByOpenId (server/db.ts:80-90): undefined, here None, when there is no database. */
  function GetUserByOpenId(db: Database?, openId: string): (r: Option<User>)
    reads db
    ensures db == null ==> r == None
    ensures db != null ==> r == UserByOpenId(db.users, openId)
  {
    if db == null then None else UserByOpenId(db.users, openId)
  }

  // ------------------------------------------------ content hierarchy reads

  /** `SELECT * FROM rounds ORDER BY order`. */
  function RoundsByOrder(rounds: seq<Round>): (r: seq<Round>)
    ensures multiset(r) == multiset(rounds)
    ensures forall i, j :: 0 <= i < j < |r| ==> r[i].order <= r[j].order
  {
    SortBy(rounds, RoundOrder)
  }

  /** getRounds (server/db.ts:93-98). */
  function GetRounds(db: Database?): (r: seq<Round>)
    reads db
    ensures db == null ==> r == []
    ensures db != null ==> r == RoundsByOrder(db.rounds)
  {
    if db == null then [] else RoundsByOrder(db.rounds)
  }

  /** getRoundById (server/db.ts:100-105): the row with that id, or null. */
  function GetRoundById(db: Database?, id: int): (r: Option<Round>)
    reads db
    ensures db == null ==> r == None
    ensures db != null ==> (r.None? <==> forall i :: 0 <= i < |db.rounds| ==> db.rounds[i].id != id)
    ensures db != null && r.Some? ==> r.value in db.rounds && r.value.id == id
  {
    if db == null then None else FirstWith(db.rounds, WithId(RoundId, id))
  }

  /** `SELECT * FROM missions WHERE roundId ORDER BY order`. */
  function MissionsOfRound(missions: seq<Mission>, roundId: int): (r: seq<Mission>)
    ensures forall m :: multiset(r)[m] == if m.roundId == roundId then multiset(missions)[m] else 0
    ensures forall i, j :: 0 <= i < j < |r| ==> r[i].order <= r[j].order
  {
    FilterMultiset(missions, OfRound(roundId));
    SortBy(Filter(missions, OfRound(roundId)), MissionOrder)
  }

  /** A round whose missions have distinct orders, already ascending, gets them back in table order. */
  lemma MissionsOfRoundInOrder(missions: seq<Mission>, roundId: int)
    requires StrictlySortedBy(Filter(missions, OfRound(roundId)), MissionOrder)
    ensures MissionsOfRound(missions, roundId) == Filter(missions, OfRound(roundId))
  {
    SortSorted(Filter(missions, OfRound(roundId)), MissionOrder);
  }

  /** getMissionsByRoundId (server/db.ts:108-113). */
  function GetMissionsByRoundId(db: Database?, roundId: int): (r: seq<Mission>)
    reads db
    ensures db == null ==> r == []
    ensures db != null ==> r == MissionsOfRound(db.missions, roundId)
  {
    if db == null then [] else MissionsOfRound(db.missions, roundId)
  }

  /** getMissionById (server/db.ts:115-120). */
  function GetMissionById(db: Database?, id: int): (r: Option<Mission>)
    reads db
    ensures db == null ==> r == None
    ensures db != null ==> (r.None? <==> forall i :: 0 <= i < |db.missions| ==> db.missions[i].id != id)
    ensures db != null && r.Some? ==> r.value in db.missions && r.value.id == id
  {
    if db == null then None else FirstWith(db.missions, WithId(MissionId, id))
  }

  /** `eq(topics.missionId, missionId)`. */
  function OfMission(missionId: int): Topic -> bool {
    (t: Topic) => t.missionId == missionId
  }

  /** `SELECT * FROM topics WHERE missionId ORDER BY order`. */
  function TopicsOfMission(topics: seq<Topic>, missionId: int): (r: seq<Topic>)
    ensures forall t :: multiset(r)[t] == if t.missionId == missionId then multiset(topics)[t] else 0
    ensures forall i, j :: 0 <= i < j < |r| ==> r[i].order <= r[j].order
  {
    FilterMultiset(topics, OfMission(missionId));
    SortBy(Filter(topics, OfMission(missionId)), TopicOrder)
  }

  /** A mission whose topics have distinct orders, already ascending, gets them back in table order. */
  lemma TopicsOfMissionInOrder(topics: seq<Topic>, missionId: int)
    requires StrictlySortedBy(Filter(topics, OfMission(missionId)), TopicOrder)
    ensures TopicsOfMission(topics, missionId) == Filter(topics, OfMission(missionId))
  {
    SortSorted(Filter(topics, OfMission(missionId)), TopicOrder);
  }

  /** getTopicsByMissionId (server/db.ts:123-133). */
  function GetTopicsByMissionId(db: Database?, missionId: int): (r: seq<Topic>)
    reads db
    ensures db == null ==> r == []
    ensures db != null ==> r == TopicsOfMission(db.topics, missionId)
  {
    if db == null then [] else TopicsOfMission(db.topics, missionId)
  }

  /** getTopicById (server/db.ts:135-140). */
  function GetTopicById(db: Database?, id: int): (r: Option<Topic>)
    reads db
    ensures db == null ==> r == None
    ensures db != null ==> (r.None? <==> forall i :: 0 <= i < |db.topics| ==> db.topics[i].id != id)
    ensures db != null && r.Some? ==> r.value in db.topics && r.value.id == id
  {
    if db == null then None else FirstWith(db.topics, WithId(TopicId, id))
  }

  // ---------------------------------------------------------- progress reads

  /** `userProgress.userId = userId AND userProgress.topicId = topicId`. */
  function OfPair(userId: int, topicId: int): UserProgress -> bool {
    (p: UserProgress) => ProgressPair(p) == (userId, topicId)
  }

  /** `SELECT * FROM userProgress WHERE userId AND topicId LIMIT 1`. */
  function FindProgress(rows: seq<UserProgress>, userId: int, topicId: int): (r: Option<UserProgress>)
    ensures r.None? <==> forall i :: 0 <= i < |rows| ==> ProgressPair(rows[i]) != (userId, topicId)
    ensures r.Some? ==> r.value in rows && ProgressPair(r.value) == (userId, topicId)
  {
    FirstWith(rows, OfPair(userId, topicId))
  }

  /** getUserProgress (server/db.ts:143-148). */
  function GetUserProgress(db: Database?, userId: int, topicId: int): (r: Option<UserProgress>)
    reads db
    ensures db == null ==> r == None
    ensures db != null ==> r == FindProgress(db.progress, userId, topicId)
  {
    if db == null then None else FindProgress(db.progress, userId, topicId)
  }

  /** getUserProgressByUserId (server/db.ts:150-155): the user's rows, in table order. */
  function GetUserProgressByUserId(db: Database?, userId: int): (r: seq<UserProgress>)
    reads db
    ensures db == null ==> r == []
    ensures db != null ==> forall p :: multiset(r)[p] == if p.userId == userId then multiset(db.progress)[p] else 0
  {
    if db == null then []
    else
      var ofUser := (p: UserProgress) => p.userId == userId;
      FilterMultiset(db.progress, ofUser);
      Filter(db.progress, ofUser)
  }

  // ------------------------------------------------- attachments and comments

  /** getAttachmentsByRoundId (server/db.ts:158-163): deprecated, always empty. */
  function GetAttachmentsByRoundId(db: Database?, roundId: int): (r: seq<Attachment>)
    reads db
    ensures r == []
  {
    if db == null then [] else []
  }

  /** getAttachmentById (server/db.ts:165-170). */
  function GetAttachmentById(db: Database?, id: int): (r: Option<Attachment>)
    reads db
    ensures db == null ==> r == None
    ensures db != null ==> (r.None? <==> forall i :: 0 <= i < |db.attachments| ==> db.attachments[i].id != id)
    ensures db != null && r.Some? ==> r.value in db.attachments && r.value.id == id
  {
    if db == null then None else FirstWith(db.attachments, WithId(AttachmentId, id))
  }

  /** `SELECT * FROM comments WHERE missionId ORDER BY createdAt DESC`. */
  function CommentsOfMission(comments: seq<Comment>, missionId: int): (r: seq<Comment>)
    ensures forall c :: multiset(r)[c] == if c.missionId == missionId then multiset(comments)[c] else 0
    ensures forall i, j :: 0 <= i < j < |r| ==> r[i].createdAt >= r[j].createdAt
  {
    var ofMission := (c: Comment) => c.missionId == missionId;
    FilterMultiset(comments, ofMission);
    var r := SortBy(Filter(comments, ofMission), CommentNewestFirst);
    assert forall i, j :: 0 <= i < j < |r| ==> CommentNewestFirst(r[i]) <= CommentNewestFirst(r[j]);
    r
  }

  /** getCommentsByMissionId (server/db.ts:173-178). */
  function GetCommentsByMissionId(db: Database?, missionId: int): (r: seq<Comment>)
    reads db
    ensures db == null ==> r == []
    ensures db != null ==> r == CommentsOfMission(db.comments, missionId)
  {
    if db == null then [] else CommentsOfMission(db.comments, missionId)
  }

  /**
   * A comment stamped later than every other comment of its mission is the
   * first one the mission's comment list shows.
   */
  lemma {:induction false} NewestCommentFirst(comments: seq<Comment>, c: Comment)
    requires forall i :: 0 <= i < |comments| && comments[i].missionId == c.missionId ==>
               comments[i].createdAt < c.createdAt
    ensures var r := CommentsOfMission(comments + [c], c.missionId);
            |r| > 0 && r[0] == c
  {
    var all := comments + [c];
    var r := CommentsOfMission(all, c.missionId);
    assert c in multiset(all);
    assert c in multiset(r);
    var k :| 0 <= k < |r| && r[k] == c;
    assert r[0].createdAt >= c.createdAt by {
      if k > 0 {
        assert r[0].createdAt >= r[k].createdAt;
      }
    }
    assert r[0] in multiset(r);
    assert r[0] in all && r[0].missionId == c.missionId;
    assert r[0] !in comments;
  }

  /** createComment (server/db.ts:180-185): the row gets createdAt from the clock. */
  method CreateComment(db: Database?, missionId: int, userId: int, content: string, now: int)
    returns (r: Result<int, Error>)
    requires db != null ==> db.Valid()
    modifies db
    ensures db == null ==> r == Err(DatabaseNotAvailable)
    ensures db != null ==>
              && db.Valid() && UnchangedExcept(db, {CommentsTable})
              && r == Ok(old(db.nextCommentId))
              && db.comments == old(db.comments) + [Comment(r.value, missionId, userId, content, now)]
  {
    if db == null {
      return Err(DatabaseNotAvailable);
    }
    var id := db.InsertComment(missionId, userId, content, now);
    r := Ok(id);
  }

  /** `SELECT * FROM attachments WHERE topicId ORDER BY createdAt DESC`. */
  function AttachmentsOfTopic(attachments: seq<Attachment>, topicId: int): (r: seq<Attachment>)
    ensures forall a :: multiset(r)[a] == if a.topicId == topicId then multiset(attachments)[a] else 0
    ensures forall i, j :: 0 <= i < j < |r| ==> r[i].createdAt >= r[j].createdAt
  {
    var ofTopic := (a: Attachment) => a.topicId == topicId;
    FilterMultiset(attachments, ofTopic);
    var r := SortBy(Filter(attachments, ofTopic), AttachmentNewestFirst);
    assert forall i, j :: 0 <= i < j < |r| ==> AttachmentNewestFirst(r[i]) <= AttachmentNewestFirst(r[j]);
    r
  }

  /** getAttachmentsByTopicId (server/db.ts:188-193). */
  function GetAttachmentsByTopicId(db: Database?, topicId: int): (r: seq<Attachment>)
    reads db
    ensures db == null ==> r == []
    ensures db != null ==> r == AttachmentsOfTopic(db.attachments, topicId)
  {
    if db == null then [] else AttachmentsOfTopic(db.attachments, topicId)
  }

  /** getAttachmentsByMissionId (server/db.ts:196-201): deprecated, always empty. */
  function GetAttachmentsByMissionId(db: Database?, missionId: int): (r: seq<Attachment>)
    reads db
    ensures r == []
  {
    if db == null then [] else []
  }

  /** The fields insertAttachment receives; mimeType and uploadedBy may be left out. */
  datatype AttachmentInput = AttachmentInput(
    topicId: int,
    fileName: string,
    fileSize: int,
    fileUrl: string,
    fileKey: string,
    mimeType: Option<string>,
    uploadedBy: Option<int>)

  /** `uploadedBy || 1`: an absent or zero uploader becomes user 1. */
  function Uploader(uploadedBy: Option<int>): (r: int)
    ensures uploadedBy.None? || uploadedBy == Some(0) <==> r == 1 && uploadedBy != Some(1)
    ensures uploadedBy.Some? && uploadedBy.value != 0 ==> r == uploadedBy.value
  {
    if uploadedBy.None? || uploadedBy.value == 0 then 1 else uploadedBy.value
  }

  /** insertAttachment (server/db.ts:203-224). */
  method InsertAttachment(db: Database?, data: AttachmentInput, now: int) returns (r: Result<int, Error>)
    requires db != null ==> db.Valid()
    modifies db
    ensures db == null ==> r == Err(DatabaseNotAvailable)
    ensures db != null ==>
              && db.Valid() && UnchangedExcept(db, {AttachmentsTable})
              && r == Ok(old(db.nextAttachmentId))
              && db.attachments == old(db.attachments) +
                   [Attachment(r.value, data.topicId, data.fileName, data.fileUrl, data.fileKey,
                               Some(data.fileSize), data.mimeType, Uploader(data.uploadedBy), now)]
  {
    if db == null {
      return Err(DatabaseNotAvailable);
    }
    var id := db.InsertAttachment(data.topicId, data.fileName, data.fileUrl, data.fileKey,
                                  Some(data.fileSize), data.mimeType, Uploader(data.uploadedBy), now);
    r := Ok(id);
  }

  // ------------------------------------------------------------ round progress

  datatype RoundProgress = RoundProgress(totalTopics: nat, completedTopics: nat, percentage: nat)

  const NoProgress: RoundProgress := RoundProgress(0, 0, 0)

  /**
   * `Math.round(completed / total * 100)` in exact arithmetic: the integer
   * nearest to 100 * completed / total, halves rounded up.
   */
  function Percentage(completed: nat, total: nat): (r: nat)
    requires total > 0
    ensures 2 * total * r - total <= 200 * completed < 2 * total * r + total
    ensures completed <= total ==> r <= 100
  {
    var r := (200 * completed + total) / (2 * total);
    QuotientBounds(200 * completed + total, 2 * total);
    if completed <= total then
      HalfUpAtMostHundred(completed, total, r);
      r
    else r
  }

  lemma QuotientBounds(n: nat, d: nat)
    requires d > 0
    ensures d * (n / d) <= n < d * (n / d) + d
  {
  }

  lemma HalfUpAtMostHundred(completed: nat, total: nat, r: nat)
    requires 0 < total && completed <= total
    requires 2 * total * r <= 200 * completed + total
    ensures r <= 100
  {
  }

  lemma PercentageMonotone(c1: nat, c2: nat, total: nat)
    requires total > 0 && c1 <= c2
    ensures Percentage(c1, total) <= Percentage(c2, total)
  {
    var p1, p2 := Percentage(c1, total), Percentage(c2, total);
    if p1 > p2 {
      assert 2 * total * p1 >= 2 * total * (p2 + 1) by {
        assert p1 >= p2 + 1;
      }
    }
  }

  /** `missions.roundId = roundId`. */
  function OfRound(roundId: int): Mission -> bool {
    (m: Mission) => m.roundId == roundId
  }

  /** `inArray(topics.missionId, missionIds)`. */
  function OfMissions(missionIds: seq<int>): Topic -> bool {
    (t: Topic) => t.missionId in missionIds
  }

  /** `userId = userId AND completed = 1 AND inArray(topicId, topicIds)`. */
  function CompletedAmong(userId: int, topicIds: seq<int>): UserProgress -> bool {
    (p: UserProgress) => p.userId == userId && p.completed == 1 && p.topicId in topicIds
  }

  /** Whether a topic hangs under some mission of the round. */
  function TopicInRound(missions: seq<Mission>, roundId: int): Topic -> bool {
    (t: Topic) => exists m :: m in missions && m.roundId == roundId && m.id == t.missionId
  }

  /** The ids of the round's topics. */
  function RoundTopicIds(missions: seq<Mission>, topics: seq<Topic>, roundId: int): set<int> {
    set t | t in topics && TopicInRound(missions, roundId)(t) :: t.id
  }

  /** Whether a progress row records this user completing one of these topics. */
  function CompletedIn(userId: int, topicIds: set<int>): UserProgress -> bool {
    (p: UserProgress) => p.userId == userId && p.completed == 1 && p.topicId in topicIds
  }

  function Ids<T>(rows: seq<T>, id: T -> int): (r: seq<int>)
    ensures |r| == |rows|
    ensures forall i :: 0 <= i < |rows| ==> r[i] == id(rows[i])
  {
    seq(|rows|, i requires 0 <= i < |rows| => id(rows[i]))
  }

  /** A mission id is among the round's mission ids exactly when a mission of the round has it. */
  lemma RoundMissionId(missions: seq<Mission>, roundId: int, missionId: int)
    ensures missionId in Ids(Filter(missions, OfRound(roundId)), MissionId)
        <==> exists m :: m in missions && m.roundId == roundId && m.id == missionId
  {
    var roundMissions := Filter(missions, OfRound(roundId));
    var missionIds := Ids(roundMissions, MissionId);
    FilterMembers(missions, OfRound(roundId));
    if missionId in missionIds {
      var k :| 0 <= k < |missionIds| && missionIds[k] == missionId;
      assert roundMissions[k] in missions;
    }
    if exists m :: m in missions && m.roundId == roundId && m.id == missionId {
      var m :| m in missions && m.roundId == roundId && m.id == missionId;
      assert m in roundMissions;
      var k :| 0 <= k < |roundMissions| && roundMissions[k] == m;
      assert missionIds[k] == missionId;
    }
  }

  /** Selecting topics by the ids of the round's missions selects the topics under the round. */
  lemma RoundTopicsBySelection(missions: seq<Mission>, topics: seq<Topic>, roundId: int)
    ensures Filter(topics, OfMissions(Ids(Filter(missions, OfRound(roundId)), MissionId)))
         == Filter(topics, TopicInRound(missions, roundId))
  {
    var missionIds := Ids(Filter(missions, OfRound(roundId)), MissionId);
    forall i | 0 <= i < |topics|
      ensures OfMissions(missionIds)(topics[i]) == TopicInRound(missions, roundId)(topics[i])
    {
      RoundMissionId(missions, roundId, topics[i].missionId);
    }
    FilterCongruent(topics, OfMissions(missionIds), TopicInRound(missions, roundId));
  }

  /** A round with no mission has no topic. */
  lemma NoMissionNoTopic(missions: seq<Mission>, topics: seq<Topic>, roundId: int)
    requires |Filter(missions, OfRound(roundId))| == 0
    ensures |Filter(topics, TopicInRound(missions, roundId))| == 0
  {
    assert Filter(missions, OfRound(roundId)) == [];
    FilterMembers(missions, OfRound(roundId));
    forall i | 0 <= i < |topics| ensures !TopicInRound(missions, roundId)(topics[i]) {
      forall m | m in missions ensures !(m.roundId == roundId && m.id == topics[i].missionId) {
        assert m !in Filter(missions, OfRound(roundId));
      }
    }
    FilterNone(topics, TopicInRound(missions, roundId));
  }

  /** Selecting progress rows by the seq of the round's topic ids selects by the set of them. */
  lemma CompletedBySelection(missions: seq<Mission>, topics: seq<Topic>, progress: seq<UserProgress>,
                             userId: int, roundId: int)
    ensures Filter(progress, CompletedAmong(userId, Ids(Filter(topics, TopicInRound(missions, roundId)), TopicId)))
         == Filter(progress, CompletedIn(userId, RoundTopicIds(missions, topics, roundId)))
  {
    var allTopics := Filter(topics, TopicInRound(missions, roundId));
    var topicIds := Ids(allTopics, TopicId);
    var idSet := RoundTopicIds(missions, topics, roundId);
    FilterMembers(topics, TopicInRound(missions, roundId));
    forall x ensures x in topicIds <==> x in idSet {
      if x in topicIds {
        var k :| 0 <= k < |topicIds| && topicIds[k] == x;
        assert allTopics[k] in topics;
      }
      if x in idSet {
        var t :| t in topics && TopicInRound(missions, roundId)(t) && t.id == x;
        assert t in allTopics;
        var k :| 0 <= k < |allTopics| && allTopics[k] == t;
        assert topicIds[k] == x;
      }
    }
    FilterCongruent(progress, CompletedAmong(userId, topicIds), CompletedIn(userId, idSet));
  }

  /**
   * getRoundProgress on the tables (server/db.ts:231-262): the round's
   * missions, their topics, and the user's completed rows among those
   * topics, with a zero result when the round has no mission or no topic.
   */
  function RoundProgressOf(missions: seq<Mission>, topics: seq<Topic>, progress: seq<UserProgress>,
                           userId: int, roundId: int): (r: RoundProgress)
    ensures r.totalTopics == |Filter(topics, TopicInRound(missions, roundId))|
    ensures r.totalTopics == 0 ==> r == NoProgress
    ensures r.totalTopics > 0 ==>
              && r.completedTopics == |Filter(progress, CompletedIn(userId, RoundTopicIds(missions, topics, roundId)))|
              && r.percentage == Percentage(r.completedTopics, r.totalTopics)
  {
    var roundMissions := Filter(missions, OfRound(roundId));
    var missionIds := Ids(roundMissions, MissionId);
    if |missionIds| == 0 then
      NoMissionNoTopic(missions, topics, roundId);
      NoProgress
    else
      var allTopics := Filter(topics, OfMissions(missionIds));
      RoundTopicsBySelection(missions, topics, roundId);
      var totalTopics := |allTopics|;
      if totalTopics == 0 then
        NoProgress
      else
        var completedProgress := Filter(progress, CompletedAmong(userId, Ids(allTopics, TopicId)));
        CompletedBySelection(missions, topics, progress, userId, roundId);
        var completedTopics := |completedProgress|;
        RoundProgress(totalTopics, completedTopics, Percentage(completedTopics, totalTopics))
  }

  /** getRoundProgress (server/db.ts:227-263): zeros when there is no database. */
  function GetRoundProgress(db: Database?, userId: int, roundId: int): (r: RoundProgress)
    reads db
    ensures db == null ==> r == NoProgress
    ensures db != null ==> r == RoundProgressOf(db.missions, db.topics, db.progress, userId, roundId)
  {
    if db == null then NoProgress else RoundProgressOf(db.missions, db.topics, db.progress, userId, roundId)
  }

  /** With one row per (user, topic), a user has no more completed rows than there are topic ids. */
  lemma {:induction false} CompletedRowsBound(rows: seq<UserProgress>, userId: int, topicIds: set<int>)
    requires AtMostOnePerPair(rows)
    ensures |Filter(rows, CompletedIn(userId, topicIds))| <= |topicIds|
  {
    if rows != [] {
      var rest := rows[1..];
      assert AtMostOnePerPair(rest) by {
        forall i, j | 0 <= i < j < |rest| ensures ProgressPair(rest[i]) != ProgressPair(rest[j]) {
          assert ProgressPair(rows[i + 1]) != ProgressPair(rows[j + 1]);
        }
      }
      if CompletedIn(userId, topicIds)(rows[0]) {
        var t := rows[0].topicId;
        var smaller := topicIds - {t};
        forall i | 0 <= i < |rest|
          ensures CompletedIn(userId, topicIds)(rest[i]) == CompletedIn(userId, smaller)(rest[i])
        {
          assert ProgressPair(rows[0]) != ProgressPair(rows[i + 1]);
        }
        FilterCongruent(rest, CompletedIn(userId, topicIds), CompletedIn(userId, smaller));
        CompletedRowsBound(rest, userId, smaller);
      } else {
        CompletedRowsBound(rest, userId, topicIds);
      }
    }
  }

  /** A set of ids taken from some rows is no larger than the rows. */
  lemma {:induction false} IdImageBound(rows: seq<Topic>)
    ensures |set t | t in rows :: t.id| <= |rows|
  {
    if rows != [] {
      IdImageBound(rows[1..]);
      assert (set t | t in rows :: t.id) == (set t | t in rows[1..] :: t.id) + {rows[0].id};
    }
  }

  /**
   * Under the one-row-per-(user, topic) invariant the completed count never
   * exceeds the total, so the percentage lies in 0..100.
   */
  lemma RoundProgressBounded(missions: seq<Mission>, topics: seq<Topic>, progress: seq<UserProgress>,
                             userId: int, roundId: int)
    requires AtMostOnePerPair(progress)
    ensures var r := RoundProgressOf(missions, topics, progress, userId, roundId);
            r.completedTopics <= r.totalTopics && r.percentage <= 100
  {
    var r := RoundProgressOf(missions, topics, progress, userId, roundId);
    if r.totalTopics > 0 {
      var ids := RoundTopicIds(missions, topics, roundId);
      var inRound := Filter(topics, TopicInRound(missions, roundId));
      FilterMembers(topics, TopicInRound(missions, roundId));
      CompletedRowsBound(progress, userId, ids);
      assert ids == set t | t in inRound :: t.id;
      IdImageBound(inRound);
    }
  }
}
