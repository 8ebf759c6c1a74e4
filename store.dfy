/**
 * The relational store behind the server: one sequence of rows per table
 * and one auto-increment counter per table. Each method is one SQL
 * statement as the server issues it. The store enforces the primary keys
 * and the UNIQUE index on users.openId, and nothing else (no foreign keys,
 * no unique (userId, topicId) index on userProgress).
 */
module Store {
  import opened Wrappers
  import opened Seqs
  import opened Schema
  import opened Errors

  /** A key of the records the server builds before writing a users row. */
  datatype UserField = NameField | EmailField | LoginMethodField | LastSignedInField | RoleField | PasswordField

  /** A value in such a record. A password arrives as a bcrypt hash, kept abstract here. */
  datatype Cell = TextCell(text: Option<string>) | TimeCell(time: int) | RoleCell(role: Role) | HashCell(plain: string)

  function TextAfter(cells: map<UserField, Cell>, f: UserField, current: Option<string>): Option<string> {
    if f in cells && cells[f].TextCell? then cells[f].text else current
  }

  /**
   * A users row after `UPDATE users SET cells`. The users table has no
   * password column, so a PasswordField cell changes nothing.
   */
  function ApplyCells(u: User, cells: map<UserField, Cell>): (r: User)
    ensures r.id == u.id && r.openId == u.openId
    ensures cells == map[] ==> r == u
  {
    u.(name := TextAfter(cells, NameField, u.name),
       email := TextAfter(cells, EmailField, u.email),
       loginMethod := TextAfter(cells, LoginMethodField, u.loginMethod),
       lastSignedIn := if LastSignedInField in cells && cells[LastSignedInField].TimeCell?
                       then cells[LastSignedInField].time else u.lastSignedIn,
       role := if RoleField in cells && cells[RoleField].RoleCell? then cells[RoleField].role else u.role)
  }

  /** A users row inserted from `values`; an absent column takes its schema default. */
  function NewUserRow(id: int, openId: string, values: map<UserField, Cell>, now: int): (r: User)
    ensures r.id == id && r.openId == openId
    ensures RoleField !in values ==> r.role == DefaultRole
    ensures LastSignedInField !in values ==> r.lastSignedIn == now
  {
    ApplyCells(User(id, openId, None, None, None, DefaultRole, now), values)
  }

  predicate HasOpenId(users: seq<User>, openId: string) {
    exists i :: 0 <= i < |users| && users[i].openId == openId
  }

  /**
   * `INSERT INTO users VALUES values ON DUPLICATE KEY UPDATE updateSet`:
   * the openId index decides between updating the row that has it and
   * appending a new one.
   */
  function UpsertRows(users: seq<User>, nextId: int, openId: string,
                      values: map<UserField, Cell>, updateSet: map<UserField, Cell>, now: int): (r: seq<User>)
    ensures HasOpenId(users, openId) ==> |r| == |users|
    ensures !HasOpenId(users, openId) ==> r == users + [NewUserRow(nextId, openId, values, now)]
    ensures forall i :: 0 <= i < |users| && users[i].openId != openId ==> r[i] == users[i]
    ensures forall i :: 0 <= i < |users| && users[i].openId == openId ==> r[i] == ApplyCells(users[i], updateSet)
    ensures HasOpenId(r, openId)
    ensures UniqueBy(users, UserOpenId) ==> UniqueBy(r, UserOpenId)
  {
    if HasOpenId(users, openId) then
      var r := seq(|users|, i requires 0 <= i < |users| =>
                 if users[i].openId == openId then ApplyCells(users[i], updateSet) else users[i]);
      assert forall i :: 0 <= i < |users| ==> UserOpenId(r[i]) == UserOpenId(users[i]);
      r
    else
      var r := users + [NewUserRow(nextId, openId, values, now)];
      assert r[|users|].openId == openId;
      r
  }

  /** `UPDATE userProgress SET completed, completedAt WHERE userId AND topicId`: every matching row. */
  function SetProgress(rows: seq<UserProgress>, userId: int, topicId: int,
                       completed: int, completedAt: Option<int>): (r: seq<UserProgress>)
    ensures |r| == |rows|
    ensures forall i :: 0 <= i < |rows| ==> r[i].id == rows[i].id && ProgressPair(r[i]) == ProgressPair(rows[i])
    ensures forall i :: 0 <= i < |rows| && ProgressPair(rows[i]) != (userId, topicId) ==> r[i] == rows[i]
  {
    seq(|rows|, i requires 0 <= i < |rows| =>
      if ProgressPair(rows[i]) == (userId, topicId)
      then rows[i].(completed := completed, completedAt := completedAt)
      else rows[i])
  }

  /** `UPDATE users SET cells WHERE id = userId`. */
  function UpdateUserRows(users: seq<User>, userId: int, cells: map<UserField, Cell>): (r: seq<User>)
    ensures |r| == |users|
    ensures forall i :: 0 <= i < |users| ==> r[i].id == users[i].id && r[i].openId == users[i].openId
    ensures forall i :: 0 <= i < |users| && users[i].id != userId ==> r[i] == users[i]
  {
    seq(|users|, i requires 0 <= i < |users| =>
      if users[i].id == userId then ApplyCells(users[i], cells) else users[i])
  }

  /** Whether a record sets some column of users; the table has no password column. */
  predicate SetsUserColumn(cells: map<UserField, Cell>) {
    exists f :: f in cells && f != PasswordField
  }

  /** The tables, for saying which ones a statement may touch. */
  datatype Table = UsersTable | RoundsTable | MissionsTable | TopicsTable | ProgressTable | AttachmentsTable | CommentsTable

  /** Every table outside `changed`, and its counter, is as it was. */
  twostate predicate UnchangedExcept(db: Database, changed: set<Table>)
    reads db
  {
    && (UsersTable !in changed ==> db.users == old(db.users) && db.nextUserId == old(db.nextUserId))
    && (RoundsTable !in changed ==> db.rounds == old(db.rounds) && db.nextRoundId == old(db.nextRoundId))
    && (MissionsTable !in changed ==> db.missions == old(db.missions) && db.nextMissionId == old(db.nextMissionId))
    && (TopicsTable !in changed ==> db.topics == old(db.topics) && db.nextTopicId == old(db.nextTopicId))
    && (ProgressTable !in changed ==> db.progress == old(db.progress) && db.nextProgressId == old(db.nextProgressId))
    && (AttachmentsTable !in changed ==>
          db.attachments == old(db.attachments) && db.nextAttachmentId == old(db.nextAttachmentId))
    && (CommentsTable !in changed ==> db.comments == old(db.comments) && db.nextCommentId == old(db.nextCommentId))
  }

  class Database {
    var users: seq<User>
    var rounds: seq<Round>
    var missions: seq<Mission>
    var topics: seq<Topic>
    var progress: seq<UserProgress>
    var attachments: seq<Attachment>
    var comments: seq<Comment>

    // AUTO_INCREMENT counters; DELETE does not reset them.
    var nextUserId: int
    var nextRoundId: int
    var nextMissionId: int
    var nextTopicId: int
    var nextProgressId: int
    var nextAttachmentId: int
    var nextCommentId: int

    /** What the store itself enforces. */
    ghost predicate Valid()
      reads this
    {
      && 0 < nextUserId && 0 < nextRoundId && 0 < nextMissionId && 0 < nextTopicId
      && 0 < nextProgressId && 0 < nextAttachmentId && 0 < nextCommentId
      && PrimaryKey(users, UserId, nextUserId) && UniqueBy(users, UserOpenId)
      && PrimaryKey(rounds, RoundId, nextRoundId)
      && PrimaryKey(missions, MissionId, nextMissionId)
      && PrimaryKey(topics, TopicId, nextTopicId)
      && PrimaryKey(progress, ProgressId, nextProgressId)
      && PrimaryKey(attachments, AttachmentId, nextAttachmentId)
      && PrimaryKey(comments, CommentId, nextCommentId)
    }

    constructor ()
      ensures Valid()
      ensures users == [] && rounds == [] && missions == [] && topics == []
      ensures progress == [] && attachments == [] && comments == []
    {
      users, rounds, missions, topics := [], [], [], [];
      progress, attachments, comments := [], [], [];
      nextUserId, nextRoundId, nextMissionId, nextTopicId := 1, 1, 1, 1;
      nextProgressId, nextAttachmentId, nextCommentId := 1, 1, 1;
    }

    method InsertRound(name: string, description: Option<string>, order: int) returns (id: int)
      requires Valid()
      modifies this`rounds, this`nextRoundId
      ensures Valid()
      ensures id == old(nextRoundId) && nextRoundId == id + 1
      ensures rounds == old(rounds) + [Round(id, name, description, order)]
    {
      id := nextRoundId;
      PrimaryKeyAppend(rounds, RoundId, nextRoundId, Round(id, name, description, order));
      rounds := rounds + [Round(id, name, description, order)];
      nextRoundId := nextRoundId + 1;
    }

    method InsertMission(roundId: int, name: string, description: Option<string>, order: int) returns (id: int)
      requires Valid()
      modifies this`missions, this`nextMissionId
      ensures Valid()
      ensures id == old(nextMissionId) && nextMissionId == id + 1
      ensures missions == old(missions) + [Mission(id, roundId, name, description, order)]
    {
      id := nextMissionId;
      PrimaryKeyAppend(missions, MissionId, nextMissionId, Mission(id, roundId, name, description, order));
      missions := missions + [Mission(id, roundId, name, description, order)];
      nextMissionId := nextMissionId + 1;
    }

    method InsertTopic(missionId: int, name: string, description: Option<string>, order: int) returns (id: int)
      requires Valid()
      modifies this`topics, this`nextTopicId
      ensures Valid()
      ensures id == old(nextTopicId) && nextTopicId == id + 1
      ensures topics == old(topics) + [Topic(id, missionId, name, description, order)]
    {
      id := nextTopicId;
      PrimaryKeyAppend(topics, TopicId, nextTopicId, Topic(id, missionId, name, description, order));
      topics := topics + [Topic(id, missionId, name, description, order)];
      nextTopicId := nextTopicId + 1;
    }

    method InsertProgress(userId: int, topicId: int, completed: int, completedAt: Option<int>) returns (id: int)
      requires Valid()
      modifies this`progress, this`nextProgressId
      ensures Valid()
      ensures id == old(nextProgressId) && nextProgressId == id + 1
      ensures progress == old(progress) + [UserProgress(id, userId, topicId, completed, completedAt)]
    {
      id := nextProgressId;
      PrimaryKeyAppend(progress, ProgressId, nextProgressId, UserProgress(id, userId, topicId, completed, completedAt));
      progress := progress + [UserProgress(id, userId, topicId, completed, completedAt)];
      nextProgressId := nextProgressId + 1;
    }

    method UpdateProgress(userId: int, topicId: int, completed: int, completedAt: Option<int>)
      requires Valid()
      modifies this`progress
      ensures Valid()
      ensures progress == SetProgress(old(progress), userId, topicId, completed, completedAt)
    {
      progress := SetProgress(progress, userId, topicId, completed, completedAt);
    }

    method InsertAttachment(topicId: int, fileName: string, fileUrl: string, fileKey: string,
                            fileSize: Option<int>, mimeType: Option<string>, uploadedBy: int, createdAt: int)
      returns (id: int)
      requires Valid()
      modifies this`attachments, this`nextAttachmentId
      ensures Valid()
      ensures id == old(nextAttachmentId) && nextAttachmentId == id + 1
      ensures attachments == old(attachments)
                + [Attachment(id, topicId, fileName, fileUrl, fileKey, fileSize, mimeType, uploadedBy, createdAt)]
    {
      id := nextAttachmentId;
      var row := Attachment(id, topicId, fileName, fileUrl, fileKey, fileSize, mimeType, uploadedBy, createdAt);
      PrimaryKeyAppend(attachments, AttachmentId, nextAttachmentId, row);
      attachments := attachments + [row];
      nextAttachmentId := nextAttachmentId + 1;
    }

    method InsertComment(missionId: int, userId: int, content: string, createdAt: int) returns (id: int)
      requires Valid()
      modifies this`comments, this`nextCommentId
      ensures Valid()
      ensures id == old(nextCommentId) && nextCommentId == id + 1
      ensures comments == old(comments) + [Comment(id, missionId, userId, content, createdAt)]
    {
      id := nextCommentId;
      PrimaryKeyAppend(comments, CommentId, nextCommentId, Comment(id, missionId, userId, content, createdAt));
      comments := comments + [Comment(id, missionId, userId, content, createdAt)];
      nextCommentId := nextCommentId + 1;
    }

    /** A plain INSERT into users; the UNIQUE index on openId refuses a second row with the same openId. */
    method InsertUser(openId: string, values: map<UserField, Cell>, now: int) returns (r: Result<int, Error>)
      requires Valid()
      modifies this`users, this`nextUserId
      ensures Valid()
      ensures HasOpenId(old(users), openId) ==> r == Err(DuplicateEntry) && users == old(users) && nextUserId == old(nextUserId)
      ensures !HasOpenId(old(users), openId) ==>
                && r == Ok(old(nextUserId)) && nextUserId == old(nextUserId) + 1
                && users == old(users) + [NewUserRow(old(nextUserId), openId, values, now)]
    {
      if HasOpenId(users, openId) {
        return Err(DuplicateEntry);
      }
      var row := NewUserRow(nextUserId, openId, values, now);
      PrimaryKeyAppend(users, UserId, nextUserId, row);
      assert UniqueBy(users + [row], UserOpenId);
      users := users + [row];
      r := Ok(nextUserId);
      nextUserId := nextUserId + 1;
    }

    method UpsertUser(openId: string, values: map<UserField, Cell>, updateSet: map<UserField, Cell>, now: int)
      requires Valid()
      modifies this`users, this`nextUserId
      ensures Valid()
      ensures users == UpsertRows(old(users), old(nextUserId), openId, values, updateSet, now)
      ensures nextUserId == if HasOpenId(old(users), openId) then old(nextUserId) else old(nextUserId) + 1
    {
      var inserting := !HasOpenId(users, openId);
      var r := UpsertRows(users, nextUserId, openId, values, updateSet, now);
      if inserting {
        PrimaryKeyAppend(users, UserId, nextUserId, NewUserRow(nextUserId, openId, values, now));
      } else {
        assert forall i :: 0 <= i < |r| ==> r[i].id == users[i].id;
      }
      users := r;
      if inserting {
        nextUserId := nextUserId + 1;
      }
    }

    /**
     * `UPDATE users SET cells WHERE id = userId`. A record naming no column
     * of users (only a password, which is not a column) leaves an empty SET
     * clause, which the store refuses.
     */
    method UpdateUsers(userId: int, cells: map<UserField, Cell>) returns (r: Result<(), Error>)
      requires Valid()
      modifies this`users
      ensures Valid()
      ensures !SetsUserColumn(cells) ==> r == Err(EmptySetClause) && users == old(users)
      ensures SetsUserColumn(cells) ==> r == Ok(()) && users == UpdateUserRows(old(users), userId, cells)
    {
      if !SetsUserColumn(cells) {
        return Err(EmptySetClause);
      }
      var rows := UpdateUserRows(users, userId, cells);
      assert forall i :: 0 <= i < |rows| ==> UserId(rows[i]) == UserId(users[i]) && UserOpenId(rows[i]) == UserOpenId(users[i]);
      users := rows;
      r := Ok(());
    }

    /**
     * The seed script's `DELETE FROM` userProgress, attachments, topics,
     * missions and rounds, in that order; the counters keep their values.
     */
    method ClearCourse()
      requires Valid()
      modifies this`progress, this`attachments, this`topics, this`missions, this`rounds
      ensures Valid()
      ensures progress == [] && attachments == [] && topics == [] && missions == [] && rounds == []
    {
      progress := [];
      attachments := [];
      topics := [];
      missions := [];
      rounds := [];
    }

    method DeleteRounds(id: int)
      requires Valid()
      modifies this`rounds
      ensures Valid()
      ensures rounds == Filter(old(rounds), Except(RoundId, id))
    {
      PrimaryKeyFilter(rounds, RoundId, nextRoundId, Except(RoundId, id));
      rounds := Filter(rounds, Except(RoundId, id));
    }

    method DeleteMissions(id: int)
      requires Valid()
      modifies this`missions
      ensures Valid()
      ensures missions == Filter(old(missions), Except(MissionId, id))
    {
      PrimaryKeyFilter(missions, MissionId, nextMissionId, Except(MissionId, id));
      missions := Filter(missions, Except(MissionId, id));
    }

    method DeleteTopics(id: int)
      requires Valid()
      modifies this`topics
      ensures Valid()
      ensures topics == Filter(old(topics), Except(TopicId, id))
    {
      PrimaryKeyFilter(topics, TopicId, nextTopicId, Except(TopicId, id));
      topics := Filter(topics, Except(TopicId, id));
    }

    method DeleteUsers(id: int)
      requires Valid()
      modifies this`users
      ensures Valid()
      ensures users == Filter(old(users), Except(UserId, id))
    {
      PrimaryKeyFilter(users, UserId, nextUserId, Except(UserId, id));
      FilterKeepsUnique(users, Except(UserId, id), UserOpenId);
      users := Filter(users, Except(UserId, id));
    }
  }
}
