/**
 * The seven tables of the MySQL schema as row datatypes.
 * Nullable columns are Option; timestamps are integers (milliseconds);
 * createdAt/updatedAt are kept only where a query orders by them.
 */
module Schema {
  import opened Wrappers
  import opened Seqs

  /** users.role is an enum of two values, `user` by default. */
  datatype Role = UserRole | AdminRole

  const DefaultRole: Role := UserRole

  datatype User = User(
    id: int,
    openId: string,              // NOT NULL and UNIQUE
    name: Option<string>,
    email: Option<string>,
    loginMethod: Option<string>,
    role: Role,
    lastSignedIn: int)

  datatype Round = Round(id: int, name: string, description: Option<string>, order: int)

  /** roundId is a plain NOT NULL int: no foreign key, so a mission may outlive its round. */
  datatype Mission = Mission(id: int, roundId: int, name: string, description: Option<string>, order: int)

  /** missionId is a plain NOT NULL int, like Mission.roundId. */
  datatype Topic = Topic(id: int, missionId: int, name: string, description: Option<string>, order: int)

  /** `completed` is an int column (0 by default), not a boolean; completedAt is nullable. */
  datatype UserProgress = UserProgress(id: int, userId: int, topicId: int, completed: int, completedAt: Option<int>)

  datatype Attachment = Attachment(
    id: int,
    topicId: int,
    fileName: string,
    fileUrl: string,
    fileKey: string,
    fileSize: Option<int>,
    mimeType: Option<string>,
    uploadedBy: int,             // NOT NULL
    createdAt: int)

  datatype Comment = Comment(id: int, missionId: int, userId: int, content: string, createdAt: int)

  // Column projections, used as sort keys and uniqueness keys.
  function UserId(u: User): int { u.id }
  function UserOpenId(u: User): string { u.openId }
  function RoundId(r: Round): int { r.id }
  function RoundOrder(r: Round): int { r.order }
  function MissionId(m: Mission): int { m.id }
  function MissionOrder(m: Mission): int { m.order }
  function TopicId(t: Topic): int { t.id }
  function TopicOrder(t: Topic): int { t.order }
  function ProgressId(p: UserProgress): int { p.id }
  /** The (userId, topicId) pair; the schema declares no unique index on it. */
  function ProgressPair(p: UserProgress): (int, int) { (p.userId, p.topicId) }
  function AttachmentId(a: Attachment): int { a.id }
  /** Descending createdAt, as an ascending sort key. */
  function AttachmentNewestFirst(a: Attachment): int { -a.createdAt }
  function CommentId(c: Comment): int { c.id }
  function CommentNewestFirst(c: Comment): int { -c.createdAt }

  /** `key = id`: the rows a `WHERE key = id` selects. */
  function WithId<T>(key: T -> int, id: int): T -> bool {
    (x: T) => key(x) == id
  }

  /** `key <> id`: the rows a `DELETE ... WHERE key = id` keeps. */
  function Except<T>(key: T -> int, id: int): T -> bool {
    (x: T) => key(x) != id
  }

  /** An auto-increment primary key: unique, positive, and below the next value to hand out. */
  predicate PrimaryKey<T>(rows: seq<T>, id: T -> int, next: int) {
    UniqueBy(rows, id) && forall i :: 0 <= i < |rows| ==> 0 < id(rows[i]) < next
  }

  lemma PrimaryKeyAppend<T>(rows: seq<T>, id: T -> int, next: int, row: T)
    requires PrimaryKey(rows, id, next) && id(row) == next && 0 < next
    ensures PrimaryKey(rows + [row], id, next + 1)
  {
  }

  lemma PrimaryKeyFilter<T(!new)>(rows: seq<T>, id: T -> int, next: int, p: T -> bool)
    requires PrimaryKey(rows, id, next)
    ensures PrimaryKey(Filter(rows, p), id, next)
  {
    FilterKeepsUnique(rows, p, id);
    var r := Filter(rows, p);
    FilterMembers(rows, p);
    forall i | 0 <= i < |r| ensures 0 < id(r[i]) < next {
      assert r[i] in rows;
    }
  }

  /** A row appended with the next auto-increment id is what a lookup by that id finds. */
  lemma FreshKeyLookup<T>(rows: seq<T>, key: T -> int, next: int, row: T)
    requires PrimaryKey(rows, key, next) && key(row) == next
    ensures FirstWith(rows + [row], WithId(key, next)) == Some(row)
  {
    assert forall i :: 0 <= i < |rows| ==> !WithId(key, next)(rows[i]);
    FirstWithAppend(rows, row, WithId(key, next));
  }

  /** After `DELETE ... WHERE key = id`, a lookup finds nothing for id and what it found before for any other key. */
  lemma DeleteLookup<T(!new)>(rows: seq<T>, key: T -> int, id: int, other: int)
    ensures FirstWith(Filter(rows, Except(key, id)), WithId(key, other)) ==
              if other == id then None else FirstWith(rows, WithId(key, other))
  {
    var kept := Filter(rows, Except(key, id));
    if other == id {
      assert forall i :: 0 <= i < |kept| ==> !WithId(key, other)(kept[i]);
    } else {
      FirstWithFilter(rows, Except(key, id), WithId(key, other));
    }
  }

  /** At most one progress row per (userId, topicId): the invariant toggling has to keep. */
  predicate AtMostOnePerPair(rows: seq<UserProgress>) {
    UniqueBy(rows, ProgressPair)
  }

  /** The store itself admits two rows for the same pair. */
  lemma {:induction false} DuplicatePairAdmitted()
    ensures var rows := [UserProgress(1, 7, 3, 1, None), UserProgress(2, 7, 3, 0, None)];
            PrimaryKey(rows, ProgressId, 3) && !AtMostOnePerPair(rows)
  {
    var rows := [UserProgress(1, 7, 3, 1, None), UserProgress(2, 7, 3, 0, None)];
    assert ProgressPair(rows[0]) == ProgressPair(rows[1]);
  }
}
