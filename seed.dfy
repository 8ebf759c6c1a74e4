/**
 * The seed script (seed-db.mjs): it empties the course tables and the
 * tables hanging off them, then flattens a nested list of rounds, their
 * missions and their topics into the rounds, missions and topics tables,
 * numbering `order` from 1 under each parent.
 *
 * Ids continue from the store's auto-increment counters, which the
 * DELETEs do not reset: the rows of one seeding take consecutive ids
 * starting at the counters' values when it begins.
 */
module Seed {
  import opened Wrappers
  import opened Seqs
  import opened Schema
  import opened Store
  import opened Db

  /** One entry of the course file; the keys are `nome`, `missoes` and `topicos`. */
  datatype SeedTopic = SeedTopic(nome: string)
  datatype SeedMission = SeedMission(nome: string, topicos: seq<SeedTopic>)
  datatype SeedRound = SeedRound(nome: string, missoes: seq<SeedMission>)

  // ------------------------------------------------ the tables a seeding writes

  /** The rounds rows of the first n input rounds: ids from `firstId`, orders 1, 2, ... */
  function RoundRowsUpTo(data: seq<SeedRound>, n: nat, firstId: int): (r: seq<Round>)
    requires n <= |data|
    ensures |r| == n
  {
    seq(n, i requires 0 <= i < n => Round(firstId + i, data[i].nome, Some(""), i + 1))
  }

  function RoundRows(data: seq<SeedRound>, firstId: int): (r: seq<Round>)
    ensures |r| == |data|
  {
    RoundRowsUpTo(data, |data|, firstId)
  }

  /** The missions of the first n rounds, in input order. */
  function MissionsUpTo(data: seq<SeedRound>, n: nat): seq<SeedMission>
    requires n <= |data|
    decreases n
  {
    if n == 0 then [] else MissionsUpTo(data, n - 1) + data[n - 1].missoes
  }

  function AllMissions(data: seq<SeedRound>): seq<SeedMission> {
    MissionsUpTo(data, |data|)
  }

  /** The missions rows of one round: ids from `firstId`, orders 1, 2, ... */
  function MissionBlock(missions: seq<SeedMission>, roundId: int, firstId: int): (r: seq<Mission>)
    ensures |r| == |missions|
  {
    seq(|missions|, j requires 0 <= j < |missions| =>
      Mission(firstId + j, roundId, missions[j].nome, Some(""), j + 1))
  }

  /** The missions rows of the first n rounds; the round at index i has id `firstRoundId + i`. */
  function MissionRowsUpTo(data: seq<SeedRound>, n: nat, firstRoundId: int, firstId: int): (r: seq<Mission>)
    requires n <= |data|
    ensures |r| == |MissionsUpTo(data, n)|
    decreases n
  {
    if n == 0 then []
    else
      MissionRowsUpTo(data, n - 1, firstRoundId, firstId) +
        MissionBlock(data[n - 1].missoes, firstRoundId + n - 1, firstId + |MissionsUpTo(data, n - 1)|)
  }

  function MissionRows(data: seq<SeedRound>, firstRoundId: int, firstId: int): (r: seq<Mission>)
    ensures |r| == |AllMissions(data)|
  {
    MissionRowsUpTo(data, |data|, firstRoundId, firstId)
  }

  /** How many topics the first n missions hold together. */
  function TopicCountUpTo(missions: seq<SeedMission>, n: nat): nat
    requires n <= |missions|
    decreases n
  {
    if n == 0 then 0 else TopicCountUpTo(missions, n - 1) + |missions[n - 1].topicos|
  }

  function TopicCount(missions: seq<SeedMission>): nat {
    TopicCountUpTo(missions, |missions|)
  }

  /** The topics rows of one mission: ids from `firstId`, orders 1, 2, ... */
  function TopicBlock(topics: seq<SeedTopic>, missionId: int, firstId: int): (r: seq<Topic>)
    ensures |r| == |topics|
  {
    seq(|topics|, k requires 0 <= k < |topics| => Topic(firstId + k, missionId, topics[k].nome, Some(""), k + 1))
  }

  /** The topics rows of the first n missions; the mission at index j has id `firstMissionId + j`. */
  function TopicRowsUpTo(missions: seq<SeedMission>, n: nat, firstMissionId: int, firstId: int): (r: seq<Topic>)
    requires n <= |missions|
    ensures |r| == TopicCountUpTo(missions, n)
    decreases n
  {
    if n == 0 then []
    else
      TopicRowsUpTo(missions, n - 1, firstMissionId, firstId) +
        TopicBlock(missions[n - 1].topicos, firstMissionId + n - 1, firstId + TopicCountUpTo(missions, n - 1))
  }

  function TopicRows(missions: seq<SeedMission>, firstMissionId: int, firstId: int): (r: seq<Topic>)
    ensures |r| == TopicCount(missions)
  {
    TopicRowsUpTo(missions, |missions|, firstMissionId, firstId)
  }

  /** The topics of a prefix of the missions do not depend on what follows it. */
  lemma {:induction false} TopicsOfPrefix(a: seq<SeedMission>, b: seq<SeedMission>, n: nat, firstMissionId: int, firstId: int)
    requires n <= |a|
    decreases n
    ensures TopicCountUpTo(a + b, n) == TopicCountUpTo(a, n)
    ensures TopicRowsUpTo(a + b, n, firstMissionId, firstId) == TopicRowsUpTo(a, n, firstMissionId, firstId)
  {
    if n > 0 {
      TopicsOfPrefix(a, b, n - 1, firstMissionId, firstId);
      assert (a + b)[n - 1] == a[n - 1];
    }
  }

  /** Topic rows are laid out run after run: those of `a + b` are those of `a`, then those of `b`. */
  lemma {:induction false} TopicsAppend(a: seq<SeedMission>, b: seq<SeedMission>, k: nat, firstMissionId: int, firstId: int)
    requires k <= |b|
    decreases k
    ensures TopicCountUpTo(a + b, |a| + k) == TopicCount(a) + TopicCountUpTo(b, k)
    ensures TopicRowsUpTo(a + b, |a| + k, firstMissionId, firstId)
         == TopicRows(a, firstMissionId, firstId) + TopicRowsUpTo(b, k, firstMissionId + |a|, firstId + TopicCount(a))
  {
    if k == 0 {
      TopicsOfPrefix(a, b, |a|, firstMissionId, firstId);
    } else {
      TopicsAppend(a, b, k - 1, firstMissionId, firstId);
      var ab := a + b;
      assert ab[|a| + k - 1] == b[k - 1];
      assert TopicRowsUpTo(ab, |a| + k, firstMissionId, firstId)
          == TopicRowsUpTo(ab, |a| + (k - 1), firstMissionId, firstId)
             + TopicBlock(b[k - 1].topicos, firstMissionId + |a| + k - 1, firstId + TopicCountUpTo(ab, |a| + (k - 1)));
      var rowsA := TopicRows(a, firstMissionId, firstId);
      var rowsB := TopicRowsUpTo(b, k - 1, firstMissionId + |a|, firstId + TopicCount(a));
      var block := TopicBlock(b[k - 1].topicos, firstMissionId + |a| + k - 1, firstId + TopicCount(a) + TopicCountUpTo(b, k - 1));
      assert (rowsA + rowsB) + block == rowsA + (rowsB + block);
    }
  }

  // Round n extends each table by that round's rows, whatever rows were there before.

  lemma RoundRowsStep(data: seq<SeedRound>, n: nat, firstRoundId: int, rounds: seq<Round>)
    requires 0 < n <= |data|
    ensures rounds + RoundRowsUpTo(data, n, firstRoundId)
         == (rounds + RoundRowsUpTo(data, n - 1, firstRoundId))
            + [Round(firstRoundId + (n - 1), data[n - 1].nome, Some(""), n)]
  {
    var row := Round(firstRoundId + (n - 1), data[n - 1].nome, Some(""), n);
    assert RoundRowsUpTo(data, n, firstRoundId) == RoundRowsUpTo(data, n - 1, firstRoundId) + [row];
    assert (rounds + RoundRowsUpTo(data, n - 1, firstRoundId)) + [row] == rounds + (RoundRowsUpTo(data, n - 1, firstRoundId) + [row]);
  }

  lemma MissionRowsStep(data: seq<SeedRound>, n: nat, firstRoundId: int, firstMissionId: int, missions: seq<Mission>)
    requires 0 < n <= |data|
    ensures missions + MissionRowsUpTo(data, n, firstRoundId, firstMissionId)
         == (missions + MissionRowsUpTo(data, n - 1, firstRoundId, firstMissionId))
            + MissionBlock(data[n - 1].missoes, firstRoundId + (n - 1), firstMissionId + |MissionsUpTo(data, n - 1)|)
    ensures |MissionsUpTo(data, n)| == |MissionsUpTo(data, n - 1)| + |data[n - 1].missoes|
  {
    var block := MissionBlock(data[n - 1].missoes, firstRoundId + (n - 1), firstMissionId + |MissionsUpTo(data, n - 1)|);
    assert MissionRowsUpTo(data, n, firstRoundId, firstMissionId)
        == MissionRowsUpTo(data, n - 1, firstRoundId, firstMissionId) + block;
    assert (missions + MissionRowsUpTo(data, n - 1, firstRoundId, firstMissionId)) + block == missions + (MissionRowsUpTo(data, n - 1, firstRoundId, firstMissionId) + block);
  }

  lemma TopicRowsStep(data: seq<SeedRound>, n: nat, firstMissionId: int, firstTopicId: int, topics: seq<Topic>)
    requires 0 < n <= |data|
    ensures topics + TopicRows(MissionsUpTo(data, n), firstMissionId, firstTopicId)
         == (topics + TopicRows(MissionsUpTo(data, n - 1), firstMissionId, firstTopicId))
            + TopicRows(data[n - 1].missoes, firstMissionId + |MissionsUpTo(data, n - 1)|,
                        firstTopicId + TopicCount(MissionsUpTo(data, n - 1)))
    ensures TopicCount(MissionsUpTo(data, n)) == TopicCount(MissionsUpTo(data, n - 1)) + TopicCount(data[n - 1].missoes)
  {
    var before, added := MissionsUpTo(data, n - 1), data[n - 1].missoes;
    assert MissionsUpTo(data, n) == before + added;
    TopicsAppend(before, added, |added|, firstMissionId, firstTopicId);
    assert (topics + TopicRows(before, firstMissionId, firstTopicId)) + TopicRows(added, firstMissionId + |before|, firstTopicId + TopicCount(before)) == topics + (TopicRows(before, firstMissionId, firstTopicId) + TopicRows(added, firstMissionId + |before|, firstTopicId + TopicCount(before)));
  }

  lemma TopicBlockStep(topics: seq<SeedTopic>, k: nat, missionId: int, firstId: int, rows: seq<Topic>)
    requires k < |topics|
    ensures rows + TopicBlock(topics[..k + 1], missionId, firstId)
         == (rows + TopicBlock(topics[..k], missionId, firstId)) + [Topic(firstId + k, missionId, topics[k].nome, Some(""), k + 1)]
  {
    var row := Topic(firstId + k, missionId, topics[k].nome, Some(""), k + 1);
    assert TopicBlock(topics[..k + 1], missionId, firstId) == TopicBlock(topics[..k], missionId, firstId) + [row];
    assert (rows + TopicBlock(topics[..k], missionId, firstId)) + [row] == rows + (TopicBlock(topics[..k], missionId, firstId) + [row]);
  }

  lemma MissionBlockStep(missions: seq<SeedMission>, n: nat, roundId: int, firstId: int, rows: seq<Mission>)
    requires 0 < n <= |missions|
    ensures rows + MissionBlock(missions[..n], roundId, firstId)
         == (rows + MissionBlock(missions[..n - 1], roundId, firstId))
            + [Mission(firstId + (n - 1), roundId, missions[n - 1].nome, Some(""), n)]
  {
    var row := Mission(firstId + (n - 1), roundId, missions[n - 1].nome, Some(""), n);
    assert MissionBlock(missions[..n], roundId, firstId) == MissionBlock(missions[..n - 1], roundId, firstId) + [row];
    assert (rows + MissionBlock(missions[..n - 1], roundId, firstId)) + [row] == rows + (MissionBlock(missions[..n - 1], roundId, firstId) + [row]);
  }

  lemma TopicRowsUpToStep(missions: seq<SeedMission>, n: nat, firstMissionId: int, firstId: int, rows: seq<Topic>)
    requires 0 < n <= |missions|
    ensures rows + TopicRowsUpTo(missions, n, firstMissionId, firstId)
         == (rows + TopicRowsUpTo(missions, n - 1, firstMissionId, firstId))
            + TopicBlock(missions[n - 1].topicos, firstMissionId + (n - 1), firstId + TopicCountUpTo(missions, n - 1))
  {
    var block := TopicBlock(missions[n - 1].topicos, firstMissionId + (n - 1), firstId + TopicCountUpTo(missions, n - 1));
    assert TopicRowsUpTo(missions, n, firstMissionId, firstId) == TopicRowsUpTo(missions, n - 1, firstMissionId, firstId) + block;
    assert (rows + TopicRowsUpTo(missions, n - 1, firstMissionId, firstId)) + block == rows + (TopicRowsUpTo(missions, n - 1, firstMissionId, firstId) + block);
  }

  // ------------------------------------------------ the script, one insert at a time

  /** The course tables and their auto-increment counters. */
  datatype Course = Course(rounds: seq<Round>, missions: seq<Mission>, topics: seq<Topic>,
                           nextRoundId: int, nextMissionId: int, nextTopicId: int)

  function CourseOf(db: Database): Course
    reads db
  {
    Course(db.rounds, db.missions, db.topics, db.nextRoundId, db.nextMissionId, db.nextTopicId)
  }

  /** One pass of the middle loop: the mission row under `roundId`, then its topics, ids from the counters. */
  function AddMission(c: Course, roundId: int, mission: SeedMission, order: int): Course {
    Course(c.rounds,
           c.missions + [Mission(c.nextMissionId, roundId, mission.nome, Some(""), order)],
           c.topics + TopicBlock(mission.topicos, c.nextMissionId, c.nextTopicId),
           c.nextRoundId, c.nextMissionId + 1, c.nextTopicId + |mission.topicos|)
  }

  /** The first n passes of the middle loop; the mission at index j gets order j + 1. */
  function AddMissions(c: Course, roundId: int, missions: seq<SeedMission>, n: nat): Course
    requires n <= |missions|
    decreases n
  {
    if n == 0 then c else AddMission(AddMissions(c, roundId, missions, n - 1), roundId, missions[n - 1], n)
  }

  /** One pass of the outer loop: the round row, then its missions. */
  function AddRound(c: Course, round: SeedRound, order: int): Course {
    var withRound := Course(c.rounds + [Round(c.nextRoundId, round.nome, Some(""), order)], c.missions, c.topics,
                            c.nextRoundId + 1, c.nextMissionId, c.nextTopicId);
    AddMissions(withRound, c.nextRoundId, round.missoes, |round.missoes|)
  }

  /** The first n passes of the outer loop; the round at index i gets order i + 1. */
  function AddRounds(c: Course, data: seq<SeedRound>, n: nat): Course
    requires n <= |data|
    decreases n
  {
    if n == 0 then c else AddRound(AddRounds(c, data, n - 1), data[n - 1], n)
  }

  /** Missions added one at a time: one mission row each, and their topics run after run. */
  lemma {:induction false} AddMissionsTables(c: Course, roundId: int, missions: seq<SeedMission>, n: nat)
    requires n <= |missions|
    decreases n
    ensures AddMissions(c, roundId, missions, n) ==
              Course(c.rounds,
                     c.missions + MissionBlock(missions[..n], roundId, c.nextMissionId),
                     c.topics + TopicRowsUpTo(missions, n, c.nextMissionId, c.nextTopicId),
                     c.nextRoundId, c.nextMissionId + n, c.nextTopicId + TopicCountUpTo(missions, n))
  {
    if n > 0 {
      AddMissionsTables(c, roundId, missions, n - 1);
      MissionBlockStep(missions, n, roundId, c.nextMissionId, c.missions);
      TopicRowsUpToStep(missions, n, c.nextMissionId, c.nextTopicId, c.topics);
    }
  }

  /** A round adds one round row, its mission block and the topics of its missions. */
  lemma AddRoundTables(c: Course, round: SeedRound, order: int)
    ensures AddRound(c, round, order).rounds == c.rounds + [Round(c.nextRoundId, round.nome, Some(""), order)]
    ensures AddRound(c, round, order).missions == c.missions + MissionBlock(round.missoes, c.nextRoundId, c.nextMissionId)
    ensures AddRound(c, round, order).topics == c.topics + TopicRows(round.missoes, c.nextMissionId, c.nextTopicId)
    ensures AddRound(c, round, order).nextRoundId == c.nextRoundId + 1
    ensures AddRound(c, round, order).nextMissionId == c.nextMissionId + |round.missoes|
    ensures AddRound(c, round, order).nextTopicId == c.nextTopicId + TopicCount(round.missoes)
  {
    var withRound := Course(c.rounds + [Round(c.nextRoundId, round.nome, Some(""), order)], c.missions, c.topics,
                            c.nextRoundId + 1, c.nextMissionId, c.nextTopicId);
    AddMissionsTables(withRound, c.nextRoundId, round.missoes, |round.missoes|);
    assert round.missoes[..|round.missoes|] == round.missoes;
  }

  lemma {:induction false} AddRoundsRounds(c: Course, data: seq<SeedRound>, n: nat)
    requires n <= |data|
    decreases n
    ensures AddRounds(c, data, n).rounds == c.rounds + RoundRowsUpTo(data, n, c.nextRoundId)
    ensures AddRounds(c, data, n).nextRoundId == c.nextRoundId + n
  {
    if n > 0 {
      AddRoundsRounds(c, data, n - 1);
      var prev := AddRounds(c, data, n - 1);
      assert AddRounds(c, data, n) == AddRound(prev, data[n - 1], n);
      AddRoundTables(prev, data[n - 1], n);
      RoundRowsStep(data, n, c.nextRoundId, c.rounds);
    }
  }

  lemma {:induction false} AddRoundsMissions(c: Course, data: seq<SeedRound>, n: nat)
    requires n <= |data|
    decreases n
    ensures AddRounds(c, data, n).missions == c.missions + MissionRowsUpTo(data, n, c.nextRoundId, c.nextMissionId)
    ensures AddRounds(c, data, n).nextMissionId == c.nextMissionId + |MissionsUpTo(data, n)|
  {
    if n > 0 {
      AddRoundsMissions(c, data, n - 1);
      AddRoundsRounds(c, data, n - 1);
      var prev := AddRounds(c, data, n - 1);
      assert AddRounds(c, data, n) == AddRound(prev, data[n - 1], n);
      AddRoundTables(prev, data[n - 1], n);
      MissionRowsStep(data, n, c.nextRoundId, c.nextMissionId, c.missions);
    }
  }

  lemma {:induction false} AddRoundsTopics(c: Course, data: seq<SeedRound>, n: nat)
    requires n <= |data|
    decreases n
    ensures AddRounds(c, data, n).topics == c.topics + TopicRows(MissionsUpTo(data, n), c.nextMissionId, c.nextTopicId)
    ensures AddRounds(c, data, n).nextTopicId == c.nextTopicId + TopicCount(MissionsUpTo(data, n))
  {
    if n > 0 {
      AddRoundsTopics(c, data, n - 1);
      AddRoundsMissions(c, data, n - 1);
      var prev := AddRounds(c, data, n - 1);
      assert AddRounds(c, data, n) == AddRound(prev, data[n - 1], n);
      AddRoundTables(prev, data[n - 1], n);
      TopicRowsStep(data, n, c.nextMissionId, c.nextTopicId, c.topics);
      assert prev.nextMissionId == c.nextMissionId + |MissionsUpTo(data, n - 1)|;
      assert prev.nextTopicId == c.nextTopicId + TopicCount(MissionsUpTo(data, n - 1));
    }
  }

  /** Rounds added one at a time lay the tables out as the closed forms above describe. */
  lemma AddRoundsTables(c: Course, data: seq<SeedRound>)
    ensures AddRounds(c, data, |data|) ==
              Course(c.rounds + RoundRows(data, c.nextRoundId),
                     c.missions + MissionRows(data, c.nextRoundId, c.nextMissionId),
                     c.topics + TopicRows(AllMissions(data), c.nextMissionId, c.nextTopicId),
                     c.nextRoundId + |data|, c.nextMissionId + |AllMissions(data)|,
                     c.nextTopicId + TopicCount(AllMissions(data)))
  {
    AddRoundsRounds(c, data, |data|);
    AddRoundsMissions(c, data, |data|);
    AddRoundsTopics(c, data, |data|);
  }

  /** The course tables a seeding leaves, starting from empty tables and the counters' values. */
  function Seeded(data: seq<SeedRound>, firstRoundId: int, firstMissionId: int, firstTopicId: int): Course {
    Course(RoundRows(data, firstRoundId),
           MissionRows(data, firstRoundId, firstMissionId),
           TopicRows(AllMissions(data), firstMissionId, firstTopicId),
           firstRoundId + |data|, firstMissionId + |AllMissions(data)|, firstTopicId + TopicCount(AllMissions(data)))
  }

  lemma SeedFromEmpty(data: seq<SeedRound>, firstRoundId: int, firstMissionId: int, firstTopicId: int)
    ensures AddRounds(Course([], [], [], firstRoundId, firstMissionId, firstTopicId), data, |data|)
         == Seeded(data, firstRoundId, firstMissionId, firstTopicId)
  {
    var c := Course([], [], [], firstRoundId, firstMissionId, firstTopicId);
    AddRoundsTables(c, data);
    var a := AddRounds(c, data, |data|);
    assert a.rounds == RoundRows(data, firstRoundId) by { EmptyConcat(RoundRows(data, firstRoundId)); }
    assert a.missions == MissionRows(data, firstRoundId, firstMissionId) by { EmptyConcat(MissionRows(data, firstRoundId, firstMissionId)); }
    assert a.topics == TopicRows(AllMissions(data), firstMissionId, firstTopicId) by { EmptyConcat(TopicRows(AllMissions(data), firstMissionId, firstTopicId)); }
    assert a.nextRoundId == firstRoundId + |data|;
    assert a.nextMissionId == firstMissionId + |AllMissions(data)|;
    assert a.nextTopicId == firstTopicId + TopicCount(AllMissions(data));
    var e := Seeded(data, firstRoundId, firstMissionId, firstTopicId);
    assert a.rounds == e.rounds && a.missions == e.missions && a.topics == e.topics;
    assert a.nextRoundId == e.nextRoundId && a.nextMissionId == e.nextMissionId && a.nextTopicId == e.nextTopicId;
  }


  // ------------------------------------------------ what the seeded tables hold

  /** Seeded rounds are already in `order`, so getRounds lists them in input order. */
  lemma SeededRoundsInOrder(data: seq<SeedRound>, firstRoundId: int)
    ensures RoundsByOrder(RoundRows(data, firstRoundId)) == RoundRows(data, firstRoundId)
  {
    var rows := RoundRows(data, firstRoundId);
    forall i, j | 0 <= i < j < |rows| ensures RoundOrder(rows[i]) <= RoundOrder(rows[j]) {
      assert rows[i].order == i + 1 && rows[j].order == j + 1;
    }
    SortSorted(rows, RoundOrder);
  }

  /** Mission rows sit at the positions of their missions, with consecutive ids and description ''. */
  lemma {:induction false} MissionRowsLayout(data: seq<SeedRound>, n: nat, firstRoundId: int, firstMissionId: int)
    requires n <= |data|
    decreases n
    ensures forall g :: 0 <= g < |MissionsUpTo(data, n)| ==>
              && MissionRowsUpTo(data, n, firstRoundId, firstMissionId)[g].id == firstMissionId + g
              && MissionRowsUpTo(data, n, firstRoundId, firstMissionId)[g].name == MissionsUpTo(data, n)[g].nome
              && MissionRowsUpTo(data, n, firstRoundId, firstMissionId)[g].description == Some("")
  {
    if n > 0 {
      MissionRowsLayout(data, n - 1, firstRoundId, firstMissionId);
      var before, added := MissionsUpTo(data, n - 1), data[n - 1].missoes;
      var prefix := MissionRowsUpTo(data, n - 1, firstRoundId, firstMissionId);
      var block := MissionBlock(added, firstRoundId + (n - 1), firstMissionId + |before|);
      var rows := MissionRowsUpTo(data, n, firstRoundId, firstMissionId);
      assert rows == prefix + block;
      assert MissionsUpTo(data, n) == before + added;
      forall g | 0 <= g < |MissionsUpTo(data, n)|
        ensures rows[g].id == firstMissionId + g && rows[g].name == MissionsUpTo(data, n)[g].nome
             && rows[g].description == Some("")
      {
        if g >= |before| {
          assert rows[g] == block[g - |before|];
        }
      }
    }
  }

  /** A round's block of mission rows has strictly ascending orders. */
  lemma MissionBlockInOrder(missions: seq<SeedMission>, roundId: int, firstId: int)
    ensures StrictlySortedBy(MissionBlock(missions, roundId, firstId), MissionOrder)
  {
    var block := MissionBlock(missions, roundId, firstId);
    forall j, k | 0 <= j < k < |block| ensures MissionOrder(block[j]) < MissionOrder(block[k]) {
      assert block[j].order == j + 1 && block[k].order == k + 1;
    }
  }

  /** No mission row is under a round that has not been inserted yet. */
  lemma {:induction false} NoMissionRowsYet(data: seq<SeedRound>, n: nat, firstRoundId: int, firstMissionId: int, i: nat)
    requires n <= i < |data|
    decreases n
    ensures Filter(MissionRowsUpTo(data, n, firstRoundId, firstMissionId), OfRound(firstRoundId + i)) == []
  {
    if n > 0 {
      NoMissionRowsYet(data, n - 1, firstRoundId, firstMissionId, i);
      var prefix := MissionRowsUpTo(data, n - 1, firstRoundId, firstMissionId);
      var block := MissionBlock(data[n - 1].missoes, firstRoundId + (n - 1), firstMissionId + |MissionsUpTo(data, n - 1)|);
      assert MissionRowsUpTo(data, n, firstRoundId, firstMissionId) == prefix + block;
      FilterConcat(prefix, block, OfRound(firstRoundId + i));
      FilterNone(block, OfRound(firstRoundId + i));
    }
  }

  /** The round inserted last owns exactly its own block of mission rows. */
  lemma MissionRowsOfNewRound(data: seq<SeedRound>, n: nat, firstRoundId: int, firstMissionId: int)
    requires 0 < n <= |data|
    ensures Filter(MissionRowsUpTo(data, n, firstRoundId, firstMissionId), OfRound(firstRoundId + (n - 1)))
         == MissionBlock(data[n - 1].missoes, firstRoundId + (n - 1), firstMissionId + |MissionsUpTo(data, n - 1)|)
  {
    NoMissionRowsYet(data, n - 1, firstRoundId, firstMissionId, n - 1);
    var prefix := MissionRowsUpTo(data, n - 1, firstRoundId, firstMissionId);
    var block := MissionBlock(data[n - 1].missoes, firstRoundId + (n - 1), firstMissionId + |MissionsUpTo(data, n - 1)|);
    assert MissionRowsUpTo(data, n, firstRoundId, firstMissionId) == prefix + block;
    FilterAppendAll(prefix, block, OfRound(firstRoundId + (n - 1)));
  }

  /** Once round i is in, the missions rows under it are that round's block. */
  lemma {:induction false} MissionRowsOfRound(data: seq<SeedRound>, n: nat, firstRoundId: int, firstMissionId: int, i: nat)
    requires i < n <= |data|
    decreases n
    ensures Filter(MissionRowsUpTo(data, n, firstRoundId, firstMissionId), OfRound(firstRoundId + i))
         == MissionBlock(data[i].missoes, firstRoundId + i, firstMissionId + |MissionsUpTo(data, i)|)
  {
    if i == n - 1 {
      MissionRowsOfNewRound(data, n, firstRoundId, firstMissionId);
    } else {
      MissionRowsOfRound(data, n - 1, firstRoundId, firstMissionId, i);
      var prefix := MissionRowsUpTo(data, n - 1, firstRoundId, firstMissionId);
      var block := MissionBlock(data[n - 1].missoes, firstRoundId + (n - 1), firstMissionId + |MissionsUpTo(data, n - 1)|);
      assert MissionRowsUpTo(data, n, firstRoundId, firstMissionId) == prefix + block;
      FilterAppendNone(prefix, block, OfRound(firstRoundId + i));
    }
  }

  /**
   * After seeding, getMissionsByRoundId on the round at index i lists
   * exactly that round's missions, in input order, with orders 1, 2, ...
   */
  lemma {:induction false} SeededMissionsOfRound(data: seq<SeedRound>, i: nat, firstRoundId: int, firstMissionId: int)
    requires i < |data|
    ensures MissionsOfRound(MissionRows(data, firstRoundId, firstMissionId), firstRoundId + i)
         == MissionBlock(data[i].missoes, firstRoundId + i, firstMissionId + |MissionsUpTo(data, i)|)
  {
    MissionRowsOfRound(data, |data|, firstRoundId, firstMissionId, i);
    MissionBlockInOrder(data[i].missoes, firstRoundId + i, firstMissionId + |MissionsUpTo(data, i)|);
    MissionsOfRoundInOrder(MissionRowsUpTo(data, |data|, firstRoundId, firstMissionId), firstRoundId + i);
  }

  /** Topic rows all carry description ''. */
  lemma {:induction false} TopicRowsDescriptions(missions: seq<SeedMission>, n: nat, firstMissionId: int, firstId: int)
    requires n <= |missions|
    decreases n
    ensures forall k :: 0 <= k < |TopicRowsUpTo(missions, n, firstMissionId, firstId)| ==>
              TopicRowsUpTo(missions, n, firstMissionId, firstId)[k].description == Some("")
  {
    if n > 0 {
      TopicRowsDescriptions(missions, n - 1, firstMissionId, firstId);
      var prefix := TopicRowsUpTo(missions, n - 1, firstMissionId, firstId);
      var block := TopicBlock(missions[n - 1].topicos, firstMissionId + (n - 1), firstId + TopicCountUpTo(missions, n - 1));
      var rows := TopicRowsUpTo(missions, n, firstMissionId, firstId);
      assert rows == prefix + block;
      forall k | 0 <= k < |rows| ensures rows[k].description == Some("") {
        if k >= |prefix| {
          assert rows[k] == block[k - |prefix|];
        }
      }
    }
  }

  /** A mission's block of topic rows has strictly ascending orders. */
  lemma TopicBlockInOrder(topics: seq<SeedTopic>, missionId: int, firstId: int)
    ensures StrictlySortedBy(TopicBlock(topics, missionId, firstId), TopicOrder)
  {
    var block := TopicBlock(topics, missionId, firstId);
    forall j, k | 0 <= j < k < |block| ensures TopicOrder(block[j]) < TopicOrder(block[k]) {
      assert block[j].order == j + 1 && block[k].order == k + 1;
    }
  }

  /** No topic row is under a mission that has not been inserted yet. */
  lemma {:induction false} NoTopicRowsYet(missions: seq<SeedMission>, n: nat, firstMissionId: int, firstId: int, j: nat)
    requires n <= j < |missions|
    decreases n
    ensures Filter(TopicRowsUpTo(missions, n, firstMissionId, firstId), OfMission(firstMissionId + j)) == []
  {
    if n > 0 {
      NoTopicRowsYet(missions, n - 1, firstMissionId, firstId, j);
      var prefix := TopicRowsUpTo(missions, n - 1, firstMissionId, firstId);
      var block := TopicBlock(missions[n - 1].topicos, firstMissionId + (n - 1), firstId + TopicCountUpTo(missions, n - 1));
      assert TopicRowsUpTo(missions, n, firstMissionId, firstId) == prefix + block;
      FilterConcat(prefix, block, OfMission(firstMissionId + j));
      FilterNone(block, OfMission(firstMissionId + j));
    }
  }

  /** The mission inserted last owns exactly its own block of topic rows. */
  lemma TopicRowsOfNewMission(missions: seq<SeedMission>, n: nat, firstMissionId: int, firstId: int)
    requires 0 < n <= |missions|
    ensures Filter(TopicRowsUpTo(missions, n, firstMissionId, firstId), OfMission(firstMissionId + (n - 1)))
         == TopicBlock(missions[n - 1].topicos, firstMissionId + (n - 1), firstId + TopicCountUpTo(missions, n - 1))
  {
    NoTopicRowsYet(missions, n - 1, firstMissionId, firstId, n - 1);
    var prefix := TopicRowsUpTo(missions, n - 1, firstMissionId, firstId);
    var block := TopicBlock(missions[n - 1].topicos, firstMissionId + (n - 1), firstId + TopicCountUpTo(missions, n - 1));
    assert TopicRowsUpTo(missions, n, firstMissionId, firstId) == prefix + block;
    FilterAppendAll(prefix, block, OfMission(firstMissionId + (n - 1)));
  }

  /** Once mission j is in, the topics rows under it are that mission's block. */
  lemma {:induction false} TopicRowsOfMission(missions: seq<SeedMission>, n: nat, firstMissionId: int, firstId: int, j: nat)
    requires j < n <= |missions|
    decreases n
    ensures Filter(TopicRowsUpTo(missions, n, firstMissionId, firstId), OfMission(firstMissionId + j))
         == TopicBlock(missions[j].topicos, firstMissionId + j, firstId + TopicCountUpTo(missions, j))
  {
    if j == n - 1 {
      TopicRowsOfNewMission(missions, n, firstMissionId, firstId);
    } else {
      TopicRowsOfMission(missions, n - 1, firstMissionId, firstId, j);
      var prefix := TopicRowsUpTo(missions, n - 1, firstMissionId, firstId);
      var block := TopicBlock(missions[n - 1].topicos, firstMissionId + (n - 1), firstId + TopicCountUpTo(missions, n - 1));
      assert TopicRowsUpTo(missions, n, firstMissionId, firstId) == prefix + block;
      FilterAppendNone(prefix, block, OfMission(firstMissionId + j));
    }
  }

  /**
   * After seeding, getTopicsByMissionId on the mission at index j (whose
   * row has id firstMissionId + j) lists exactly that mission's topics, in
   * input order, with orders 1, 2, ...
   */
  lemma {:induction false} SeededTopicsOfMission(missions: seq<SeedMission>, j: nat, firstMissionId: int, firstId: int)
    requires j < |missions|
    ensures TopicsOfMission(TopicRows(missions, firstMissionId, firstId), firstMissionId + j)
         == TopicBlock(missions[j].topicos, firstMissionId + j, firstId + TopicCountUpTo(missions, j))
  {
    TopicRowsOfMission(missions, |missions|, firstMissionId, firstId, j);
    TopicBlockInOrder(missions[j].topicos, firstMissionId + j, firstId + TopicCountUpTo(missions, j));
    TopicsOfMissionInOrder(TopicRowsUpTo(missions, |missions|, firstMissionId, firstId), firstMissionId + j);
  }

  /**
   * The seeded tables: every description is '', mission row g carries the
   * id and name of the g-th input mission, and there are as many topic
   * rows as the input has topics.
   */
  lemma SeededLayout(data: seq<SeedRound>, firstRoundId: int, firstMissionId: int, firstTopicId: int)
    ensures var c := Seeded(data, firstRoundId, firstMissionId, firstTopicId);
      && (forall i :: 0 <= i < |c.rounds| ==> c.rounds[i].description == Some(""))
      && |c.missions| == |AllMissions(data)|
      && (forall g :: 0 <= g < |c.missions| ==>
            c.missions[g].id == firstMissionId + g && c.missions[g].name == AllMissions(data)[g].nome
            && c.missions[g].description == Some(""))
      && |c.topics| == TopicCount(AllMissions(data))
      && (forall k :: 0 <= k < |c.topics| ==> c.topics[k].description == Some(""))
  {
    MissionRowsLayout(data, |data|, firstRoundId, firstMissionId);
    TopicRowsDescriptions(AllMissions(data), |AllMissions(data)|, firstMissionId, firstTopicId);
  }

  /** The innermost loop of seed-db.mjs:43-51: the topics of one mission, orders from 1. */
  method SeedTopics(db: Database, missionId: int, topics: seq<SeedTopic>)
    requires db.Valid()
    modifies db`topics, db`nextTopicId
    ensures db.Valid()
    ensures db.topics == old(db.topics) + TopicBlock(topics, missionId, old(db.nextTopicId))
    ensures db.nextTopicId == old(db.nextTopicId) + |topics|
  {
    ghost var rows0, firstId := db.topics, db.nextTopicId;
    var topicOrder := 1;
    for k := 0 to |topics|
      invariant db.Valid()
      invariant topicOrder == k + 1
      invariant db.topics == rows0 + TopicBlock(topics[..k], missionId, firstId)
      invariant db.nextTopicId == firstId + k
    {
      TopicBlockStep(topics, k, missionId, firstId, rows0);
      var _ := db.InsertTopic(missionId, topics[k].nome, Some(""), topicOrder);
      topicOrder := topicOrder + 1;
    }
    assert topics[..|topics|] == topics;
  }

  /** One pass of the middle loop of seed-db.mjs:33-54: a mission, then its topics. */
  method SeedOneMission(db: Database, roundId: int, mission: SeedMission, missionOrder: int)
    requires db.Valid()
    modifies db`missions, db`nextMissionId, db`topics, db`nextTopicId
    ensures db.Valid()
    ensures CourseOf(db) == AddMission(old(CourseOf(db)), roundId, mission, missionOrder)
  {
    var missionId := db.InsertMission(roundId, mission.nome, Some(""), missionOrder);
    SeedTopics(db, missionId, mission.topicos);
  }

  /** The middle loop of seed-db.mjs:33-54: the missions of one round and their topics, orders from 1. */
  method SeedMissions(db: Database, roundId: int, missions: seq<SeedMission>)
    requires db.Valid()
    modifies db`missions, db`nextMissionId, db`topics, db`nextTopicId
    ensures db.Valid()
    ensures CourseOf(db) == AddMissions(old(CourseOf(db)), roundId, missions, |missions|)
  {
    ghost var c0 := CourseOf(db);
    var missionOrder := 1;
    for j := 0 to |missions|
      invariant db.Valid()
      invariant missionOrder == j + 1
      invariant CourseOf(db) == AddMissions(c0, roundId, missions, j)
    {
      SeedOneMission(db, roundId, missions[j], missionOrder);
      missionOrder := missionOrder + 1;
    }
  }

  /** One pass of the outer loop of seed-db.mjs:22-57: a round, then its missions and their topics. */
  method SeedOneRound(db: Database, round: SeedRound, roundOrder: int)
    requires db.Valid()
    modifies db`rounds, db`nextRoundId, db`missions, db`nextMissionId, db`topics, db`nextTopicId
    ensures db.Valid()
    ensures CourseOf(db) == AddRound(old(CourseOf(db)), round, roundOrder)
  {
    var roundId := db.InsertRound(round.nome, Some(""), roundOrder);
    SeedMissions(db, roundId, round.missoes);
  }

  /** The outer loop of seed-db.mjs:22-57: every round with its missions and topics, orders from 1. */
  method SeedRounds(db: Database, data: seq<SeedRound>)
    requires db.Valid()
    modifies db`rounds, db`nextRoundId, db`missions, db`nextMissionId, db`topics, db`nextTopicId
    ensures db.Valid()
    ensures CourseOf(db) == AddRounds(old(CourseOf(db)), data, |data|)
  {
    ghost var c0 := CourseOf(db);
    var roundOrder := 1;
    for i := 0 to |data|
      invariant db.Valid()
      invariant roundOrder == i + 1
      invariant CourseOf(db) == AddRounds(c0, data, i)
    {
      SeedOneRound(db, data[i], roundOrder);
      roundOrder := roundOrder + 1;
    }
  }

  /**
   * The body of seed-db.mjs:14-57: it empties userProgress, attachments,
   * topics, missions and rounds (comments and users stay), then inserts the
   * nested data with description '' and per-parent orders from 1.
   */
  method Reseed(db: Database, data: seq<SeedRound>)
    requires db.Valid()
    modifies db`progress, db`attachments, db`rounds, db`nextRoundId, db`missions, db`nextMissionId, db`topics, db`nextTopicId
    ensures db.Valid()
    ensures db.progress == [] && db.attachments == []
    ensures CourseOf(db) == Seeded(data, old(db.nextRoundId), old(db.nextMissionId), old(db.nextTopicId))
  {
    db.ClearCourse();
    SeedRounds(db, data);
    SeedFromEmpty(data, old(db.nextRoundId), old(db.nextMissionId), old(db.nextTopicId));
  }

  /**
   * seed-db.mjs:7-57: `if (!dbUrl)` exits before touching anything, so an
   * unset DATABASE_URL and an empty one both leave the store as it was.
   */
  method Seed(db: Database, data: seq<SeedRound>, databaseUrl: Option<string>) returns (seeded: bool)
    requires db.Valid()
    modifies db`progress, db`attachments, db`rounds, db`nextRoundId, db`missions, db`nextMissionId, db`topics, db`nextTopicId
    ensures seeded <==> databaseUrl.Some? && databaseUrl.value != ""
    ensures !seeded ==> unchanged(db)
    ensures seeded ==>
              && db.Valid() && db.progress == [] && db.attachments == []
              && CourseOf(db) == Seeded(data, old(db.nextRoundId), old(db.nextMissionId), old(db.nextTopicId))
  {
    if databaseUrl.None? || databaseUrl.value == "" {
      return false;
    }
    Reseed(db, data);
    seeded := true;
  }
}
