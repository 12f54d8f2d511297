/**
 * Two worked ingestions (server.js:173-268): three posts by two authors
 * ingested into an empty store, then the same batch again with one score
 * changed, and the leaderboard rows each produces.
 */
module Scenario {
  import opened Wrappers
  import opened Scoring
  import opened Records
  import opened Tables
  import opened Ingestion

  /** An upstream record carrying author, post_id, score_up and created only. */
  function Post(author: string, postId: string, score: int, created: int): Raw
  {
    Raw(Some(author), Some(score), Some(created), None, Some(postId), None, None, None, None)
  }

  lemma AcceptPost(author: string, postId: string, score: int, created: int, community: string)
    requires author != "" && postId != "" && created != 0
    ensures Accept(Post(author, postId, score, created), community)
            == Some(Accepted(author, postId, "", score, created, DefaultUrl(community, postId)))
  {
  }

  /** A written record whose post id is not yet stored appends its row and counts as updated. */
  lemma AppendStep(db: Db, batch: seq<Raw>, r: Raw, env: Env)
    requires Written(r, env)
    requires FindPost(Run(db, batch, env).db.posts, Accept(r, env.community).value.postId).None?
    ensures var before := Run(db, batch, env);
            var after := Run(db, batch + [r], env);
            && after.db.posts == before.db.posts + [NewRow(Accept(r, env.community).value)]
            && after.counters == before.counters.(updated := before.counters.updated + 1)
            && after.changed
  {
    RunSnoc(db, batch, r, env);
  }

  lemma ScenarioAuthors(row1: PostRow, row2: PostRow, row3: PostRow)
    requires row1.author == "alice" && row2.author == "alice" && row3.author == "bob"
    ensures AuthorList([row1, row2, row3]) == ["alice", "bob"]
  {
    assert [row1, row2, row3][..2] == [row1, row2];
    assert [row1, row2][..1] == [row1];
    assert [row1][..0] == [];
    assert AuthorList([row1]) == ["alice"];
    assert AuthorList([row1, row2]) == ["alice"];
  }

  lemma ScenarioMax(row1: PostRow, row2: PostRow, row3: PostRow)
    requires row1.author == "alice" && row2.author == "alice" && row3.author == "bob"
    requires row1.createdMs == 1000 && row2.createdMs == 2000 && row3.createdMs == 1500
    ensures MaxCreated([row1, row2, row3], "alice") == Some(2000)
    ensures MaxCreated([row1, row2, row3], "bob") == Some(1500)
  {
    assert [row1, row2, row3][1..] == [row2, row3];
    assert [row2, row3][1..] == [row3];
    assert [row3][1..] == [];
    assert MaxCreated([row3], "alice") == None;
    assert MaxCreated([row2, row3], "alice") == Some(2000);
    assert MaxCreated([row2, row3], "bob") == Some(1500);
  }

  lemma ScenarioSums(row1: PostRow, row2: PostRow, row3: PostRow)
    requires row1.author == "alice" && row2.author == "alice" && row3.author == "bob"
    ensures SumScore([row1, row2, row3], "alice") == row1.score + row2.score
    ensures SumCalculated([row1, row2, row3], "alice") == row1.calculatedScore + row2.calculatedScore
    ensures SumScore([row1, row2, row3], "bob") == row3.score
    ensures SumCalculated([row1, row2, row3], "bob") == row3.calculatedScore
  {
    assert [row1, row2, row3][1..] == [row2, row3];
    assert [row2, row3][1..] == [row3];
    assert [row3][1..] == [];
    assert "bob" != "alice";
    assert SumScore([], "alice") == 0 && SumScore([], "bob") == 0;
    assert SumCalculated([], "alice") == 0 && SumCalculated([], "bob") == 0;
    assert SumScore([row3], "alice") == SumScore([], "alice");
    assert SumScore([row3], "bob") == row3.score + SumScore([], "bob");
    assert SumCalculated([row3], "alice") == SumCalculated([], "alice");
    assert SumCalculated([row3], "bob") == row3.calculatedScore + SumCalculated([], "bob");
    assert SumScore([row2, row3], "alice") == row2.score;
    assert SumCalculated([row2, row3], "alice") == row2.calculatedScore;
    assert SumScore([row2, row3], "bob") == row3.score;
    assert SumCalculated([row2, row3], "bob") == row3.calculatedScore;
  }

  /** The leaderboard rebuilt from alice's p1 and p2 and bob's p3, whatever their scores. */
  lemma ScenarioAggregate(row1: PostRow, row2: PostRow, row3: PostRow)
    requires row1.author == "alice" && row1.createdMs == 1000
    requires row2.author == "alice" && row2.createdMs == 2000
    requires row3.author == "bob" && row3.createdMs == 1500
    ensures Aggregate([row1, row2, row3])
            == [Entry("alice", row1.score + row2.score, row1.calculatedScore + row2.calculatedScore, Some(2000)),
                Entry("bob", row3.score, row3.calculatedScore, Some(1500))]
  {
    var posts := [row1, row2, row3];
    ScenarioAuthors(row1, row2, row3);
    ScenarioMax(row1, row2, row3);
    ScenarioSums(row1, row2, row3);
    var lb := Aggregate(posts);
    assert lb[0] == AggregateEntry(posts, "alice") && lb[1] == AggregateEntry(posts, "bob");
  }

  /** The rows the first ingestion writes, in order. */
  function FirstRows(): seq<PostRow>
  {
    [PostRow("alice", "p1", "", 10, 32, 1000, DefaultUrl("c", "p1")),
     PostRow("alice", "p2", "", 5, 16, 2000, DefaultUrl("c", "p2")),
     PostRow("bob", "p3", "", 1, 4, 1500, DefaultUrl("c", "p3"))]
  }

  lemma FirstRunOne(r1: Raw, env: Env)
    requires env == Env(0, {}, "c") && r1 == Post("alice", "p1", 10, 1000)
    ensures var out := Run(Db([], map[]), [r1], env);
            out.db.posts == FirstRows()[..1] && out.counters == Counters(0, 0, 1) && out.changed
  {
    AcceptPost("alice", "p1", 10, 1000, "c");
    assert NewRow(Accept(r1, "c").value) == FirstRows()[0] by { assert CalculateScore(10) == 32; }
    assert [] + [r1] == [r1];
    AppendStep(Db([], map[]), [], r1, env);
  }

  lemma FirstRunTwo(r1: Raw, r2: Raw, env: Env)
    requires env == Env(0, {}, "c") && r1 == Post("alice", "p1", 10, 1000) && r2 == Post("alice", "p2", 5, 2000)
    ensures var out := Run(Db([], map[]), [r1, r2], env);
            out.db.posts == FirstRows()[..2] && out.counters == Counters(0, 0, 2) && out.changed
  {
    FirstRunOne(r1, env);
    AcceptPost("alice", "p2", 5, 2000, "c");
    var rows := FirstRows();
    assert NewRow(Accept(r2, "c").value) == rows[1] by { assert CalculateScore(5) == 16; }
    assert FindPost(rows[..1], "p2").None?;
    assert [r1] + [r2] == [r1, r2];
    AppendStep(Db([], map[]), [r1], r2, env);
    assert rows[..1] + [rows[1]] == rows[..2];
  }

  lemma FirstRun(r1: Raw, r2: Raw, r3: Raw, env: Env)
    requires env == Env(0, {}, "c") && r1 == Post("alice", "p1", 10, 1000) && r2 == Post("alice", "p2", 5, 2000)
    requires r3 == Post("bob", "p3", 1, 1500)
    ensures var out := Run(Db([], map[]), [r1, r2, r3], env);
            out.db.posts == FirstRows() && out.counters == Counters(0, 0, 3) && out.changed
  {
    FirstRunTwo(r1, r2, env);
    AcceptPost("bob", "p3", 1, 1500, "c");
    var rows := FirstRows();
    assert NewRow(Accept(r3, "c").value) == rows[2] by { assert CalculateScore(1) == 4; }
    assert FindPost(rows[..2], "p3").None?;
    assert [r1, r2] + [r3] == [r1, r2, r3];
    AppendStep(Db([], map[]), [r1, r2], r3, env);
    assert rows[..2] + [rows[2]] == rows;
  }

  /**
   * Ingesting p1 (alice, 10), p2 (alice, 5) and p3 (bob, 1) into an empty
   * store: all three are counted as updated and none as new, and the
   * leaderboard holds alice with 15 and 48 last active at 2000, then bob with
   * 1 and 4 last active at 1500.
   */
  lemma FirstIngestion(batch: seq<Raw>, env: Env)
    requires env == Env(0, {}, "c")
    requires batch == [Post("alice", "p1", 10, 1000), Post("alice", "p2", 5, 2000), Post("bob", "p3", 1, 1500)]
    ensures var out := Run(Db([], map[]), batch, env);
            && out.counters == Counters(0, 0, 3)
            && out.changed
            && Aggregate(out.db.posts) == [Entry("alice", 15, 48, Some(2000)), Entry("bob", 1, 4, Some(1500))]
  {
    FirstRun(batch[0], batch[1], batch[2], env);
    assert batch == [batch[0], batch[1], batch[2]];
    var rows := FirstRows();
    ScenarioAggregate(rows[0], rows[1], rows[2]);
    assert [rows[0], rows[1], rows[2]] == rows;
  }

  /** The rows after p1's score has moved from 10 to 20. */
  function SecondRows(): seq<PostRow>
  {
    FirstRows()[0 := FirstRows()[0].(score := 20, calculatedScore := 63)]
  }

  /** A written record whose post id is stored with its own score counts as a duplicate and changes nothing. */
  lemma DuplicateStep(db: Db, batch: seq<Raw>, r: Raw, env: Env)
    requires Written(r, env)
    requires HasScore(Run(db, batch, env).db.posts, Accept(r, env.community).value.postId, Accept(r, env.community).value.score)
    ensures var before := Run(db, batch, env);
            var after := Run(db, batch + [r], env);
            && after.db.posts == before.db.posts
            && after.counters == before.counters.(duplicates := before.counters.duplicates + 1)
            && after.changed == before.changed
  {
    RunSnoc(db, batch, r, env);
    AdvanceWritten(Run(db, batch, env), r, env);
  }

  /** A written record whose post id is stored at `i` with another score rewrites that row's scores. */
  lemma RescoreStep(db: Db, batch: seq<Raw>, r: Raw, env: Env, i: nat)
    requires Written(r, env)
    requires var posts := Run(db, batch, env).db.posts;
             var a := Accept(r, env.community).value;
             FindPost(posts, a.postId) == Some(i) && posts[i].score != a.score
    ensures var before := Run(db, batch, env);
            var after := Run(db, batch + [r], env);
            var a := Accept(r, env.community).value;
            && after.db.posts == before.db.posts[i := before.db.posts[i].(score := a.score, calculatedScore := CalculateScore(a.score))]
            && after.counters == before.counters.(updated := before.counters.updated + 1)
            && after.changed
  {
    RunSnoc(db, batch, r, env);
    AdvanceWritten(Run(db, batch, env), r, env);
  }

  /**
   * The same batch again with p1's score changed to 20, on the table the
   * first ingestion left: p1 is updated and p2 and p3 are duplicates, and
   * alice's sums become 25 and 63 + 16 = 79.
   */
  lemma Reingestion(db: Db, r1: Raw, r2: Raw, r3: Raw, env: Env)
    requires db.posts == FirstRows()
    requires env.community == "c" && env.failing == {}
    requires r1 == Post("alice", "p1", 20, 1000) && r2 == Post("alice", "p2", 5, 2000)
    requires r3 == Post("bob", "p3", 1, 1500)
    ensures var out := Run(db, [r1, r2, r3], env);
            && out.counters == Counters(0, 2, 1)
            && out.changed
            && Aggregate(out.db.posts) == [Entry("alice", 25, 79, Some(2000)), Entry("bob", 1, 4, Some(1500))]
  {
    ReingestFirst(db, r1, env);
    ReingestRest(db, r1, r2, r3, env);
    var rows := SecondRows();
    ScenarioAggregate(rows[0], rows[1], rows[2]);
    assert [rows[0], rows[1], rows[2]] == rows;
  }

  lemma ReingestFirst(db: Db, r1: Raw, env: Env)
    requires db.posts == FirstRows()
    requires env.community == "c" && env.failing == {}
    requires r1 == Post("alice", "p1", 20, 1000)
    ensures var out := Run(db, [r1], env);
            out.db.posts == SecondRows() && out.counters == Counters(0, 0, 1) && out.changed
  {
    AcceptPost("alice", "p1", 20, 1000, "c");
    assert FindPost(FirstRows(), "p1") == Some(0);
    assert CalculateScore(20) == 63;
    assert [] + [r1] == [r1];
    RescoreStep(db, [], r1, env, 0);
  }

  lemma SecondRowsScores()
    ensures HasScore(SecondRows(), "p2", 5) && HasScore(SecondRows(), "p3", 1)
  {
    var rows := SecondRows();
    assert FindPost(rows, "p2") == Some(1);
    assert FindPost(rows, "p3") == Some(2);
  }

  lemma ReingestSecond(db: Db, r1: Raw, r2: Raw, env: Env)
    requires Run(db, [r1], env).db.posts == SecondRows()
    requires Run(db, [r1], env).counters == Counters(0, 0, 1) && Run(db, [r1], env).changed
    requires env.community == "c" && env.failing == {}
    requires r2 == Post("alice", "p2", 5, 2000)
    ensures var out := Run(db, [r1, r2], env);
            out.db.posts == SecondRows() && out.counters == Counters(0, 1, 1) && out.changed
  {
    AcceptPost("alice", "p2", 5, 2000, "c");
    SecondRowsScores();
    assert [r1] + [r2] == [r1, r2];
    DuplicateStep(db, [r1], r2, env);
  }

  lemma ReingestRest(db: Db, r1: Raw, r2: Raw, r3: Raw, env: Env)
    requires Run(db, [r1], env).db.posts == SecondRows()
    requires Run(db, [r1], env).counters == Counters(0, 0, 1) && Run(db, [r1], env).changed
    requires env.community == "c" && env.failing == {}
    requires r2 == Post("alice", "p2", 5, 2000) && r3 == Post("bob", "p3", 1, 1500)
    ensures var out := Run(db, [r1, r2, r3], env);
            out.db.posts == SecondRows() && out.counters == Counters(0, 2, 1) && out.changed
  {
    ReingestSecond(db, r1, r2, env);
    AcceptPost("bob", "p3", 1, 1500, "c");
    SecondRowsScores();
    assert [r1, r2] + [r3] == [r1, r2, r3];
    DuplicateStep(db, [r1, r2], r3, env);
  }
}
