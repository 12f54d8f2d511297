/**
 * The per-record loop of updateLeaderboard (server.js:210-252) as a
 * specification: what one record does to the posts and authors tables and
 * to the three counters, and what a whole batch does. The store's Ingest
 * method is proved to follow it; the lemmas here state what the loop
 * promises.
 */
module Ingestion {
  import opened Wrappers
  import opened Records
  import opened Tables

  /** The posts and authors tables, which the loop writes. */
  datatype Db = Db(posts: seq<PostRow>, authors: map<string, AuthorRow>)

  /**
   * What the loop depends on besides the tables: the CURRENT_TIMESTAMP value,
   * the post ids whose post write throws, and the community name of the
   * default url.
   */
  datatype Env = Env(now: int, failing: set<string>, community: string)

  /** How one record ended: skipped by validation, write thrown, or counted. */
  datatype Outcome = Skipped | WriteFailed | NewPost | UpdatedPost | Duplicate

  datatype Counters = Counters(newPosts: nat, duplicates: nat, updated: nat)

  /** The loop state after a prefix of the batch: tables, counters and hasChanges. */
  datatype BatchState = BatchState(db: Db, counters: Counters, changed: bool)

  /** The invariants the two written tables keep. */
  ghost predicate ValidDb(db: Db)
  {
    && UniquePostIds(db.posts)
    && ScoreLaw(db.posts)
    && RowsFromAccepted(db.posts)
    && forall i :: 0 <= i < |db.posts| ==> db.posts[i].author in db.authors
  }

  /** One iteration of the loop (server.js:215-251). */
  function Step(db: Db, r: Raw, env: Env): (Db, Outcome)
  {
    match Accept(r, env.community)
    case None => (db, Skipped)
    case Some(a) =>
      var authors := Touch(db.authors, a.author, env.now);
      if a.postId in env.failing then (Db(db.posts, authors), WriteFailed)
      else
        var w := Upsert(db.posts, a);
        var outcome :=
          if w.changes > 0 then
            if FindPost(w.rows, a.postId).None? then NewPost else UpdatedPost
          else Duplicate;
        (Db(w.rows, authors), outcome)
  }

  function Count(c: Counters, o: Outcome): Counters
  {
    match o
    case NewPost => c.(newPosts := c.newPosts + 1)
    case UpdatedPost => c.(updated := c.updated + 1)
    case Duplicate => c.(duplicates := c.duplicates + 1)
    case _ => c
  }

  function Advance(s: BatchState, r: Raw, env: Env): BatchState
  {
    var (db, o) := Step(s.db, r, env);
    BatchState(db, Count(s.counters, o), s.changed || o == NewPost || o == UpdatedPost)
  }

  /** The loop over a whole batch, in input order. */
  function Run(db: Db, batch: seq<Raw>, env: Env): BatchState
    decreases |batch|
  {
    if batch == [] then BatchState(db, Counters(0, 0, 0), false)
    else Advance(Run(db, batch[..|batch| - 1], env), batch[|batch| - 1], env)
  }

  /** A record that passes validation and whose post write does not throw. */
  predicate Written(r: Raw, env: Env)
  {
    Accept(r, env.community).Some? && Accept(r, env.community).value.postId !in env.failing
  }

  /** The number of records of a batch that pass validation and write without throwing. */
  function WrittenCount(batch: seq<Raw>, env: Env): nat
  {
    if batch == [] then 0
    else WrittenCount(batch[..|batch| - 1], env) + (if Written(batch[|batch| - 1], env) then 1 else 0)
  }

  /** The authors of the records that pass validation. */
  function BatchAuthors(batch: seq<Raw>, env: Env): set<string>
  {
    if batch == [] then {}
    else
      BatchAuthors(batch[..|batch| - 1], env)
      + match Accept(batch[|batch| - 1], env.community)
        case None => {}
        case Some(a) => {a.author}
  }

  lemma LastSplit(batch: seq<Raw>)
    requires batch != []
    ensures batch == batch[..|batch| - 1] + [batch[|batch| - 1]]
  {
  }

  // ---------------------------------------------------------------------------
  // One record

  /** A record that fails validation writes no table and changes no counter. */
  lemma SkippedRecordChangesNothing(db: Db, batch: seq<Raw>, r: Raw, env: Env)
    requires Accept(r, env.community).None?
    ensures Run(db, batch + [r], env) == Run(db, batch, env)
  {
    assert (batch + [r])[..|batch|] == batch;
  }

  /**
   * A record whose post write throws has still touched its author, leaves
   * the posts table and the counters as they were, and the loop goes on.
   */
  lemma FailedWriteTouchesAuthorOnly(db: Db, batch: seq<Raw>, r: Raw, env: Env)
    requires Accept(r, env.community).Some? && Accept(r, env.community).value.postId in env.failing
    ensures var before := Run(db, batch, env);
            var after := Run(db, batch + [r], env);
            && after.db.posts == before.db.posts
            && after.db.authors == Touch(before.db.authors, Accept(r, env.community).value.author, env.now)
            && after.counters == before.counters
            && after.changed == before.changed
  {
    assert (batch + [r])[..|batch|] == batch;
  }

  /** One loop iteration over a written record, in terms of the post write. */
  lemma AdvanceWritten(s: BatchState, r: Raw, env: Env)
    requires Written(r, env)
    ensures var a := Accept(r, env.community).value;
            var w := Upsert(s.db.posts, a);
            var t := Advance(s, r, env);
            && t.db == Db(w.rows, Touch(s.db.authors, a.author, env.now))
            && t.counters == (if w.changes == 0 then s.counters.(duplicates := s.counters.duplicates + 1)
                              else s.counters.(updated := s.counters.updated + 1))
            && t.changed == (s.changed || w.changes > 0)
  {
    var a := Accept(r, env.community).value;
    assert FindPost(Upsert(s.db.posts, a).rows, a.postId).Some?;
  }

  /**
   * A written record bumps exactly one counter: `duplicates` when the write
   * changed nothing, `updated` otherwise; `newPosts` never, because the
   * existence check runs after the write has stored the row.
   */
  lemma WrittenRecordCountsOnce(db: Db, batch: seq<Raw>, r: Raw, env: Env)
    requires Written(r, env)
    ensures var before := Run(db, batch, env);
            var after := Run(db, batch + [r], env);
            var w := Upsert(before.db.posts, Accept(r, env.community).value);
            && after.counters.newPosts == before.counters.newPosts
            && (w.changes == 0 ==>
                  after.counters == before.counters.(duplicates := before.counters.duplicates + 1)
                  && after.changed == before.changed)
            && (w.changes > 0 ==>
                  after.counters == before.counters.(updated := before.counters.updated + 1)
                  && after.changed)
  {
    RunSnoc(db, batch, r, env);
    AdvanceWritten(Run(db, batch, env), r, env);
  }

  // ---------------------------------------------------------------------------
  // A whole batch

  /** newPosts is 0 after every batch. */
  lemma {:induction false} RunNeverCountsNew(db: Db, batch: seq<Raw>, env: Env)
    ensures Run(db, batch, env).counters.newPosts == 0
    decreases |batch|
  {
    if batch != [] {
      RunNeverCountsNew(db, batch[..|batch| - 1], env);
    }
  }

  /** updated + duplicates is the number of records that were written without a throw. */
  lemma {:induction false} RunCountsWritten(db: Db, batch: seq<Raw>, env: Env)
    ensures Run(db, batch, env).counters.updated + Run(db, batch, env).counters.duplicates
            == WrittenCount(batch, env)
    decreases |batch|
  {
    if batch != [] {
      RunCountsWritten(db, batch[..|batch| - 1], env);
    }
  }

  /** hasChanges is set exactly when some record was counted as updated. */
  lemma {:induction false} RunChangedIffUpdated(db: Db, batch: seq<Raw>, env: Env)
    ensures Run(db, batch, env).changed <==> Run(db, batch, env).counters.updated > 0
    decreases |batch|
  {
    if batch != [] {
      RunChangedIffUpdated(db, batch[..|batch| - 1], env);
    }
  }

  /** A batch that changed no row leaves the posts table exactly as it was. */
  lemma {:induction false} UnchangedRunKeepsPosts(db: Db, batch: seq<Raw>, env: Env)
    requires !Run(db, batch, env).changed
    ensures Run(db, batch, env).db.posts == db.posts
    decreases |batch|
  {
    if batch != [] {
      UnchangedRunKeepsPosts(db, batch[..|batch| - 1], env);
    }
  }

  /** The loop keeps the table invariants: one row per post id, the scoring law, known authors. */
  lemma {:induction false} RunPreservesValidDb(db: Db, batch: seq<Raw>, env: Env)
    requires ValidDb(db)
    ensures ValidDb(Run(db, batch, env).db)
    decreases |batch|
  {
    if batch != [] {
      RunPreservesValidDb(db, batch[..|batch| - 1], env);
      var s := Run(db, batch[..|batch| - 1], env);
      var r := batch[|batch| - 1];
      match Accept(r, env.community)
      case None =>
      case Some(a) =>
        var authors := Touch(s.db.authors, a.author, env.now);
        if a.postId !in env.failing {
          var w := Upsert(s.db.posts, a);
          forall i | 0 <= i < |w.rows| ensures w.rows[i].author in authors {
            if i < |s.db.posts| {
              assert SameExceptScore(w.rows[i], s.db.posts[i]);
            }
          }
        }
    }
  }

  /**
   * Every author touch of the batch: known authors keep first_seen_at, every
   * accepted record's author is last seen now (new ones also first seen now),
   * other authors are untouched, and no author row disappears.
   */
  lemma {:induction false} RunTouchesAuthors(db: Db, batch: seq<Raw>, env: Env)
    ensures var out := Run(db, batch, env).db.authors;
            && out.Keys == db.authors.Keys + BatchAuthors(batch, env)
            && (forall u :: u in db.authors ==> out[u].firstSeenAt == db.authors[u].firstSeenAt)
            && (forall u :: u in BatchAuthors(batch, env) ==> out[u].lastSeenAt == env.now)
            && (forall u :: u in BatchAuthors(batch, env) && u !in db.authors ==> out[u].firstSeenAt == env.now)
            && (forall u :: u in db.authors && u !in BatchAuthors(batch, env) ==> out[u] == db.authors[u])
    decreases |batch|
  {
    if batch != [] {
      var init := batch[..|batch| - 1];
      RunTouchesAuthors(db, init, env);
      var s := Run(db, init, env).db.authors;
      match Accept(batch[|batch| - 1], env.community)
      case None =>
      case Some(a) =>
        var out := Touch(s, a.author, env.now);
        assert Run(db, batch, env).db.authors == out;
    }
  }

  // ---------------------------------------------------------------------------
  // Re-ingesting a batch

  /** Records of the batch that are written agree on the score of any post id they share. */
  predicate SelfConsistent(batch: seq<Raw>, env: Env)
  {
    forall i, j :: 0 <= i < |batch| && 0 <= j < |batch| && Written(batch[i], env) && Written(batch[j], env)
      && Accept(batch[i], env.community).value.postId == Accept(batch[j], env.community).value.postId
      ==> Accept(batch[i], env.community).value.score == Accept(batch[j], env.community).value.score
  }

  /** Every written record of the batch finds its post id with its own score in the table. */
  predicate Reflects(posts: seq<PostRow>, batch: seq<Raw>, env: Env)
  {
    forall i :: 0 <= i < |batch| && Written(batch[i], env) ==>
      HasScore(posts, Accept(batch[i], env.community).value.postId, Accept(batch[i], env.community).value.score)
  }

  /** Writing one post leaves the stored score of every other post id as it was. */
  lemma UpsertKeepsOtherScore(posts: seq<PostRow>, a: Accepted, id: string, score: int)
    requires id != a.postId && HasScore(posts, id, score)
    ensures HasScore(Upsert(posts, a).rows, id, score)
  {
    var k := FindPost(posts, id).value;
    assert FindPost(Upsert(posts, a).rows, id) == Some(k);
    assert posts[k].postId == id;
  }

  /** One more record keeps the table reflecting the batch so far. */
  lemma ReflectsStep(before: seq<PostRow>, init: seq<Raw>, r: Raw, env: Env)
    requires Reflects(before, init, env) && SelfConsistent(init + [r], env)
    ensures Reflects(if Written(r, env) then Upsert(before, Accept(r, env.community).value).rows else before,
                     init + [r], env)
  {
    var batch := init + [r];
    assert forall i :: 0 <= i < |init| ==> batch[i] == init[i];
    assert batch[|init|] == r;
    if Written(r, env) {
      var a := Accept(r, env.community).value;
      var after := Upsert(before, a).rows;
      forall i | 0 <= i < |batch| && Written(batch[i], env)
        ensures HasScore(after, Accept(batch[i], env.community).value.postId, Accept(batch[i], env.community).value.score)
      {
        var b := Accept(batch[i], env.community).value;
        if b.postId == a.postId {
          assert b.score == a.score;
        } else {
          UpsertKeepsOtherScore(before, a, b.postId, b.score);
        }
      }
    }
  }

  /** A record that is not written leaves the posts table, the counters and the change flag alone. */
  lemma AdvanceNotWritten(s: BatchState, r: Raw, env: Env)
    requires !Written(r, env)
    ensures var t := Advance(s, r, env);
            t.db.posts == s.db.posts && t.counters == s.counters && t.changed == s.changed
  {
  }

  lemma {:induction false} RunReflectsBatch(db: Db, batch: seq<Raw>, env: Env)
    requires SelfConsistent(batch, env)
    ensures Reflects(Run(db, batch, env).db.posts, batch, env)
    decreases |batch|
  {
    if batch != [] {
      var init := batch[..|batch| - 1];
      var r := batch[|batch| - 1];
      LastSplit(batch);
      assert forall i :: 0 <= i < |init| ==> init[i] == batch[i];
      assert SelfConsistent(init, env);
      RunReflectsBatch(db, init, env);
      RunSnoc(db, init, r, env);
      if Written(r, env) {
        AdvanceWritten(Run(db, init, env), r, env);
      } else {
        AdvanceNotWritten(Run(db, init, env), r, env);
      }
      ReflectsStep(Run(db, init, env).db.posts, init, r, env);
    }
  }

  lemma {:induction false} RunOnReflectingTable(db: Db, batch: seq<Raw>, env: Env)
    requires Reflects(db.posts, batch, env)
    ensures var out := Run(db, batch, env);
            && out.db.posts == db.posts
            && !out.changed
            && out.counters == Counters(0, WrittenCount(batch, env), 0)
    decreases |batch|
  {
    if batch != [] {
      var init := batch[..|batch| - 1];
      assert forall i :: 0 <= i < |init| ==> init[i] == batch[i];
      RunOnReflectingTable(db, init, env);
      var r := batch[|batch| - 1];
      if Written(r, env) {
        var a := Accept(r, env.community).value;
        assert HasScore(db.posts, a.postId, a.score);
        assert Upsert(db.posts, a).changes == 0;
      }
    }
  }

  /**
   * Ingesting the same batch a second time changes no post row, sets no
   * change flag and counts every written record as a duplicate, provided the
   * batch does not itself carry two different scores for one post id.
   */
  lemma ReingestIsDuplicate(db: Db, batch: seq<Raw>, env: Env, later: int)
    requires SelfConsistent(batch, env)
    ensures var first := Run(db, batch, env);
            var second := Run(first.db, batch, env.(now := later));
            && second.db.posts == first.db.posts
            && !second.changed
            && second.counters == Counters(0, WrittenCount(batch, env), 0)
  {
    var first := Run(db, batch, env);
    RunReflectsBatch(db, batch, env);
    ReflectsIgnoresClock(first.db.posts, batch, env, later);
    RunOnReflectingTable(first.db, batch, env.(now := later));
    WrittenCountIgnoresClock(batch, env, later);
  }

  lemma ReflectsIgnoresClock(posts: seq<PostRow>, batch: seq<Raw>, env: Env, later: int)
    requires Reflects(posts, batch, env)
    ensures Reflects(posts, batch, env.(now := later))
  {
  }

  lemma {:induction false} WrittenCountIgnoresClock(batch: seq<Raw>, env: Env, later: int)
    ensures WrittenCount(batch, env.(now := later)) == WrittenCount(batch, env)
    decreases |batch|
  {
    if batch != [] {
      WrittenCountIgnoresClock(batch[..|batch| - 1], env, later);
    }
  }

  /**
   * Two written records with the same post id and different scores in one
   * batch: re-ingesting that batch rewrites the row again, so without
   * SelfConsistent a second ingestion is not a no-op.
   */
  lemma ReingestNeedsSelfConsistency(db: Db, r1: Raw, r2: Raw, env: Env)
    requires Written(r1, env) && Written(r2, env)
    requires Accept(r1, env.community).value.postId == Accept(r2, env.community).value.postId
    requires Accept(r1, env.community).value.score != Accept(r2, env.community).value.score
    ensures Run(Run(db, [r1, r2], env).db, [r1, r2], env).changed
  {
    var a1 := Accept(r1, env.community).value;
    var a2 := Accept(r2, env.community).value;
    assert [r1] + [r2] == [r1, r2];
    assert [] + [r1] == [r1];
    RunSnoc(db, [r1], r2, env);
    AdvanceWritten(Run(db, [r1], env), r2, env);
    var first := Run(db, [r1, r2], env).db;
    assert HasScore(first.posts, a1.postId, a2.score);
    RunSnoc(first, [], r1, env);
    AdvanceWritten(Run(first, [], env), r1, env);
    assert Run(first, [r1], env).changed;
    RunSnoc(first, [r1], r2, env);
    AdvanceWritten(Run(first, [r1], env), r2, env);
  }

  lemma RunSnoc(db: Db, batch: seq<Raw>, r: Raw, env: Env)
    ensures Run(db, batch + [r], env) == Advance(Run(db, batch, env), r, env)
  {
    assert (batch + [r])[..|batch|] == batch;
  }
}
