/**
 * The store and the ingestion engine (updateLeaderboard, server.js:173-268),
 * with the two read projections getLeaderboard and getStats
 * (server.js:273-302). The three tables are fields that the methods update in
 * place; a transaction is a snapshot of them that a failure restores.
 */
module LeaderboardStore {
  import opened Wrappers
  import opened TimeFormat
  import opened Records
  import opened Tables
  import opened Ingestion
  import opened Queries

  /** The error that escapes updateLeaderboard: a throw from the rebuild. */
  datatype IngestError = RebuildFailed

  /** One element of getLeaderboard's answer. */
  datatype LeaderRow = LeaderRow(
    author: string,
    originalScore: int,
    calculatedScore: int,
    postCount: nat,
    lastActiveAgo: string)

  datatype TopUser = TopUser(author: string, calculatedScore: int)

  datatype Stats = Stats(totalPosts: nat, totalAuthors: nat, topUser: Option<TopUser>)

  /** The `rows.map` projection of getLeaderboard (server.js:282-288). */
  function RowView(e: Entry, posts: seq<PostRow>, now: int): LeaderRow
  {
    LeaderRow(
      e.author,
      e.originalScore,
      e.calculatedScore,
      CountPosts(posts, e.author),
      if e.lastActiveMs.Some? && e.lastActiveMs.value != 0 then TimeAgoFromMs(e.lastActiveMs.value, now)
      else "unknown")
  }

  /** The row is the projection of some entry of the leaderboard. */
  ghost predicate IsViewOf(row: LeaderRow, lb: seq<Entry>, posts: seq<PostRow>, now: int)
  {
    exists e :: e in lb && row == RowView(e, posts, now)
  }

  function Views(es: seq<Entry>, posts: seq<PostRow>, now: int): (rows: seq<LeaderRow>)
    ensures |rows| == |es|
    ensures forall i :: 0 <= i < |es| ==> rows[i] == RowView(es[i], posts, now)
  {
    seq(|es|, i requires 0 <= i < |es| => RowView(es[i], posts, now))
  }

  /**
   * The projection copies the author and both scores, counts the author's
   * posts live, and shows "unknown" exactly when last_active_ms is falsy
   * (server.js:287); otherwise the relative time.
   */
  lemma RowViewMeaning(e: Entry, posts: seq<PostRow>, now: int)
    ensures var row := RowView(e, posts, now);
            && row.author == e.author
            && row.originalScore == e.originalScore
            && row.calculatedScore == e.calculatedScore
            && row.postCount == CountPosts(posts, e.author)
            && (row.lastActiveAgo == "unknown" <==> e.lastActiveMs.None? || e.lastActiveMs.value == 0)
            && (e.lastActiveMs.Some? && e.lastActiveMs.value != 0 ==>
                  row.lastActiveAgo == TimeAgoFromMs(e.lastActiveMs.value, now))
  {
    if e.lastActiveMs.Some? && e.lastActiveMs.value != 0 {
      TimeAgoNeverUnknown(e.lastActiveMs.value, now);
    }
  }

  lemma ViewsAppend(u: seq<Entry>, v: seq<Entry>, posts: seq<PostRow>, now: int)
    ensures Views(u + v, posts, now) == Views(u, posts, now) + Views(v, posts, now)
  {
  }

  /** Taking out the row at `k`, from a table and from its projection. */
  lemma ViewsRemove(b: seq<Entry>, k: nat, posts: seq<PostRow>, now: int)
    requires k < |b|
    ensures multiset(b) == multiset(b[..k] + b[k + 1..]) + multiset{b[k]}
    ensures multiset(Views(b, posts, now))
            == multiset(Views(b[..k] + b[k + 1..], posts, now)) + multiset{RowView(b[k], posts, now)}
  {
    var p, x, q := b[..k], b[k], b[k + 1..];
    assert b == p + [x] + q;
    ViewsSplit(p, x, q, posts, now);
  }

  lemma ViewsSplit(p: seq<Entry>, x: Entry, q: seq<Entry>, posts: seq<PostRow>, now: int)
    ensures multiset(Views(p + [x] + q, posts, now))
            == multiset(Views(p + q, posts, now)) + multiset{RowView(x, posts, now)}
  {
    var vp, vq := Views(p, posts, now), Views(q, posts, now);
    var r := RowView(x, posts, now);
    ViewsAppend(p + [x], q, posts, now);
    ViewsAppend(p, [x], posts, now);
    ViewsAppend(p, q, posts, now);
    assert Views([x], posts, now) == [r];
    assert Views(p + [x] + q, posts, now) == vp + [r] + vq;
    assert Views(p + q, posts, now) == vp + vq;
  }

  lemma SubMultisetCancel(x: Entry, a: multiset<Entry>, b: multiset<Entry>)
    requires multiset{x} + a <= b + multiset{x}
    ensures a <= b
  {
    forall y ensures a[y] <= b[y] {
      assert (multiset{x} + a)[y] <= (b + multiset{x})[y];
    }
  }

  /** Projecting rows drawn from a table gives rows drawn from the table's projection. */
  lemma {:induction false} ViewsSubMultiset(a: seq<Entry>, b: seq<Entry>, posts: seq<PostRow>, now: int)
    requires multiset(a) <= multiset(b)
    ensures multiset(Views(a, posts, now)) <= multiset(Views(b, posts, now))
    decreases |a|
  {
    if a != [] {
      var x := a[0];
      assert a == [x] + a[1..];
      assert x in multiset(b);
      var k :| 0 <= k < |b| && b[k] == x;
      var rest := b[..k] + b[k + 1..];
      ViewsRemove(b, k, posts, now);
      SubMultisetCancel(x, multiset(a[1..]), multiset(rest));
      ViewsSubMultiset(a[1..], rest, posts, now);
      ViewsAppend([x], a[1..], posts, now);
      assert Views([x], posts, now) == [RowView(x, posts, now)];
    }
  }

  /** getLeaderboard returns each leaderboard row at most once. */
  lemma TopViewsDrawn(lb: seq<Entry>, posts: seq<PostRow>, limit: int, now: int)
    ensures multiset(Views(TopEntries(lb, limit), posts, now)) <= multiset(Views(lb, posts, now))
  {
    ViewsSubMultiset(TopEntries(lb, limit), lb, posts, now);
  }

  /** What getLeaderboard's rows are, proved once for any table contents. */
  lemma TopViews(lb: seq<Entry>, posts: seq<PostRow>, limit: int, now: int)
    ensures var rows := Views(TopEntries(lb, limit), posts, now);
            && (forall i, j :: 0 <= i < j < |rows| ==> rows[i].calculatedScore >= rows[j].calculatedScore)
            && (forall i :: 0 <= i < |rows| ==> IsViewOf(rows[i], lb, posts, now))
            && (forall e :: e in lb && (forall i :: 0 <= i < |rows| ==> rows[i].author != e.author)
                  ==> forall i :: 0 <= i < |rows| ==> rows[i].calculatedScore >= e.calculatedScore)
            && multiset(rows) <= multiset(Views(lb, posts, now))
  {
    TopViewsDrawn(lb, posts, limit, now);
    TopViewsAreViews(lb, posts, limit, now);
    TopViewsCutOff(lb, posts, limit, now);
  }

  lemma TopViewsAreViews(lb: seq<Entry>, posts: seq<PostRow>, limit: int, now: int)
    ensures var rows := Views(TopEntries(lb, limit), posts, now);
            forall i :: 0 <= i < |rows| ==> IsViewOf(rows[i], lb, posts, now)
  {
    var top := TopEntries(lb, limit);
    var rows := Views(top, posts, now);
    TopEntriesMembers(lb, limit);
    forall i | 0 <= i < |rows| ensures IsViewOf(rows[i], lb, posts, now) {
      assert top[i] in lb && rows[i] == RowView(top[i], posts, now);
    }
  }

  lemma TopViewsCutOff(lb: seq<Entry>, posts: seq<PostRow>, limit: int, now: int)
    ensures var rows := Views(TopEntries(lb, limit), posts, now);
            forall e :: e in lb && (forall i :: 0 <= i < |rows| ==> rows[i].author != e.author)
              ==> forall i :: 0 <= i < |rows| ==> rows[i].calculatedScore >= e.calculatedScore
  {
    var top := TopEntries(lb, limit);
    var rows := Views(top, posts, now);
    TopEntriesCutOff(lb, limit);
    forall e | e in lb && (forall i :: 0 <= i < |rows| ==> rows[i].author != e.author)
      ensures forall i :: 0 <= i < |rows| ==> rows[i].calculatedScore >= e.calculatedScore
    {
      assert e !in top by {
        forall k | 0 <= k < |top| ensures top[k] != e {
          assert rows[k].author == top[k].author;
        }
      }
      forall i | 0 <= i < |rows| ensures rows[i].calculatedScore >= e.calculatedScore {
        assert rows[i].calculatedScore == top[i].calculatedScore;
      }
    }
  }

  class Store {
    /** The community name that default post urls are built from. */
    const community: string
    var posts: seq<PostRow>
    var authors: map<string, AuthorRow>
    var leaderboard: seq<Entry>

    /**
     * The store's invariant: the table constraints and scoring law hold, and
     * the leaderboard is exactly the aggregate of the posts.
     */
    ghost predicate Valid()
      reads this
    {
      ValidDb(Db(posts, authors)) && leaderboard == Aggregate(posts)
    }

    constructor (community: string)
      ensures Valid()
      ensures this.community == community
      ensures posts == [] && authors == map[] && leaderboard == []
    {
      this.community := community;
      posts := [];
      authors := map[];
      leaderboard := [];
    }

    /** The upsertAuthor statement (server.js:187-192). */
    method TouchAuthor(username: string, now: int)
      modifies this`authors
      ensures authors == Touch(old(authors), username, now)
    {
      authors := Touch(authors, username, now);
    }

    /**
     * The upsertPost statement (server.js:174-181); `fails` makes it throw,
     * in which case, as in SQLite, the statement leaves the table untouched.
     */
    method UpsertPost(a: Accepted, fails: bool) returns (changes: Option<nat>)
      modifies this`posts
      ensures fails ==> changes == None && posts == old(posts)
      ensures !fails ==> changes == Some(Upsert(old(posts), a).changes) && posts == Upsert(old(posts), a).rows
    {
      if fails {
        return None;
      }
      var w := Upsert(posts, a);
      posts := w.rows;
      return Some(w.changes);
    }

    /**
     * DELETE FROM leaderboard, then the aggregate INSERT (server.js:257-258);
     * `fails` makes the INSERT throw after the DELETE has run.
     */
    method RebuildLeaderboard(fails: bool) returns (ok: bool)
      modifies this`leaderboard
      ensures ok == !fails
      ensures ok ==> leaderboard == Aggregate(posts)
      ensures !ok ==> leaderboard == []
    {
      leaderboard := [];
      if fails {
        return false;
      }
      leaderboard := Aggregate(posts);
      return true;
    }

    /**
     * One pass of the loop body (server.js:215-251) short of the counters:
     * validation, the author touch, the post write (which throws for an id in
     * `failing`, the throw being caught) and the new-or-updated check made
     * after the write.
     */
    method ProcessRecord(r: Raw, now: int, failing: set<string>) returns (outcome: Outcome)
      modifies this`posts, this`authors
      ensures (Db(posts, authors), outcome) == Step(Db(old(posts), old(authors)), r, Env(now, failing, community))
    {
      match Accept(r, community) {
        case None =>
          return Skipped;
        case Some(a) =>
          TouchAuthor(a.author, now);
          var changes := UpsertPost(a, a.postId in failing);
          if changes.None? {
            return WriteFailed;
          }
          if changes.value > 0 {
            var existing := FindPost(posts, a.postId);
            if existing.None? {
              return NewPost;
            }
            return UpdatedPost;
          }
          return Duplicate;
      }
    }

    /**
     * The loop of updateLeaderboard (server.js:213-252): every record in input
     * order through ProcessRecord, tallying the counters and the change flag.
     */
    method ProcessBatch(batch: seq<Raw>, now: int, failing: set<string>)
      returns (counters: Counters, hasChanges: bool)
      modifies this`posts, this`authors
      ensures Run(Db(old(posts), old(authors)), batch, Env(now, failing, community))
              == BatchState(Db(posts, authors), counters, hasChanges)
    {
      ghost var start := Db(posts, authors);
      ghost var env := Env(now, failing, community);
      var newPosts: nat, duplicates: nat, updated: nat := 0, 0, 0;
      hasChanges := false;
      var i := 0;
      while i < |batch|
        invariant 0 <= i <= |batch|
        invariant Run(start, batch[..i], env)
                  == BatchState(Db(posts, authors), Counters(newPosts, duplicates, updated), hasChanges)
      {
        assert batch[..i + 1] == batch[..i] + [batch[i]];
        RunSnoc(start, batch[..i], batch[i], env);
        var outcome := ProcessRecord(batch[i], now, failing);
        match outcome {
          case NewPost =>
            hasChanges := true;
            newPosts := newPosts + 1;
          case UpdatedPost =>
            hasChanges := true;
            updated := updated + 1;
          case Duplicate =>
            duplicates := duplicates + 1;
          case _ =>
        }
        i := i + 1;
      }
      assert batch[..|batch|] == batch;
      counters := Counters(newPosts, duplicates, updated);
    }

    /**
     * updateLeaderboard(batch). `now` is the CURRENT_TIMESTAMP of the author
     * writes, `failing` the post ids whose post write throws and
     * `rebuildFails` whether the rebuild throws. The loop follows Run; the
     * leaderboard is rebuilt only when some write changed a row, and a
     * failing rebuild rolls all three tables back and returns no counters.
     */
    method Ingest(batch: seq<Raw>, now: int, failing: set<string>, rebuildFails: bool)
      returns (r: Result<Counters, IngestError>)
      requires Valid()
      modifies this
      ensures Valid()
      ensures var out := Run(Db(old(posts), old(authors)), batch, Env(now, failing, community));
              if out.changed && rebuildFails then
                && r == Failure(RebuildFailed)
                && posts == old(posts) && authors == old(authors) && leaderboard == old(leaderboard)
              else
                && r == Success(out.counters)
                && posts == out.db.posts && authors == out.db.authors
                && leaderboard == (if out.changed then Aggregate(posts) else old(leaderboard))
      ensures r.Success? ==> r.value.newPosts == 0
    {
      ghost var start := Db(posts, authors);
      ghost var env := Env(now, failing, community);
      // BEGIN: the transaction's snapshot
      var savedPosts, savedAuthors, savedBoard := posts, authors, leaderboard;
      var counters, hasChanges := ProcessBatch(batch, now, failing);
      RunPreservesValidDb(start, batch, env);
      RunNeverCountsNew(start, batch, env);
      if hasChanges {
        var ok := RebuildLeaderboard(rebuildFails);
        if !ok {
          // ROLLBACK
          posts, authors, leaderboard := savedPosts, savedAuthors, savedBoard;
          return Failure(RebuildFailed);
        }
      } else {
        UnchangedRunKeepsPosts(start, batch, env);
      }
      return Success(counters);
    }

    /**
     * getLeaderboard(limit) at time `now`: at most `limit` rows (all of them
     * for a negative limit), by calculated score descending, each the view of
     * a leaderboard entry, no entry returned twice, and no entry left out
     * scores above a returned row.
     */
    function GetLeaderboard(limit: int, now: int): (rows: seq<LeaderRow>)
      reads this
      ensures |rows| == if 0 <= limit < |leaderboard| then limit else |leaderboard|
      ensures forall i, j :: 0 <= i < j < |rows| ==> rows[i].calculatedScore >= rows[j].calculatedScore
      ensures forall i :: 0 <= i < |rows| ==> IsViewOf(rows[i], leaderboard, posts, now)
      ensures forall e :: e in leaderboard && (forall i :: 0 <= i < |rows| ==> rows[i].author != e.author)
                ==> forall i :: 0 <= i < |rows| ==> rows[i].calculatedScore >= e.calculatedScore
      ensures multiset(rows) <= multiset(Views(leaderboard, posts, now))
    {
      TopViews(leaderboard, posts, limit, now);
      Views(TopEntries(leaderboard, limit), posts, now)
    }

    /**
     * getStats(): the number of post rows, the number of distinct authors
     * among the posts, and the leaderboard's highest-scoring entry if any.
     */
    function GetStats(): (s: Stats)
      reads this
      ensures s.totalPosts == |posts|
      ensures s.totalAuthors == |AuthorsOf(posts)|
      ensures s.topUser.None? <==> leaderboard == []
      ensures s.topUser.Some? ==>
                exists e :: e in leaderboard && TopUser(e.author, e.calculatedScore) == s.topUser.value
      ensures s.topUser.Some? ==>
                forall e :: e in leaderboard ==> e.calculatedScore <= s.topUser.value.calculatedScore
    {
      var top := TopEntries(leaderboard, 1);
      TopEntryIsMax(leaderboard);
      if top == [] then Stats(|posts|, |AuthorsOf(posts)|, None)
      else
        Stats(|posts|, |AuthorsOf(posts)|, Some(TopUser(top[0].author, top[0].calculatedScore)))
    }
  }

  /** A valid store's leaderboard is the per-author aggregate, with derived sums. */
  lemma ValidStoreIsAggregate(st: Store)
    requires st.Valid()
    ensures IsAggregateOf(st.leaderboard, st.posts)
    ensures forall i :: 0 <= i < |st.leaderboard| ==>
              st.leaderboard[i].calculatedScore == SumDerived(st.posts, st.leaderboard[i].author)
  {
    AggregateIsAggregateOf(st.posts);
    forall i | 0 <= i < |st.leaderboard|
      ensures st.leaderboard[i].calculatedScore == SumDerived(st.posts, st.leaderboard[i].author)
    {
      SumCalculatedIsDerived(st.posts, st.leaderboard[i].author);
    }
  }

  lemma {:induction false} CountPostsPositive(posts: seq<PostRow>, author: string)
    requires author in AuthorsOf(posts)
    ensures CountPosts(posts, author) >= 1
  {
    if posts[0].author != author {
      var i :| 0 <= i < |posts| && posts[i].author == author;
      assert posts[1..][i - 1].author == author;
      CountPostsPositive(posts[1..], author);
    }
  }

  /** Every aggregate row counts at least one post and has a non-zero last-activity time. */
  lemma AggregateRowsKnown(posts: seq<PostRow>)
    requires RowsFromAccepted(posts)
    ensures forall e :: e in Aggregate(posts) ==>
              CountPosts(posts, e.author) >= 1 && e.lastActiveMs.Some? && e.lastActiveMs.value != 0
  {
    var lb := Aggregate(posts);
    var names := AuthorList(posts);
    forall e | e in lb
      ensures CountPosts(posts, e.author) >= 1 && e.lastActiveMs.Some? && e.lastActiveMs.value != 0
    {
      var k :| 0 <= k < |lb| && lb[k] == e;
      assert e == AggregateEntry(posts, names[k]);
      assert names[k] in AuthorsOf(posts);
      CountPostsPositive(posts, e.author);
      var p :| 0 <= p < |posts| && posts[p].author == e.author && posts[p].createdMs == e.lastActiveMs.value;
    }
  }

  lemma KnownViews(lb: seq<Entry>, posts: seq<PostRow>, limit: int, now: int)
    requires forall e :: e in lb ==>
               CountPosts(posts, e.author) >= 1 && e.lastActiveMs.Some? && e.lastActiveMs.value != 0
    ensures var rows := Views(TopEntries(lb, limit), posts, now);
            forall i :: 0 <= i < |rows| ==> rows[i].postCount >= 1 && rows[i].lastActiveAgo != "unknown"
  {
    var top := TopEntries(lb, limit);
    TopEntriesMembers(lb, limit);
    forall i | 0 <= i < |top| ensures TimeAgoFromMs(top[i].lastActiveMs.value, now) != "unknown" {
      TimeAgoNeverUnknown(top[i].lastActiveMs.value, now);
    }
  }

  /**
   * On a valid store every row of getLeaderboard counts at least one post and
   * has a last-activity time, so the "unknown" fallback is never shown.
   */
  lemma LeaderboardRowsKnown(st: Store, limit: int, now: int)
    requires st.Valid()
    ensures forall i :: 0 <= i < |st.GetLeaderboard(limit, now)| ==>
              && st.GetLeaderboard(limit, now)[i].postCount >= 1
              && st.GetLeaderboard(limit, now)[i].lastActiveAgo != "unknown"
  {
    AggregateRowsKnown(st.posts);
    KnownViews(st.leaderboard, st.posts, limit, now);
  }

  lemma {:induction false} SubsetCard(a: set<string>, b: set<string>)
    requires a <= b
    ensures |a| <= |b|
  {
    if a != {} {
      var x :| x in a;
      SubsetCard(a - {x}, b - {x});
    }
  }

  /**
   * On a valid store getStats' totalAuthors, the distinct authors of posts,
   * equals the number of leaderboard rows and is at most the number of
   * author rows (an author whose only write threw has a row but no post).
   */
  lemma StatsAgreeWithTables(st: Store)
    requires st.Valid()
    ensures st.GetStats().totalAuthors == |st.leaderboard|
    ensures st.GetStats().totalAuthors <= |st.authors|
  {
    AggregateSize(st.posts);
    assert AuthorsOf(st.posts) <= st.authors.Keys;
    SubsetCard(AuthorsOf(st.posts), st.authors.Keys);
  }
}
