/**
 * The three tables of the store (server.js:32-63) and the single-statement
 * operations on them: the post upsert (server.js:174-181), the author touch
 * (server.js:187-192) and the leaderboard aggregate query (server.js:198-208).
 * The posts and leaderboard tables are sequences of rows in row order; the
 * authors table is keyed by its UNIQUE username.
 */
module Tables {
  import opened Wrappers
  import opened Scoring
  import opened Records

  datatype PostRow = PostRow(
    author: string,
    postId: string,
    title: string,
    score: int,
    calculatedScore: int,
    createdMs: int,
    url: string)

  datatype AuthorRow = AuthorRow(firstSeenAt: int, lastSeenAt: int)

  /** A leaderboard row; `lastActiveMs` is the nullable `last_active_ms` column. */
  datatype Entry = Entry(
    author: string,
    originalScore: int,
    calculatedScore: int,
    lastActiveMs: Option<int>)

  /** What an INSERT ... ON CONFLICT statement leaves behind: the table and `changes`. */
  datatype Write = Write(rows: seq<PostRow>, changes: nat)

  // ---------------------------------------------------------------------------
  // Posts

  /** The UNIQUE constraint on post_id (server.js:45). */
  predicate UniquePostIds(posts: seq<PostRow>)
  {
    forall i, j :: 0 <= i < j < |posts| ==> posts[i].postId != posts[j].postId
  }

  /** Every row's calculated_score is the scoring law applied to its score. */
  predicate ScoreLaw(posts: seq<PostRow>)
  {
    forall i :: 0 <= i < |posts| ==> posts[i].calculatedScore == CalculateScore(posts[i].score)
  }

  /** Rows only ever come from accepted records: truthy author, id and creation time. */
  predicate RowsFromAccepted(posts: seq<PostRow>)
  {
    forall i :: 0 <= i < |posts| ==>
      posts[i].author != "" && posts[i].postId != "" && posts[i].createdMs != 0
  }

  /** The row an insert of an accepted record creates. */
  function NewRow(a: Accepted): PostRow
  {
    PostRow(a.author, a.postId, a.title, a.score, CalculateScore(a.score), a.createdMs, a.url)
  }

  /** Two rows agree on every column except score and calculated_score. */
  predicate SameExceptScore(p: PostRow, q: PostRow)
  {
    p.author == q.author && p.postId == q.postId && p.title == q.title
    && p.createdMs == q.createdMs && p.url == q.url
  }

  /** The index of the row with the given post_id, if any (the first, were there several). */
  function FindPost(posts: seq<PostRow>, postId: string): (r: Option<nat>)
    ensures r.Some? ==> r.value < |posts| && posts[r.value].postId == postId
    ensures r.Some? ==> forall j :: 0 <= j < r.value ==> posts[j].postId != postId
    ensures r.None? ==> forall j :: 0 <= j < |posts| ==> posts[j].postId != postId
  {
    if posts == [] then None
    else if posts[0].postId == postId then Some(0)
    else match FindPost(posts[1..], postId)
      case None => None
      case Some(k) => Some(k + 1)
  }

  /** True when the table holds a row for the post id that carries the given score. */
  predicate HasScore(posts: seq<PostRow>, postId: string, score: int)
  {
    var k := FindPost(posts, postId);
    k.Some? && posts[k.value].score == score
  }

  /**
   * INSERT INTO posts ... ON CONFLICT(post_id) DO UPDATE SET score, calculated_score
   * WHERE posts.score != excluded.score.
   */
  function Upsert(posts: seq<PostRow>, a: Accepted): (w: Write)
    ensures w.changes <= 1
    ensures w.changes == 0 <==> w.rows == posts
    ensures HasScore(w.rows, a.postId, a.score)
    ensures |posts| <= |w.rows| <= |posts| + 1
    ensures forall j :: 0 <= j < |posts| ==> SameExceptScore(w.rows[j], posts[j])
    ensures forall j :: 0 <= j < |posts| && posts[j].postId != a.postId ==> w.rows[j] == posts[j]
    ensures |w.rows| == |posts| + 1 ==> w.rows[|posts|] == NewRow(a)
    ensures forall id :: id != a.postId ==> FindPost(w.rows, id) == FindPost(posts, id)
    ensures UniquePostIds(posts) ==> UniquePostIds(w.rows)
    ensures ScoreLaw(posts) ==> ScoreLaw(w.rows)
    ensures RowsFromAccepted(posts) && a.author != "" && a.postId != "" && a.createdMs != 0
            ==> RowsFromAccepted(w.rows)
  {
    match FindPost(posts, a.postId)
    case None =>
      FindPostAppend(posts, NewRow(a));
      Write(posts + [NewRow(a)], 1)
    case Some(i) =>
      if posts[i].score != a.score then
        var row := posts[i].(score := a.score, calculatedScore := CalculateScore(a.score));
        FindPostReplace(posts, i, row);
        Write(posts[i := row], 1)
      else
        Write(posts, 0)
  }

  lemma {:induction false} FindPostAppend(posts: seq<PostRow>, row: PostRow)
    requires FindPost(posts, row.postId).None?
    ensures FindPost(posts + [row], row.postId) == Some(|posts|)
    ensures forall id :: id != row.postId ==> FindPost(posts + [row], id) == FindPost(posts, id)
  {
    var ext := posts + [row];
    assert forall j :: 0 <= j < |posts| ==> ext[j] == posts[j];
    assert ext[|posts|] == row;
    forall id | id != row.postId
      ensures FindPost(ext, id) == FindPost(posts, id)
    {
      var r := FindPost(ext, id);
      var q := FindPost(posts, id);
      if q.Some? {
        assert ext[q.value].postId == id;
      }
    }
  }

  lemma FindPostReplace(posts: seq<PostRow>, i: nat, row: PostRow)
    requires i < |posts| && row.postId == posts[i].postId
    ensures forall id :: FindPost(posts[i := row], id) == FindPost(posts, id)
  {
    var upd := posts[i := row];
    assert forall j :: 0 <= j < |posts| ==> upd[j].postId == posts[j].postId;
    forall id ensures FindPost(upd, id) == FindPost(posts, id) {
      var r := FindPost(upd, id);
      var q := FindPost(posts, id);
      if q.Some? {
        assert upd[q.value].postId == id;
      }
      if r.Some? {
        assert posts[r.value].postId == id;
      }
    }
  }

  /**
   * The three outcomes of the upsert: an unknown post id adds exactly one row;
   * a known one with a different score rewrites only that row's score columns;
   * a known one with the same score writes nothing.
   */
  lemma UpsertCases(posts: seq<PostRow>, a: Accepted)
    requires UniquePostIds(posts)
    ensures var w := Upsert(posts, a);
      match FindPost(posts, a.postId)
      case None =>
        w.changes == 1 && w.rows == posts + [NewRow(a)]
      case Some(i) =>
        if posts[i].score != a.score then
          && w.changes == 1 && |w.rows| == |posts|
          && SameExceptScore(w.rows[i], posts[i])
          && w.rows[i].score == a.score && w.rows[i].calculatedScore == CalculateScore(a.score)
          && forall j :: 0 <= j < |posts| && j != i ==> w.rows[j] == posts[j]
        else
          w.changes == 0 && w.rows == posts
  {
  }

  // ---------------------------------------------------------------------------
  // Authors

  /**
   * INSERT INTO authors ... ON CONFLICT(username) DO UPDATE SET last_seen_at:
   * the username is present afterwards, last seen now, first seen unchanged
   * if it was known and now otherwise; no other row changes.
   */
  function Touch(authors: map<string, AuthorRow>, username: string, now: int): (r: map<string, AuthorRow>)
    ensures r.Keys == authors.Keys + {username}
    ensures r[username].lastSeenAt == now
    ensures r[username].firstSeenAt == if username in authors then authors[username].firstSeenAt else now
    ensures forall u :: u in authors && u != username ==> r[u] == authors[u]
  {
    if username in authors then authors[username := authors[username].(lastSeenAt := now)]
    else authors[username := AuthorRow(now, now)]
  }

  // ---------------------------------------------------------------------------
  // Leaderboard aggregate

  /** The distinct authors of the posts table. */
  function AuthorsOf(posts: seq<PostRow>): set<string>
  {
    set i | 0 <= i < |posts| :: posts[i].author
  }

  /** The distinct authors, each once, in the order of their first row (the GROUP BY groups). */
  function AuthorList(posts: seq<PostRow>): (r: seq<string>)
    ensures forall i, j :: 0 <= i < j < |r| ==> r[i] != r[j]
    ensures forall a :: a in r <==> a in AuthorsOf(posts)
  {
    if posts == [] then []
    else
      var prefix := posts[..|posts| - 1];
      var earlier := AuthorList(prefix);
      var last := posts[|posts| - 1].author;
      assert forall a :: a in AuthorsOf(posts) <==> a in AuthorsOf(prefix) || a == last by {
        forall a ensures a in AuthorsOf(posts) <==> a in AuthorsOf(prefix) || a == last {
          if a in AuthorsOf(posts) {
            var i :| 0 <= i < |posts| && posts[i].author == a;
            if i < |prefix| { assert prefix[i] == posts[i]; }
          }
          if a in AuthorsOf(prefix) {
            var i :| 0 <= i < |prefix| && prefix[i].author == a;
            assert posts[i] == prefix[i];
          }
        }
      }
      if last in earlier then earlier else earlier + [last]
  }

  /** SUM(score) over one author's rows. */
  function SumScore(posts: seq<PostRow>, author: string): int
  {
    if posts == [] then 0
    else (if posts[0].author == author then posts[0].score else 0) + SumScore(posts[1..], author)
  }

  /** SUM(calculated_score) over one author's rows. */
  function SumCalculated(posts: seq<PostRow>, author: string): int
  {
    if posts == [] then 0
    else (if posts[0].author == author then posts[0].calculatedScore else 0)
         + SumCalculated(posts[1..], author)
  }

  /** The sum of the scoring law over one author's raw scores. */
  function SumDerived(posts: seq<PostRow>, author: string): int
  {
    if posts == [] then 0
    else (if posts[0].author == author then CalculateScore(posts[0].score) else 0)
         + SumDerived(posts[1..], author)
  }

  /** COUNT(*) of one author's rows (the live post_count, server.js:276). */
  function CountPosts(posts: seq<PostRow>, author: string): nat
  {
    if posts == [] then 0
    else (if posts[0].author == author then 1 else 0) + CountPosts(posts[1..], author)
  }

  /** MAX(created_ms) over one author's rows: NULL for an author without rows. */
  function MaxCreated(posts: seq<PostRow>, author: string): (m: Option<int>)
    ensures m.None? <==> author !in AuthorsOf(posts)
    ensures m.Some? ==> exists i :: 0 <= i < |posts| && posts[i].author == author && posts[i].createdMs == m.value
    ensures m.Some? ==> forall i :: 0 <= i < |posts| && posts[i].author == author ==> posts[i].createdMs <= m.value
  {
    if posts == [] then None
    else
      var rest := MaxCreated(posts[1..], author);
      assert forall i :: 1 <= i < |posts| ==> posts[i] == posts[1..][i - 1];
      assert author in AuthorsOf(posts[1..]) ==> author in AuthorsOf(posts) by {
        if author in AuthorsOf(posts[1..]) {
          var i :| 0 <= i < |posts[1..]| && posts[1..][i].author == author;
          assert posts[i + 1].author == author;
        }
      }
      assert author in AuthorsOf(posts) ==> posts[0].author == author || author in AuthorsOf(posts[1..]) by {
        if author in AuthorsOf(posts) && posts[0].author != author {
          var i :| 0 <= i < |posts| && posts[i].author == author;
          assert posts[1..][i - 1].author == author;
        }
      }
      if posts[0].author != author then rest
      else if rest.Some? && rest.value > posts[0].createdMs then rest
      else Some(posts[0].createdMs)
  }

  /** The aggregate row of one author. */
  function AggregateEntry(posts: seq<PostRow>, author: string): Entry
  {
    Entry(author, SumScore(posts, author), SumCalculated(posts, author), MaxCreated(posts, author))
  }

  /** INSERT INTO leaderboard SELECT ... FROM posts GROUP BY author, on an emptied table. */
  function Aggregate(posts: seq<PostRow>): seq<Entry>
  {
    var names := AuthorList(posts);
    seq(|names|, i requires 0 <= i < |names| => AggregateEntry(posts, names[i]))
  }

  /**
   * The leaderboard is exactly the per-author aggregate of the posts: one row
   * per distinct author with posts and no other, each carrying its author's
   * score sums and latest creation time.
   */
  ghost predicate IsAggregateOf(lb: seq<Entry>, posts: seq<PostRow>)
  {
    && (forall i, j :: 0 <= i < j < |lb| ==> lb[i].author != lb[j].author)
    && (forall i :: 0 <= i < |lb| ==> lb[i].author in AuthorsOf(posts))
    && (forall k :: 0 <= k < |posts| ==> exists i :: 0 <= i < |lb| && lb[i].author == posts[k].author)
    && (forall i :: 0 <= i < |lb| ==>
          && lb[i].originalScore == SumScore(posts, lb[i].author)
          && lb[i].calculatedScore == SumCalculated(posts, lb[i].author)
          && lb[i].lastActiveMs.Some?
          && (exists k :: 0 <= k < |posts| && posts[k].author == lb[i].author
                          && posts[k].createdMs == lb[i].lastActiveMs.value)
          && (forall k :: 0 <= k < |posts| && posts[k].author == lb[i].author
                          ==> posts[k].createdMs <= lb[i].lastActiveMs.value))
  }

  lemma AggregateIsAggregateOf(posts: seq<PostRow>)
    ensures IsAggregateOf(Aggregate(posts), posts)
  {
    var lb := Aggregate(posts);
    var names := AuthorList(posts);
    forall k | 0 <= k < |posts|
      ensures exists i :: 0 <= i < |lb| && lb[i].author == posts[k].author
    {
      assert posts[k].author in AuthorsOf(posts);
      var i :| 0 <= i < |names| && names[i] == posts[k].author;
      assert lb[i].author == posts[k].author;
    }
    forall i | 0 <= i < |lb| ensures lb[i].author in AuthorsOf(posts) {
      assert lb[i].author == names[i];
    }
  }

  /** Under the scoring law the summed calculated score is the scoring law summed. */
  lemma {:induction false} SumCalculatedIsDerived(posts: seq<PostRow>, author: string)
    requires ScoreLaw(posts)
    ensures SumCalculated(posts, author) == SumDerived(posts, author)
  {
    if posts != [] {
      assert ScoreLaw(posts[1..]) by {
        forall i | 0 <= i < |posts[1..]| ensures posts[1..][i].calculatedScore == CalculateScore(posts[1..][i].score) {
          assert posts[1..][i] == posts[i + 1];
        }
      }
      SumCalculatedIsDerived(posts[1..], author);
    }
  }

  /** A sequence without repetitions has as many elements as its set. */
  lemma {:induction false} DistinctCard(s: seq<string>)
    requires forall i, j :: 0 <= i < j < |s| ==> s[i] != s[j]
    ensures |set x | x in s| == |s|
  {
    if s != [] {
      var init := s[..|s| - 1];
      DistinctCard(init);
      assert (set x | x in s) == (set x | x in init) + {s[|s| - 1]};
      assert s[|s| - 1] !in (set x | x in init);
    }
  }

  /** The rebuilt leaderboard has exactly as many rows as posts has distinct authors. */
  lemma AggregateSize(posts: seq<PostRow>)
    ensures |Aggregate(posts)| == |AuthorsOf(posts)|
  {
    var names := AuthorList(posts);
    DistinctCard(names);
    assert (set x | x in names) == AuthorsOf(posts);
  }
}
