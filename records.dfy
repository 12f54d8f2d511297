/**
 * Raw records as the upstream API delivers them, and the validation and
 * field resolution that updateLeaderboard applies to each one
 * (server.js:215-221). Every field may be absent; JavaScript truthiness is
 * written out: a string is truthy when non-empty, a number when non-zero.
 */
module Records {
  import opened Wrappers

  /**
   * One upstream record. `id`, `snakePostId` and `camelPostId` stand for the
   * synonymous fields `id`, `post_id` and `postId`; `scoreUp` is `score_up`,
   * present exactly when its JavaScript type is number.
   */
  datatype Raw = Raw(
    author: Option<string>,
    scoreUp: Option<int>,
    created: Option<int>,
    id: Option<string>,
    snakePostId: Option<string>,
    camelPostId: Option<string>,
    title: Option<string>,
    permalink: Option<string>,
    url: Option<string>)

  /** A record that passed validation, with every stored column resolved. */
  datatype Accepted = Accepted(
    author: string,
    postId: string,
    title: string,
    score: int,
    createdMs: int,
    url: string)

  predicate Truthy(o: Option<string>) { o.Some? && o.value != "" }

  predicate TruthyNumber(o: Option<int>) { o.Some? && o.value != 0 }

  /** JavaScript's `a || b` on two optional strings. */
  function Or(a: Option<string>, b: Option<string>): Option<string>
  {
    if Truthy(a) then a else b
  }

  /** The url stored when neither `permalink` nor `url` is truthy (server.js:221). */
  function DefaultUrl(community: string, postId: string): string
  {
    "https://communities.win/c/" + community + "/" + postId
  }

  /**
   * Validation and resolution of one record: None is the `continue` of
   * server.js:215 and server.js:217.
   */
  function Accept(r: Raw, community: string): (a: Option<Accepted>)
    ensures a.None? <==>
              || !Truthy(r.author)
              || r.scoreUp.None?
              || !TruthyNumber(r.created)
              || (!Truthy(r.id) && !Truthy(r.snakePostId) && !Truthy(r.camelPostId))
    ensures a.Some? ==>
              && a.value.author == r.author.value != ""
              && a.value.score == r.scoreUp.value
              && a.value.createdMs == r.created.value != 0
              && a.value.postId != ""
              && a.value.postId == (if Truthy(r.id) then r.id.value
                                    else if Truthy(r.snakePostId) then r.snakePostId.value
                                    else r.camelPostId.value)
              && a.value.title == (if Truthy(r.title) then r.title.value else "")
              && a.value.url == (if Truthy(r.permalink) then r.permalink.value
                                 else if Truthy(r.url) then r.url.value
                                 else DefaultUrl(community, a.value.postId))
  {
    if !Truthy(r.author) || r.scoreUp.None? || !TruthyNumber(r.created) then None
    else
      var postId := Or(Or(r.id, r.snakePostId), r.camelPostId);
      if !Truthy(postId) then None
      else
        var url := Or(r.permalink, r.url);
        Some(Accepted(
          r.author.value,
          postId.value,
          if Truthy(r.title) then r.title.value else "",
          r.scoreUp.value,
          r.created.value,
          if Truthy(url) then url.value else DefaultUrl(community, postId.value)))
  }
}
