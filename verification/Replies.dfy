/** The author's replies to earlier findings: matching replayed turns to the reviews they
    posted, findings to their comments, and comments to the latest reply
    (`_build_enriched_turns`). */
module Replies {
  import opened Prelude
  import Reviews
  import UnifiedDiffs

  const CODEX_BOT := "cloglog-codex-reviewer[bot]"
  const REPLY_TRUNCATE := 500

  /** A review on GitHub; `commit` is empty when it is missing. */
  datatype PostedReview = PostedReview(id: nat, login: string, commit: string)

  datatype Comment = Comment(
    id: nat,
    inReplyTo: Option<nat>,
    review: Option<nat>,
    path: string,
    line: Option<int>,
    originalLine: Option<int>,
    login: string,
    body: string
  )

  /** A stored finding; `file` is empty when it is missing. */
  datatype Stored = Stored(file: string, line: Option<int>, severity: Reviews.Severity, body: string)

  /** A completed turn with its findings, as replayed from the table. */
  datatype Turn = Turn(sha: string, number: nat, findings: seq<Stored>)

  // ---- Grouping -------------------------------------------------------------------

  function Get<K, V>(groups: map<K, seq<V>>, k: K): seq<V> {
    if k in groups then groups[k] else []
  }

  function Keyed<K(==), V>(key: V -> Option<K>, k: K): V -> bool {
    x => key(x) == Some(k)
  }

  /** `groups` holds the elements of `s` by key, in order. */
  ghost predicate Groups<K(!new), V(!new)>(groups: map<K, seq<V>>, s: seq<V>, key: V -> Option<K>) {
    forall k :: Get(groups, k) == Filter(s, Keyed(key, k))
  }

  function Grown<K, V>(groups: map<K, seq<V>>, x: V, key: V -> Option<K>): map<K, seq<V>> {
    if key(x).Some? then groups[key(x).value := Get(groups, key(x).value) + [x]] else groups
  }

  lemma GroupsGrow<K(!new), V(!new)>(groups: map<K, seq<V>>, s: seq<V>, x: V, key: V -> Option<K>)
    requires Groups(groups, s, key)
    ensures Groups(Grown(groups, x, key), s + [x], key)
  {
    forall k
      ensures Get(Grown(groups, x, key), k) == Filter(s + [x], Keyed(key, k))
    {
      FilterAppend(s, x, Keyed(key, k));
      assert Get(groups, k) == Filter(s, Keyed(key, k));
    }
  }

  /** The elements of `s` by key, in order; those without a key are left out. */
  method GroupBy<K(==, !new), V(!new)>(s: seq<V>, key: V -> Option<K>) returns (groups: map<K, seq<V>>)
    ensures Groups(groups, s, key)
  {
    groups := map[];
    for i := 0 to |s|
      invariant Groups(groups, s[..i], key)
    {
      GroupsGrow(groups, s[..i], s[i], key);
      assert s[..i + 1] == s[..i] + [s[i]];
      groups := Grown(groups, s[i], key);
    }
    assert s[..|s|] == s;
  }

  // ---- Turns and reviews ----------------------------------------------------------

  function ReviewSha(r: PostedReview): Option<string> {
    if r.login == CODEX_BOT && r.commit != "" then Some(r.commit) else None
  }

  function TurnSha(t: Turn): Option<string> {
    Some(t.sha)
  }

  function ById(r: PostedReview): real {
    r.id as real
  }

  /** The bot's reviews of a commit, by id. */
  function ReviewsOn(reviews: seq<PostedReview>, sha: string): seq<PostedReview> {
    SortBy(Filter(reviews, Keyed(ReviewSha, sha)), ById)
  }

  function TurnsOn(turns: seq<Turn>, sha: string): seq<Turn> {
    Filter(turns, Keyed(TurnSha, sha))
  }

  /** The position of turn `i` among the turns of its commit. */
  function Rank(turns: seq<Turn>, i: nat): nat
    requires i < |turns|
  {
    |TurnsOn(turns[..i], turns[i].sha)|
  }

  lemma RankIsPosition(turns: seq<Turn>, i: nat)
    requires i < |turns|
    ensures var on := TurnsOn(turns, turns[i].sha);
            Rank(turns, i) < |on| && on[Rank(turns, i)] == turns[i]
  {
    var keep := Keyed(TurnSha, turns[i].sha);
    assert turns == turns[..i] + ([turns[i]] + turns[i + 1..]);
    FilterConcat(turns[..i], [turns[i]] + turns[i + 1..], keep);
    FilterConcat([turns[i]], turns[i + 1..], keep);
    assert Filter([turns[i]], keep) == [turns[i]];
  }

  /** The review a turn is matched with: by position, when the commit has as many reviews as
      replayed turns. */
  ghost function MatchedReview(turns: seq<Turn>, reviews: seq<PostedReview>, i: nat): Option<nat>
    requires i < |turns|
  {
    RankIsPosition(turns, i);
    var on := ReviewsOn(reviews, turns[i].sha);
    if |on| != |TurnsOn(turns, turns[i].sha)| then None else Some(on[Rank(turns, i)].id)
  }

  /** The table has one row per commit and turn number. */
  ghost predicate DistinctTurns(turns: seq<Turn>) {
    forall sha, j, k :: 0 <= j < k < |TurnsOn(turns, sha)| ==>
        TurnsOn(turns, sha)[j].number != TurnsOn(turns, sha)[k].number
  }

  /** The entries for the turns `on` of one commit. */
  ghost predicate Assigned(ids: map<(string, nat), Option<nat>>, sha: string, on: seq<Turn>,
                           reviews: seq<PostedReview>, upTo: nat)
    requires upTo <= |on|
  {
    forall k :: 0 <= k < upTo ==>
      (sha, on[k].number) in ids
      && ids[(sha, on[k].number)] == if |reviews| == |on| then Some(reviews[k].id) else None
  }

  method AssignReviews(turnsBySha: map<string, seq<Turn>>, reviewsBySha: map<string, seq<PostedReview>>)
    returns (ids: map<(string, nat), Option<nat>>)
    requires forall sha, j, k :: sha in turnsBySha && 0 <= j < k < |turnsBySha[sha]| ==>
               turnsBySha[sha][j].number != turnsBySha[sha][k].number
    ensures forall sha :: sha in turnsBySha ==>
              Assigned(ids, sha, turnsBySha[sha], Get(reviewsBySha, sha), |turnsBySha[sha]|)
  {
    ids := map[];
    var rest := turnsBySha.Keys;
    while rest != {}
      invariant rest <= turnsBySha.Keys
      invariant forall sha :: sha in turnsBySha && sha !in rest ==>
                  Assigned(ids, sha, turnsBySha[sha], Get(reviewsBySha, sha), |turnsBySha[sha]|)
    {
      var sha :| sha in rest;
      var on, reviews := turnsBySha[sha], Get(reviewsBySha, sha);
      for i := 0 to |on|
        invariant Assigned(ids, sha, on, reviews, i)
        invariant forall other :: other in turnsBySha && other !in rest ==>
                    Assigned(ids, other, turnsBySha[other], Get(reviewsBySha, other), |turnsBySha[other]|)
      {
        ids := ids[(sha, on[i].number) := if |reviews| == |on| then Some(reviews[i].id) else None];
      }
      rest := rest - {sha};
    }
  }

  /** `turn_to_review_id` over all commits. */
  method MatchReviews(turns: seq<Turn>, reviews: seq<PostedReview>)
    returns (ids: map<(string, nat), Option<nat>>)
    requires DistinctTurns(turns)
    ensures forall i :: 0 <= i < |turns| ==>
              (turns[i].sha, turns[i].number) in ids
              && ids[(turns[i].sha, turns[i].number)] == MatchedReview(turns, reviews, i)
  {
    var unsorted := GroupBy(reviews, ReviewSha);
    var reviewsBySha := map sha | sha in unsorted :: SortBy(unsorted[sha], ById);
    var turnsBySha := GroupBy(turns, TurnSha);
    forall sha
      ensures Get(reviewsBySha, sha) == ReviewsOn(reviews, sha) && Get(turnsBySha, sha) == TurnsOn(turns, sha)
    {
      assert Get(unsorted, sha) == Filter(reviews, Keyed(ReviewSha, sha));
    }
    assert forall sha :: sha in turnsBySha ==> turnsBySha[sha] == TurnsOn(turns, sha);
    ids := AssignReviews(turnsBySha, reviewsBySha);
    forall i | 0 <= i < |turns|
      ensures (turns[i].sha, turns[i].number) in ids
      ensures ids[(turns[i].sha, turns[i].number)] == MatchedReview(turns, reviews, i)
    {
      RankIsPosition(turns, i);
      var sha := turns[i].sha;
      assert Get(turnsBySha, sha) == TurnsOn(turns, sha) && sha in turnsBySha;
      assert Assigned(ids, sha, turnsBySha[sha], Get(reviewsBySha, sha), |turnsBySha[sha]|);
    }
  }

  // ---- Comments and replies -------------------------------------------------------

  datatype Spot = Spot(review: nat, path: string, line: int)

  /** `c.get("line") or c.get("original_line")`: line 0 counts as missing. */
  function LineOf(c: Comment): Option<int> {
    if c.line.Some? && c.line.value != 0 then c.line else c.originalLine
  }

  /** Where a root comment stands; replies stand nowhere. */
  function RootSpot(c: Comment): Option<Spot> {
    if c.inReplyTo.None? && c.review.Some? && LineOf(c).Some?
    then Some(Spot(c.review.value, c.path, LineOf(c).value))
    else None
  }

  /** The root that `author` replies to with a comment. */
  function RepliedRoot(author: string): Comment -> Option<nat> {
    (c: Comment) => if c.login == author then c.inReplyTo else None
  }

  function RootsAt(comments: seq<Comment>, spot: Spot): seq<Comment> {
    Filter(comments, Keyed(RootSpot, spot))
  }

  function RepliesTo(comments: seq<Comment>, author: string, root: nat): seq<Comment> {
    Filter(comments, Keyed(RepliedRoot(author), root))
  }

  function ExpectedBody(f: Stored): string {
    UnifiedDiffs.CommentBody(Reviews.Finding(f.file, 0, f.severity, "", f.body))
  }

  function FirstWith(roots: seq<Comment>, body: string): Option<nat> {
    if roots == [] then None
    else if roots[0].body == body then Some(roots[0].id)
    else FirstWith(roots[1..], body)
  }

  /** The root comment of a finding: the first with its body, else the only one there. */
  function MatchedRoot(roots: seq<Comment>, body: string): Option<nat> {
    if FirstWith(roots, body).Some? then FirstWith(roots, body)
    else if |roots| == 1 then Some(roots[0].id)
    else None
  }

  function Truncated(body: string): string {
    if |body| > REPLY_TRUNCATE then body[..REPLY_TRUNCATE] + " \U{2026}" else body
  }

  /** `response` is the shortened latest reply of the author to the finding's comment in
      `review`, or nothing if there is none. */
  ghost predicate RespondsTo(comments: seq<Comment>, author: string, review: nat, f: Stored,
                             response: Option<string>)
    requires f.line.Some?
  {
    var root := MatchedRoot(RootsAt(comments, Spot(review, f.file, f.line.value)), ExpectedBody(f));
    if root.None? || RepliesTo(comments, author, root.value) == [] then response == None
    else exists c :: IsLatest(c, RepliesTo(comments, author, root.value)) && response == Some(Truncated(c.body))
  }

  ghost predicate IsLatest(c: Comment, replies: seq<Comment>) {
    c in replies && forall d :: d in replies ==> d.id <= c.id
  }

  predicate HasPlace(f: Stored) {
    f.file != "" && f.line.Some?
  }

  /** What a turn carries into the next prompt, by index of the finding. */
  ghost predicate Enriched(t: Turn, review: Option<nat>, comments: seq<Comment>, author: string,
                           responses: map<nat, Option<string>>)
  {
    && (review.None? ==> responses == map[])
    && (review.Some? ==> forall i :: i in responses <==> 0 <= i < |t.findings| && HasPlace(t.findings[i]))
    && (forall i :: i in responses ==>
          review.Some? && 0 <= i < |t.findings| && HasPlace(t.findings[i])
          && RespondsTo(comments, author, review.value, t.findings[i], responses[i]))
  }

  method FindRoot(roots: seq<Comment>, body: string) returns (root: Option<nat>)
    ensures root == MatchedRoot(roots, body)
  {
    root := None;
    for i := 0 to |roots|
      invariant root == None && FirstWith(roots, body) == FirstWith(roots[i..], body)
    {
      if roots[i].body == body {
        return Some(roots[i].id);
      }
    }
    if |roots| == 1 {
      root := Some(roots[0].id);
    }
  }

  method FindLatest(replies: seq<Comment>) returns (latest: Option<Comment>)
    ensures latest.None? <==> replies == []
    ensures latest.Some? ==> IsLatest(latest.value, replies)
  {
    latest := None;
    for i := 0 to |replies|
      invariant latest.None? <==> i == 0
      invariant latest.Some? ==> IsLatest(latest.value, replies[..i])
    {
      assert replies[..i + 1] == replies[..i] + [replies[i]];
      if latest.None? || replies[i].id > latest.value.id {
        latest := Some(replies[i]);
      }
    }
    assert replies[..|replies|] == replies;
  }

  /** The responses for one turn that is matched with `review`. */
  method Respond(t: Turn, review: Option<nat>, roots: map<Spot, seq<Comment>>,
                 replies: map<nat, seq<Comment>>,
                 ghost comments: seq<Comment>, ghost author: string)
    returns (responses: map<nat, Option<string>>)
    requires Groups(roots, comments, RootSpot) && Groups(replies, comments, RepliedRoot(author))
    ensures Enriched(t, review, comments, author, responses)
  {
    responses := map[];
    if review.None? || t.findings == [] {
      return;
    }
    for i := 0 to |t.findings|
      invariant forall j :: j in responses <==> 0 <= j < i && HasPlace(t.findings[j])
      invariant forall j :: j in responses ==> RespondsTo(comments, author, review.value, t.findings[j], responses[j])
    {
      var f := t.findings[i];
      if HasPlace(f) {
        var response := ResponseFor(f, review.value, roots, replies, comments, author);
        responses := responses[i := response];
      }
    }
  }

  method ResponseFor(f: Stored, review: nat, roots: map<Spot, seq<Comment>>,
                     replies: map<nat, seq<Comment>>,
                     ghost comments: seq<Comment>, ghost author: string)
    returns (response: Option<string>)
    requires HasPlace(f) && Groups(roots, comments, RootSpot) && Groups(replies, comments, RepliedRoot(author))
    ensures RespondsTo(comments, author, review, f, response)
  {
    var spot := Spot(review, f.file, f.line.value);
    assert Get(roots, spot) == RootsAt(comments, spot);
    var root := FindRoot(Get(roots, spot), ExpectedBody(f));
    if root.None? {
      return None;
    }
    assert Get(replies, root.value) == RepliesTo(comments, author, root.value);
    var latest := FindLatest(Get(replies, root.value));
    return if latest.Some? then Some(Truncated(latest.value.body)) else None;
  }

  /** `_build_enriched_turns`. */
  method BuildEnrichedTurns(turns: seq<Turn>, reviews: seq<PostedReview>, comments: seq<Comment>,
                            author: string)
    returns (enriched: seq<map<nat, Option<string>>>)
    requires DistinctTurns(turns)
    ensures |enriched| == |turns|
    ensures forall i :: 0 <= i < |turns| ==>
              Enriched(turns[i], MatchedReview(turns, reviews, i), comments, author, enriched[i])
  {
    var ids := MatchReviews(turns, reviews);
    var roots := GroupBy(comments, RootSpot);
    var replies := GroupBy(comments, RepliedRoot(author));
    enriched := [];
    for i := 0 to |turns|
      invariant |enriched| == i
      invariant forall j :: 0 <= j < i ==>
                  Enriched(turns[j], MatchedReview(turns, reviews, j), comments, author, enriched[j])
    {
      var responses := Respond(turns[i], ids[(turns[i].sha, turns[i].number)], roots, replies, comments, author);
      enriched := enriched + [responses];
    }
  }

  // ---- Whose replies they are -----------------------------------------------------

  lemma {:induction false} FirstWithIsRoot(roots: seq<Comment>, body: string)
    ensures FirstWith(roots, body).Some? ==>
              exists r :: r in roots && r.id == FirstWith(roots, body).value && r.body == body
    ensures FirstWith(roots, body).None? <==> forall r :: r in roots ==> r.body != body
  {
    if roots != [] {
      FirstWithIsRoot(roots[1..], body);
      assert roots == [roots[0]] + roots[1..];
    }
  }

  /** A response is the shortened latest reply by the author to a root comment of that review
      at the place of the finding; that comment has the finding's own text, unless it is the
      only one there and none has. */
  lemma ResponsesAreTheAuthors(comments: seq<Comment>, author: string, review: nat, f: Stored,
                               text: string)
      returns (root: Comment, reply: Comment)
    requires f.line.Some? && RespondsTo(comments, author, review, f, Some(text))
    ensures root in comments && root.inReplyTo.None? && RootSpot(root) == Some(Spot(review, f.file, f.line.value))
    ensures root.body == ExpectedBody(f) || RootsAt(comments, Spot(review, f.file, f.line.value)) == [root]
    ensures reply in comments && reply.login == author && reply.inReplyTo == Some(root.id)
    ensures forall d :: d in comments && d.login == author && d.inReplyTo == Some(root.id) ==> d.id <= reply.id
    ensures text == Truncated(reply.body)
  {
    var spot := Spot(review, f.file, f.line.value);
    var roots := RootsAt(comments, spot);
    FirstWithIsRoot(roots, ExpectedBody(f));
    var id := MatchedRoot(roots, ExpectedBody(f)).value;
    if FirstWith(roots, ExpectedBody(f)).Some? {
      root :| root in roots && root.id == id && root.body == ExpectedBody(f);
    } else {
      root := roots[0];
      assert roots == [root] && root in roots;
    }
    assert Keyed(RootSpot, spot)(root);
    assert RootSpot(root) == Some(spot);
    reply :| IsLatest(reply, RepliesTo(comments, author, id)) && text == Truncated(reply.body);
    assert Keyed(RepliedRoot(author), id)(reply);
    forall d | d in comments && d.login == author && d.inReplyTo == Some(root.id)
      ensures d.id <= reply.id
    {
      assert Keyed(RepliedRoot(author), id)(d);
      assert d in RepliesTo(comments, author, id);
    }
  }

  // ---- When there is a response, and which ----------------------------------------

  /** The comment opens a thread of the review at the place of the finding. A missing line, or
      line 0, stands for the original line. */
  predicate OpensAt(c: Comment, review: nat, f: Stored) {
    && c.inReplyTo == None && c.review == Some(review) && c.path == f.file && f.line.Some?
    && f.line == if c.line == None || c.line == Some(0) then c.originalLine else c.line
  }

  /** Comment `i` carries the finding: the first thread at its place with its text, or, when
      none has it, the only thread there. */
  ghost predicate Carries(comments: seq<Comment>, review: nat, f: Stored, i: nat) {
    && i < |comments| && OpensAt(comments[i], review, f)
    && if comments[i].body == ExpectedBody(f) then
         forall j :: 0 <= j < i && OpensAt(comments[j], review, f) ==> comments[j].body != ExpectedBody(f)
       else forall j :: 0 <= j < |comments| && OpensAt(comments[j], review, f) ==> j == i
  }

  predicate Answers(c: Comment, author: string, root: nat) {
    c.login == author && c.inReplyTo == Some(root)
  }

  /** Comment `c` is the latest answer of the author to the thread that carries the finding. */
  ghost predicate IsResponse(comments: seq<Comment>, author: string, review: nat, f: Stored, c: Comment) {
    exists i: nat :: Carries(comments, review, f, i) && LatestAnswer(comments, author, comments[i].id, c)
  }

  /** The latest answer of the author to the thread. */
  ghost predicate LatestAnswer(comments: seq<Comment>, author: string, root: nat, c: Comment) {
    && c in comments && Answers(c, author, root)
    && forall d :: d in comments && Answers(d, author, root) ==> d.id <= c.id
  }

  /** A long reply is cut after 500 characters and marked; a shorter one is left alone. */
  lemma TruncatedExactly(body: string)
    ensures |body| <= 500 ==> Truncated(body) == body
    ensures |body| > 500 ==> Truncated(body)[..500] == body[..500] && Truncated(body)[500..] == " \U{2026}"
  {
  }

  /** A finding is looked for under the very text that its inline comment was posted with. */
  lemma PostedTextIsExpected(g: Reviews.Finding)
    ensures ExpectedBody(Stored(g.file, Some(g.line), g.severity, g.body)) == UnifiedDiffs.CommentFor(g).body
  {
  }

  lemma OpensIsRootSpot(c: Comment, review: nat, f: Stored)
    requires f.line.Some?
    ensures OpensAt(c, review, f) <==> RootSpot(c) == Some(Spot(review, f.file, f.line.value))
  {
  }

  /** Where the elements that a filter keeps stand. */
  lemma {:induction false} FirstKept<T(!new)>(s: seq<T>, keep: T -> bool) returns (i: nat)
    requires Filter(s, keep) != []
    ensures i < |s| && keep(s[i]) && Filter(s, keep)[0] == s[i]
    ensures forall j :: 0 <= j < i ==> !keep(s[j])
    ensures Filter(s, keep)[1..] == Filter(s[i + 1..], keep)
  {
    if keep(s[0]) {
      i := 0;
    } else {
      i := FirstKept(s[1..], keep);
      assert s[1..][i + 1..] == s[i + 2..];
      i := i + 1;
    }
  }

  lemma FirstWithMore(comments: seq<Comment>, keep: Comment -> bool, body: string)
    requires comments != []
    ensures FirstWith(Filter(comments, keep), body) ==
              if keep(comments[0]) && comments[0].body == body then Some(comments[0].id)
              else FirstWith(Filter(comments[1..], keep), body)
  {
    var rest := Filter(comments[1..], keep);
    if keep(comments[0]) {
      assert Filter(comments, keep) == [comments[0]] + rest && ([comments[0]] + rest)[1..] == rest;
    } else {
      assert Filter(comments, keep) == rest;
    }
  }

  /** The first kept comment with a text, if there is one. */
  lemma {:induction false} FirstWithAt(comments: seq<Comment>, keep: Comment -> bool, body: string) returns (i: nat)
    ensures i <= |comments| && forall j :: 0 <= j < i && keep(comments[j]) ==> comments[j].body != body
    ensures i == |comments| ==> FirstWith(Filter(comments, keep), body) == None
    ensures i < |comments| ==>
              keep(comments[i]) && comments[i].body == body
              && FirstWith(Filter(comments, keep), body) == Some(comments[i].id)
  {
    if comments == [] {
      return 0;
    }
    FirstWithMore(comments, keep, body);
    if keep(comments[0]) && comments[0].body == body {
      return 0;
    }
    var k := FirstWithAt(comments[1..], keep, body);
    i := k + 1;
    assert forall j :: 1 <= j < i ==> comments[j] == comments[1..][j - 1];
  }

  /** The root that a finding is matched with carries it. */
  lemma MatchedCarries(comments: seq<Comment>, review: nat, f: Stored) returns (i: nat)
    requires f.line.Some?
    ensures var root := MatchedRoot(RootsAt(comments, Spot(review, f.file, f.line.value)), ExpectedBody(f));
            && (root.Some? ==> Carries(comments, review, f, i) && comments[i].id == root.value)
            && (root.None? ==> forall k: nat :: !Carries(comments, review, f, k))
  {
    var keep := Keyed(RootSpot, Spot(review, f.file, f.line.value));
    var roots := Filter(comments, keep);
    forall c: Comment
      ensures keep(c) <==> OpensAt(c, review, f)
    {
      OpensIsRootSpot(c, review, f);
    }
    i := FirstWithAt(comments, keep, ExpectedBody(f));
    if i == |comments| && roots != [] {
      i := FirstKept(comments, keep);
      OnlyKept(comments, keep, i);
    }
  }

  /** One kept element is all a filter keeps exactly when no other is kept. */
  lemma OnlyKept(comments: seq<Comment>, keep: Comment -> bool, i: nat)
    requires i < |comments| && keep(comments[i]) && forall j :: 0 <= j < i ==> !keep(comments[j])
    requires Filter(comments, keep) != [] && Filter(comments, keep)[1..] == Filter(comments[i + 1..], keep)
    ensures |Filter(comments, keep)| == 1 <==> forall j :: 0 <= j < |comments| && keep(comments[j]) ==> j == i
  {
    var later := Filter(comments[i + 1..], keep);
    if later != [] {
      var k := FirstKept(comments[i + 1..], keep);
      assert keep(comments[i + 1 + k]);
    } else {
      forall j | i < j < |comments|
        ensures !keep(comments[j])
      {
        assert comments[j] == comments[i + 1..][j - i - 1];
      }
    }
  }

  /** The response to a finding is the latest answer of the author to the thread that carries
      it, shortened; there is none exactly when no thread carries it or the author has not
      answered. */
  lemma RespondsExactly(comments: seq<Comment>, author: string, review: nat, f: Stored, response: Option<string>)
    requires f.line.Some?
    ensures RespondsTo(comments, author, review, f, response) <==>
              if exists c :: IsResponse(comments, author, review, f, c)
              then exists c :: IsResponse(comments, author, review, f, c) && response == Some(Truncated(c.body))
              else response == None
  {
    var i := MatchedCarries(comments, review, f);
    var root := MatchedRoot(RootsAt(comments, Spot(review, f.file, f.line.value)), ExpectedBody(f));
    if root.Some? {
      forall k: nat | Carries(comments, review, f, k)
        ensures k == i
      {
      }
      AnswersTold(comments, author, root.value);
      forall c
        ensures IsResponse(comments, author, review, f, c) <==> IsLatest(c, RepliesTo(comments, author, root.value))
      {
        assert Carries(comments, review, f, i);
      }
    }
  }

  lemma AnswersTold(comments: seq<Comment>, author: string, root: nat)
    ensures forall c :: IsLatest(c, RepliesTo(comments, author, root)) <==> LatestAnswer(comments, author, root, c)
    ensures RepliesTo(comments, author, root) != [] ==> exists c :: LatestAnswer(comments, author, root, c)
  {
    var replies := RepliesTo(comments, author, root);
    forall c
      ensures c in replies <==> c in comments && Answers(c, author, root)
    {
      assert Keyed(RepliedRoot(author), root)(c) <==> Answers(c, author, root);
    }
    if replies != [] {
      var c := LatestOf(replies);
      assert LatestAnswer(comments, author, root, c);
    }
  }

  lemma {:induction false} LatestOf(replies: seq<Comment>) returns (c: Comment)
    requires replies != []
    ensures IsLatest(c, replies)
  {
    assert replies == [replies[0]] + replies[1..];
    if |replies| == 1 {
      c := replies[0];
    } else {
      c := LatestOf(replies[1..]);
      c := if c.id < replies[0].id then replies[0] else c;
    }
  }

  /** What a turn carries: a response for each finding with a place, if it is matched. */
  lemma EnrichedExactly(t: Turn, review: Option<nat>, comments: seq<Comment>, author: string,
                        responses: map<nat, Option<string>>, i: nat)
    requires Enriched(t, review, comments, author, responses)
    ensures i in responses <==>
              review.Some? && i < |t.findings| && t.findings[i].file != "" && t.findings[i].line.Some?
    ensures i in responses ==> RespondsTo(comments, author, review.value, t.findings[i], responses[i])
  {
  }

  // ---- Which review a turn is matched with ----------------------------------------

  function TurnsBefore(turns: seq<Turn>, sha: string, n: nat): set<nat>
    requires n <= |turns|
  {
    set j: nat | j < n && turns[j].sha == sha
  }

  function BotReviews(reviews: seq<PostedReview>, sha: string): set<PostedReview> {
    set r | r in reviews && r.login == "cloglog-codex-reviewer[bot]" && r.commit == sha && sha != ""
  }

  lemma KeyedTurnExactly(t: Turn, sha: string)
    ensures Keyed(TurnSha, sha)(t) <==> t.sha == sha
  {
    var found: Option<string> := TurnSha(t);
    assert Keyed(TurnSha, sha)(t) == (found == Some(sha));
    assert found == Some(sha) <==> found.value == sha;
  }

  lemma KeyedReviewExactly(r: PostedReview, sha: string)
    ensures Keyed(ReviewSha, sha)(r) <==> r.login == CODEX_BOT && r.commit == sha && sha != ""
  {
    var found: Option<string> := ReviewSha(r);
    assert Keyed(ReviewSha, sha)(r) == (found == Some(sha));
    assert found.Some? ==> (found == Some(sha) <==> found.value == sha);
  }

  lemma OneMoreTurn(turns: seq<Turn>, sha: string, n: nat)
    requires n < |turns|
    ensures |TurnsBefore(turns, sha, n + 1)| == |TurnsBefore(turns, sha, n)| + (if turns[n].sha == sha then 1 else 0)
    ensures |TurnsOn(turns[..n + 1], sha)| == |TurnsOn(turns[..n], sha)| + (if turns[n].sha == sha then 1 else 0)
  {
    var here: set<nat> := if turns[n].sha == sha then {n} else {};
    assert TurnsBefore(turns, sha, n + 1) == TurnsBefore(turns, sha, n) + here;
    assert turns[..n + 1] == turns[..n] + [turns[n]];
    FilterAppend(turns[..n], turns[n], Keyed(TurnSha, sha));
    KeyedTurnExactly(turns[n], sha);
  }

  lemma {:induction false} TurnsCounted(turns: seq<Turn>, sha: string, n: nat)
    requires n <= |turns|
    ensures |TurnsOn(turns[..n], sha)| == |TurnsBefore(turns, sha, n)|
  {
    if n == 0 {
      assert TurnsBefore(turns, sha, 0) == {};
    } else {
      OneMoreTurn(turns, sha, n - 1);
      TurnsCounted(turns, sha, n - 1);
    }
  }

  ghost predicate DistinctIds(reviews: seq<PostedReview>) {
    forall j, k :: 0 <= j < k < |reviews| ==> reviews[j].id != reviews[k].id
  }

  lemma {:induction false} FilterKeepsDistinct(reviews: seq<PostedReview>, keep: PostedReview -> bool)
    requires DistinctIds(reviews)
    ensures DistinctIds(Filter(reviews, keep))
  {
    if reviews != [] {
      var rest := Filter(reviews[1..], keep);
      FilterKeepsDistinct(reviews[1..], keep);
      forall k | 0 <= k < |rest|
        ensures rest[k].id != reviews[0].id
      {
        assert rest[k] in rest;
        var j :| 0 <= j < |reviews| - 1 && reviews[1..][j] == rest[k];
        assert reviews[j + 1] == rest[k];
      }
    }
  }

  lemma {:induction false} InsertKeepsDistinct(x: PostedReview, on: seq<PostedReview>)
    requires DistinctIds(on) && forall r :: r in on ==> r.id != x.id
    ensures DistinctIds(InsertBy(x, on, ById)) && forall r :: r in InsertBy(x, on, ById) <==> r == x || r in on
  {
    if on != [] && ById(x) > ById(on[0]) {
      assert on == [on[0]] + on[1..];
      InsertKeepsDistinct(x, on[1..]);
      var rest := InsertBy(x, on[1..], ById);
      forall k | 0 <= k < |rest|
        ensures rest[k].id != on[0].id
      {
        assert rest[k] in rest;
      }
    }
  }

  lemma {:induction false} SortKeepsDistinct(on: seq<PostedReview>)
    requires DistinctIds(on)
    ensures DistinctIds(SortBy(on, ById)) && forall r :: r in SortBy(on, ById) <==> r in on
  {
    if on != [] {
      assert on == [on[0]] + on[1..];
      SortKeepsDistinct(on[1..]);
      InsertKeepsDistinct(on[0], SortBy(on[1..], ById));
    }
  }

  function Elements(s: seq<PostedReview>): set<PostedReview> {
    set r | r in s
  }

  lemma {:induction false} PrefixSize(on: seq<PostedReview>, k: nat)
    requires DistinctIds(on) && k <= |on|
    ensures |Elements(on[..k])| == k
  {
    var prefix := Elements(on[..k]);
    if k == 0 {
      assert prefix == {};
    } else {
      PrefixSize(on, k - 1);
      assert on[..k] == on[..k - 1] + [on[k - 1]];
      assert prefix == Elements(on[..k - 1]) + {on[k - 1]};
      assert on[k - 1] !in on[..k - 1];
    }
  }

  lemma ReviewsOnExactly(reviews: seq<PostedReview>, sha: string)
    requires DistinctIds(reviews)
    ensures var on := ReviewsOn(reviews, sha);
            && DistinctIds(on) && (forall r :: r in on <==> r in BotReviews(reviews, sha))
            && (forall j, k :: 0 <= j < k < |on| ==> on[j].id < on[k].id)
  {
    var kept := Filter(reviews, Keyed(ReviewSha, sha));
    var on := ReviewsOn(reviews, sha);
    FilterKeepsDistinct(reviews, Keyed(ReviewSha, sha));
    SortKeepsDistinct(kept);
    SortBySorts(kept, ById);
    forall r: PostedReview
      ensures Keyed(ReviewSha, sha)(r) <==> r.login == CODEX_BOT && r.commit == sha && sha != ""
    {
      KeyedReviewExactly(r, sha);
    }
    forall j, k | 0 <= j < k < |on|
      ensures on[j].id < on[k].id
    {
      assert ById(on[j]) <= ById(on[k]);
    }
  }

  /** A turn is matched exactly when the bot has as many reviews of the commit as there are
      turns, and then with the review that has as many lower ones as the turn has
      predecessors. */
  lemma MatchedExactly(turns: seq<Turn>, reviews: seq<PostedReview>, i: nat)
    requires i < |turns| && DistinctIds(reviews)
    ensures var sha := turns[i].sha;
            var matched := MatchedReview(turns, reviews, i);
            && (matched.Some? <==> |BotReviews(reviews, sha)| == |TurnsBefore(turns, sha, |turns|)|)
            && (matched.Some? ==>
                  exists r :: r in BotReviews(reviews, sha) && matched == Some(r.id)
                    && |set q | q in BotReviews(reviews, sha) && q.id < r.id| == |TurnsBefore(turns, sha, i)|)
  {
    var sha := turns[i].sha;
    var on, k := ReviewsOn(reviews, sha), Rank(turns, i);
    RankIsPosition(turns, i);
    TurnsCounted(turns, sha, |turns|);
    TurnsCounted(turns, sha, i);
    assert turns[..|turns|] == turns;
    ReviewsOnExactly(reviews, sha);
    PrefixSize(on, |on|);
    assert Elements(on[..|on|]) == BotReviews(reviews, sha);
    if |on| == |TurnsOn(turns, sha)| {
      PrefixSize(on, k);
      LowerArePrefix(on, k);
      assert (set q | q in BotReviews(reviews, sha) && q.id < on[k].id) == Elements(on[..k]);
    }
  }

  lemma LowerArePrefix(on: seq<PostedReview>, k: nat)
    requires k < |on| && forall i, j :: 0 <= i < j < |on| ==> on[i].id < on[j].id
    ensures forall q :: q in on && q.id < on[k].id <==> q in on[..k]
  {
    forall q | q in on && q.id < on[k].id
      ensures q in on[..k]
    {
      var j :| 0 <= j < |on| && on[j] == q;
      assert j < k && on[..k][j] == q;
    }
  }

  /** One successful post on a commit: the turn that made it and its review. */
  datatype Post = Post(number: nat, review: PostedReview)

  function ReviewsOf(posts: seq<Post>): seq<PostedReview> {
    seq(|posts|, i requires 0 <= i < |posts| => posts[i].review)
  }

  function NumbersOf(posts: seq<Post>): seq<nat> {
    seq(|posts|, i requires 0 <= i < |posts| => posts[i].number)
  }

  function TurnNumbers(turns: seq<Turn>): seq<nat> {
    seq(|turns|, i requires 0 <= i < |turns| => turns[i].number)
  }

  /** GitHub lists exactly the reviews of `posts`, whose ids grow in posting order, and no
      turn posts twice. */
  ghost predicate Lists(reviews: seq<PostedReview>, sha: string, posts: seq<Post>) {
    && multiset(Filter(reviews, Keyed(ReviewSha, sha))) == multiset(ReviewsOf(posts))
    && (forall i, j :: 0 <= i < j < |posts| ==>
         posts[i].review.id < posts[j].review.id && posts[i].number != posts[j].number)
  }

  lemma ReviewsInPostingOrder(reviews: seq<PostedReview>, sha: string, posts: seq<Post>)
    requires Lists(reviews, sha, posts)
    ensures ReviewsOn(reviews, sha) == ReviewsOf(posts)
  {
    var on := Filter(reviews, Keyed(ReviewSha, sha));
    SortBySorts(on, ById);
    SortedArrangement(SortBy(on, ById), ReviewsOf(posts), ById);
  }

  /** `a` is what is left of `b` after dropping some elements. */
  ghost predicate Subsequence(a: seq<nat>, b: seq<nat>) {
    a == [] || (b != [] && ((a[0] == b[0] && Subsequence(a[1..], b[1..])) || Subsequence(a, b[1..])))
  }

  lemma {:induction false} FullSubsequence(a: seq<nat>, b: seq<nat>)
    requires Subsequence(a, b)
    ensures |a| <= |b|
    ensures |a| == |b| ==> a == b
  {
    if a != [] {
      if a[0] == b[0] && Subsequence(a[1..], b[1..]) {
        FullSubsequence(a[1..], b[1..]);
        assert a == [a[0]] + a[1..] && b == [b[0]] + b[1..];
      } else {
        FullSubsequence(a, b[1..]);
      }
    }
  }

  /** If the replayed turns of a commit come in the order in which they posted, then a turn
      that is matched with a review is matched with its own, even when some of the turns
      that posted are not replayed. */
  lemma MatchedWithOwnReview(turns: seq<Turn>, reviews: seq<PostedReview>, posts: seq<Post>, i: nat)
    requires i < |turns| && Lists(reviews, turns[i].sha, posts)
    requires Subsequence(TurnNumbers(TurnsOn(turns, turns[i].sha)), NumbersOf(posts))
    ensures MatchedReview(turns, reviews, i).Some? ==>
              exists p :: p in posts && p.number == turns[i].number &&
                  p.review.id == MatchedReview(turns, reviews, i).value
  {
    var on := TurnsOn(turns, turns[i].sha);
    RankIsPosition(turns, i);
    ReviewsInPostingOrder(reviews, turns[i].sha, posts);
    FullSubsequence(TurnNumbers(on), NumbersOf(posts));
    if |on| == |posts| {
      var k := Rank(turns, i);
      assert TurnNumbers(on)[k] == NumbersOf(posts)[k];
      assert posts[k] in posts;
    }
  }

  /** When as many turns are replayed as posted, all of them get their own reviews exactly
      when the turns are replayed in posting order. */
  lemma OwnReviewsExactly(turns: seq<Turn>, reviews: seq<PostedReview>, sha: string, posts: seq<Post>)
    requires Lists(reviews, sha, posts) && |TurnsOn(turns, sha)| == |posts|
    ensures |ReviewsOn(reviews, sha)| == |posts|
    ensures (forall k :: 0 <= k < |posts| ==> Post(TurnsOn(turns, sha)[k].number, ReviewsOn(reviews, sha)[k]) in posts)
       <==> TurnNumbers(TurnsOn(turns, sha)) == NumbersOf(posts)
  {
    var on := TurnsOn(turns, sha);
    ReviewsInPostingOrder(reviews, sha, posts);
    if forall k :: 0 <= k < |posts| ==> Post(on[k].number, ReviewsOn(reviews, sha)[k]) in posts {
      forall k | 0 <= k < |posts|
        ensures TurnNumbers(on)[k] == NumbersOf(posts)[k]
      {
        var j :| 0 <= j < |posts| && posts[j] == Post(on[k].number, posts[k].review);
        assert j == k;
      }
    } else {
      var k :| 0 <= k < |posts| && Post(on[k].number, ReviewsOn(reviews, sha)[k]) !in posts;
      assert posts[k] in posts && posts[k].review == ReviewsOn(reviews, sha)[k];
      assert TurnNumbers(on)[k] != NumbersOf(posts)[k];
    }
  }

  lemma KeyedTurn(t: Turn)
    ensures Keyed(TurnSha, t.sha)(t)
  {
    assert TurnSha(t) == Some(t.sha);
  }

  lemma KeyedReview(id: nat, sha: string)
    requires sha != ""
    ensures Keyed(ReviewSha, sha)(PostedReview(id, CODEX_BOT, sha))
  {
    assert ReviewSha(PostedReview(id, CODEX_BOT, sha)) == Some(sha);
  }

  /** A lower turn that failed, was retried, and posted after a higher one: each of the two
      is matched with the review of the other. */
  lemma RetriedTurnsAreSwapped(lower: Turn, higher: Turn, earlier: nat, later: nat)
    requires lower.sha == higher.sha != "" && lower.number < higher.number && earlier < later
    ensures var turns, sha := [lower, higher], lower.sha;
            var posts := [Post(higher.number, PostedReview(earlier, CODEX_BOT, sha)),
                          Post(lower.number, PostedReview(later, CODEX_BOT, sha))];
            && Lists(ReviewsOf(posts), sha, posts)
            && MatchedReview(turns, ReviewsOf(posts), 0) == Some(earlier)
            && MatchedReview(turns, ReviewsOf(posts), 1) == Some(later)
  {
    var turns, sha := [lower, higher], lower.sha;
    var posts := [Post(higher.number, PostedReview(earlier, CODEX_BOT, sha)),
                  Post(lower.number, PostedReview(later, CODEX_BOT, sha))];
    KeyedReview(earlier, sha);
    KeyedReview(later, sha);
    assert ReviewsOf(posts) == [posts[0].review, posts[1].review];
    FilterAll(ReviewsOf(posts), Keyed(ReviewSha, sha));
    KeyedTurn(lower);
    KeyedTurn(higher);
    FilterAll(turns, Keyed(TurnSha, sha));
    ReviewsInPostingOrder(ReviewsOf(posts), sha, posts);
    RankIsPosition(turns, 0);
    RankIsPosition(turns, 1);
    assert TurnsOn(turns, sha) == turns;
  }

  lemma {:induction false} FilterAll<T(!new)>(s: seq<T>, keep: T -> bool)
    requires forall x :: x in s ==> keep(x)
    ensures Filter(s, keep) == s
  {
    if s != [] {
      FilterAll(s[1..], keep);
    }
  }
}
