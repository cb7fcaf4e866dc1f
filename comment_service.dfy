/**
 * Comments and reactions (bot/services/comment_service.py): creating a comment,
 * listing a confession's top-level comments page by page, and recording a user's
 * reaction on a comment while keeping the comment's three counters in step.
 *
 * `add_reaction` keeps at most one reaction row per (user, comment) for all three
 * kinds, report included: a new kind replaces the old one.
 */
module CommentService {
  import opened Wrappers
  import opened Models
  import opened Store
  import Sorting
  import Paging

  const MaxCommentLength: nat := 1000
  /** Default `page_size` of `get_comments`. */
  const DefaultPageSize: nat := 10

  datatype CommentError = TextTooLong(limit: nat, length: nat) | InvalidReactionType(given: string)

  // ---------------------------------------------------------------- counting lemmas

  lemma KeysAfterUpdate(r: map<ReactionKey, ReactionKind>, key: ReactionKey, kind: ReactionKind,
                        c: CommentId, t: ReactionKind)
    ensures ReactionKeys(r[key := kind], c, t)
         == (ReactionKeys(r, c, t) - {key}) + (if c == key.1 && kind == t then {key} else {})
  {
  }

  /** Setting one reaction row changes only its comment's counts, by the kinds it leaves and takes. */
  lemma CountAfterUpdate(r: map<ReactionKey, ReactionKind>, key: ReactionKey, kind: ReactionKind,
                         c: CommentId, t: ReactionKind)
    ensures CountReactions(r[key := kind], c, t)
         == CountReactions(r, c, t)
            - (if c == key.1 && key in r && r[key] == t then 1 else 0)
            + (if c == key.1 && kind == t then 1 else 0)
  {
    var b := ReactionKeys(r, c, t);
    KeysAfterUpdate(r, key, kind, c, t);
    var rest := b - {key};
    if key in b {
      assert |rest| == |b| - 1;
    } else {
      assert rest == b;
    }
    if c == key.1 && kind == t {
      assert key !in rest;
      assert |rest + {key}| == |rest| + 1;
    }
  }

  /** A comment nobody has reacted to has all three counts at zero. */
  lemma CountWithoutReactions(r: map<ReactionKey, ReactionKind>, c: CommentId, t: ReactionKind)
    requires forall k :: k in r ==> k.1 != c
    ensures CountReactions(r, c, t) == 0
  {
    assert ReactionKeys(r, c, t) == {};
  }

  /** While counters match, an existing reaction is counted, so the `max(0, n - 1)` floor never acts. */
  lemma ExistingReactionCounted(r: map<ReactionKey, ReactionKind>, key: ReactionKey)
    requires key in r
    ensures CountReactions(r, key.1, r[key]) >= 1
  {
    assert key in ReactionKeys(r, key.1, r[key]);
  }

  /** When one user is the only one to have reacted to a comment, the counters show just that reaction. */
  lemma SoleReactionCounts(r: map<ReactionKey, ReactionKind>, key: ReactionKey, t: ReactionKind)
    requires key in r
    requires forall k :: k in r && k.1 == key.1 ==> k == key
    ensures CountReactions(r, key.1, t) == (if r[key] == t then 1 else 0)
  {
    var s := ReactionKeys(r, key.1, t);
    if r[key] == t {
      assert s == {key};
    } else {
      assert s == {};
    }
  }

  /** A comment added with zero counters, which no reaction row can yet point at, keeps every counter matching. */
  lemma NewCommentKeepsCounters(comments: map<CommentId, Comment>, reactions: map<ReactionKey, ReactionKind>,
                                users: set<UserId>, id: CommentId, comment: Comment)
    requires AllCountersMatch(comments, reactions) && ReactionsOk(reactions, users, comments.Keys)
    requires id !in comments
    requires comment.likeCount == 0 && comment.dislikeCount == 0 && comment.reportCount == 0
    ensures AllCountersMatch(comments[id := comment], reactions)
  {
    CountWithoutReactions(reactions, id, Like);
    CountWithoutReactions(reactions, id, Dislike);
    CountWithoutReactions(reactions, id, Report);
  }

  // ---------------------------------------------------------------- create_comment

  /** The author's row after `user.total_comments += 1`. */
  function OneMoreComment(u: User): (v: User)
    ensures v.totalComments == u.totalComments + 1
    ensures v == u.(totalComments := v.totalComments)
  {
    u.(totalComments := u.totalComments + 1)
  }

  /** What `InsertComment` needs about one new comment, in one place. */
  lemma InsertCommentSound(users: map<UserId, User>, confessions: map<ConfessionId, Confession>,
                           comments: map<CommentId, Comment>, reactions: map<ReactionKey, ReactionKind>,
                           nu: nat, nc: nat, ncm: nat, c: Comment, author: User)
    requires TablesOk(users, confessions, comments, reactions, nu, nc, ncm)
    requires c.confession in confessions && c.user in users
    requires author.telegramId == users[c.user].telegramId && author.username == users[c.user].username
    requires c.parent.Some? ==> c.parent.value in comments
    requires c.likeCount == 0 && c.dislikeCount == 0 && c.reportCount == 0
    ensures ncm !in comments
    ensures TablesOk(users[c.user := author], confessions, comments[ncm := c], reactions, nu, nc, ncm + 1)
    ensures AllCountersMatch(comments, reactions) ==> AllCountersMatch(comments[ncm := c], reactions)
  {
    AddCommentKeepsTablesOk(users, confessions, comments, reactions, nu, nc, ncm, c, author);
    if AllCountersMatch(comments, reactions) {
      NewCommentKeepsCounters(comments, reactions, users.Keys, ncm, c);
    }
  }

  /** Store a new comment row and bump its author's `total_comments`. */
  method InsertComment(db: Database, user: UserId, confession: ConfessionId, text: string,
                       parent: Option<CommentId>, now: int)
    returns (id: CommentId)
    requires db.Valid()
    requires user in db.users && confession in db.confessions
    requires parent.Some? ==> parent.value in db.comments
    modifies db
    ensures db.Valid()
    ensures old(db.Reconciled()) ==> db.Reconciled()
    ensures id == old(db.nextCommentId) && id !in old(db.comments)
    ensures db.comments == old(db.comments)[id := Comment(confession, user, parent, text, 0, 0, 0, now)]
    ensures db.users == old(db.users)[user := OneMoreComment(old(db.users[user]))]
    ensures db.reactions == old(db.reactions) && db.confessions == old(db.confessions)
    ensures db.nextCommentId == old(db.nextCommentId) + 1
    ensures db.nextUserId == old(db.nextUserId) && db.nextConfessionId == old(db.nextConfessionId)
  {
    id := db.nextCommentId;
    var comment := Comment(confession, user, parent, text, 0, 0, 0, now);
    var updated := OneMoreComment(db.users[user]);
    InsertCommentSound(db.users, db.confessions, db.comments, db.reactions,
                       db.nextUserId, db.nextConfessionId, id, comment, updated);
    db.users, db.comments, db.nextCommentId := db.users[user := updated], db.comments[id := comment], id + 1;
  }

  /** `create_comment`: refuse text over 1000 characters, otherwise store the comment. */
  method CreateComment(db: Database, user: UserId, confession: ConfessionId, text: string,
                       parent: Option<CommentId>, now: int)
    returns (r: Result<CommentId, CommentError>)
    requires db.Valid()
    requires user in db.users && confession in db.confessions
    requires parent.Some? ==> parent.value in db.comments
    modifies db
    ensures db.Valid()
    ensures old(db.Reconciled()) ==> db.Reconciled()
    ensures |text| > MaxCommentLength ==> r == Err(TextTooLong(MaxCommentLength, |text|)) && unchanged(db)
    ensures |text| <= MaxCommentLength ==>
      && r == Ok(old(db.nextCommentId))
      && r.value !in old(db.comments)
      && db.comments == old(db.comments)[r.value := Comment(confession, user, parent, text, 0, 0, 0, now)]
      && db.users == old(db.users)[user := OneMoreComment(old(db.users[user]))]
      && db.reactions == old(db.reactions) && db.confessions == old(db.confessions)
      && db.nextCommentId == old(db.nextCommentId) + 1
      && db.nextUserId == old(db.nextUserId) && db.nextConfessionId == old(db.nextConfessionId)
  {
    if |text| > MaxCommentLength {
      return Err(TextTooLong(MaxCommentLength, |text|));
    }
    var id := InsertComment(db, user, confession, text, parent, now);
    r := Ok(id);
  }

  // ---------------------------------------------------------------- add_reaction

  /** `max(0, n - 1)`. */
  function FlooredDecrement(n: nat): nat {
    if n == 0 then 0 else n - 1
  }

  /** Counter `n` of kind `t` after the user's reaction goes from `previous` (if any) to `kind`. */
  function Tally(n: nat, previous: Option<ReactionKind>, kind: ReactionKind, t: ReactionKind): nat {
    (if previous == Some(t) then FlooredDecrement(n) else n) + (if kind == t then 1 else 0)
  }

  function Lookup(r: map<ReactionKey, ReactionKind>, key: ReactionKey): Option<ReactionKind> {
    if key in r then Some(r[key]) else None
  }

  /** The comment with each counter moved from the `previous` kind (if any) to `kind`. */
  function Retallied(before: Comment, previous: Option<ReactionKind>, kind: ReactionKind): (c: Comment)
    ensures c.confession == before.confession && c.user == before.user && c.parent == before.parent
    ensures c.text == before.text && c.createdAt == before.createdAt
  {
    before.(likeCount := Tally(before.likeCount, previous, kind, Like),
            dislikeCount := Tally(before.dislikeCount, previous, kind, Dislike),
            reportCount := Tally(before.reportCount, previous, kind, Report))
  }

  /** The comment with its counter of kind `t` lowered by one, but not below zero. */
  function Decremented(c: Comment, t: ReactionKind): Comment {
    match t
    case Like => c.(likeCount := FlooredDecrement(c.likeCount))
    case Dislike => c.(dislikeCount := FlooredDecrement(c.dislikeCount))
    case Report => c.(reportCount := FlooredDecrement(c.reportCount))
  }

  /** The comment with its counter of kind `t` raised by one. */
  function Incremented(c: Comment, t: ReactionKind): Comment {
    match t
    case Like => c.(likeCount := c.likeCount + 1)
    case Dislike => c.(dislikeCount := c.dislikeCount + 1)
    case Report => c.(reportCount := c.reportCount + 1)
  }

  /** Taking the old kind off and then adding the new one is the three-counter `Retallied`. */
  lemma RetalliedInSteps(before: Comment, previous: Option<ReactionKind>, kind: ReactionKind)
    ensures Retallied(before, previous, kind)
         == Incremented(if previous.Some? then Decremented(before, previous.value) else before, kind)
  {
  }

  /** Moving one user's reaction keeps every comment's counters equal to its reaction rows. */
  lemma RetallyKeepsCounters(comments: map<CommentId, Comment>, reactions: map<ReactionKey, ReactionKind>,
                             key: ReactionKey, kind: ReactionKind)
    requires AllCountersMatch(comments, reactions) && key.1 in comments
    ensures AllCountersMatch(comments[key.1 := Retallied(comments[key.1], Lookup(reactions, key), kind)],
                             reactions[key := kind])
  {
    if key in reactions {
      ExistingReactionCounted(reactions, key);
    }
    var comments' := comments[key.1 := Retallied(comments[key.1], Lookup(reactions, key), kind)];
    forall c | c in comments'
      ensures CountersMatch(comments'[c], reactions[key := kind], c)
    {
      CountAfterUpdate(reactions, key, kind, c, Like);
      CountAfterUpdate(reactions, key, kind, c, Dislike);
      CountAfterUpdate(reactions, key, kind, c, Report);
    }
  }

  /** What `SetReaction` needs about one reaction change, in one place. */
  lemma SetReactionSound(users: map<UserId, User>, confessions: map<ConfessionId, Confession>,
                         comments: map<CommentId, Comment>, reactions: map<ReactionKey, ReactionKind>,
                         nu: nat, nc: nat, ncm: nat, key: ReactionKey, kind: ReactionKind)
    requires TablesOk(users, confessions, comments, reactions, nu, nc, ncm)
    requires key.0 in users && key.1 in comments
    ensures var c := Retallied(comments[key.1], Lookup(reactions, key), kind);
      && c == Incremented(if key in reactions then Decremented(comments[key.1], reactions[key]) else comments[key.1], kind)
      && TablesOk(users, confessions, comments[key.1 := c], reactions[key := kind], nu, nc, ncm)
      && (AllCountersMatch(comments, reactions) ==> AllCountersMatch(comments[key.1 := c], reactions[key := kind]))
  {
    var c := Retallied(comments[key.1], Lookup(reactions, key), kind);
    RetalliedInSteps(comments[key.1], Lookup(reactions, key), kind);
    SetReactionKeepsTablesOk(users, confessions, comments, reactions, nu, nc, ncm, key, kind, c);
    if AllCountersMatch(comments, reactions) {
      RetallyKeepsCounters(comments, reactions, key, kind);
    }
  }

  /** The body of `add_reaction` once the kind is known: retype or create the row, then move the counters. */
  method SetReaction(db: Database, user: UserId, comment: CommentId, kind: ReactionKind)
    requires db.Valid()
    requires user in db.users && comment in db.comments
    modifies db
    ensures db.Valid()
    ensures old(db.Reconciled()) ==> db.Reconciled()
    ensures db.reactions == old(db.reactions)[(user, comment) := kind]
    ensures db.comments == old(db.comments)[comment :=
              Retallied(old(db.comments[comment]), Lookup(old(db.reactions), (user, comment)), kind)]
    ensures db.users == old(db.users) && db.confessions == old(db.confessions)
    ensures db.nextUserId == old(db.nextUserId) && db.nextConfessionId == old(db.nextConfessionId)
    ensures db.nextCommentId == old(db.nextCommentId)
  {
    var key := (user, comment);
    SetReactionSound(db.users, db.confessions, db.comments, db.reactions,
                     db.nextUserId, db.nextConfessionId, db.nextCommentId, key, kind);
    var c := db.comments[comment];
    if key in db.reactions {
      // an existing row: take its kind off the counters, then retype it
      c := Decremented(c, db.reactions[key]);
    }
    c := Incremented(c, kind);
    db.reactions, db.comments := db.reactions[key := kind], db.comments[comment := c];
  }

  /** `add_reaction`: refuse an unknown kind, otherwise add or replace `user`'s reaction on `comment`. */
  method AddReaction(db: Database, user: UserId, comment: CommentId, kindName: string)
    returns (r: Result<Reaction, CommentError>)
    requires db.Valid()
    requires user in db.users && comment in db.comments
    modifies db
    ensures db.Valid()
    ensures old(db.Reconciled()) ==> db.Reconciled()
    ensures ParseKind(kindName).None? ==> r == Err(InvalidReactionType(kindName)) && unchanged(db)
    ensures ParseKind(kindName).Some? ==>
      var kind := ParseKind(kindName).value;
      && r == Ok(Reaction(user, comment, kind))
      && db.reactions == old(db.reactions)[(user, comment) := kind]
      && db.comments == old(db.comments)[comment :=
           Retallied(old(db.comments[comment]), Lookup(old(db.reactions), (user, comment)), kind)]
      && db.users == old(db.users) && db.confessions == old(db.confessions)
      && db.nextUserId == old(db.nextUserId) && db.nextConfessionId == old(db.nextConfessionId)
      && db.nextCommentId == old(db.nextCommentId)
  {
    var parsed := ParseKind(kindName);
    if parsed.None? {
      return Err(InvalidReactionType(kindName));
    }
    SetReaction(db, user, comment, parsed.value);
    r := Ok(Reaction(user, comment, parsed.value));
  }

  /** Re-sending the kind a user already holds leaves every counter as it was. */
  lemma SameReactionAgainKeepsCounters(comments: map<CommentId, Comment>, r: map<ReactionKey, ReactionKind>,
                                       key: ReactionKey, t: ReactionKind)
    requires AllCountersMatch(comments, r)
    requires key in r && key.1 in comments
    ensures var before := comments[key.1];
      && Tally(before.likeCount, Some(r[key]), r[key], Like) == before.likeCount
      && Tally(before.dislikeCount, Some(r[key]), r[key], Dislike) == before.dislikeCount
      && Tally(before.reportCount, Some(r[key]), r[key], Report) == before.reportCount
  {
    ExistingReactionCounted(r, key);
  }

  /** The reaction rows after a series of successful `add_reaction` calls, in order. */
  function ApplyReactions(r: map<ReactionKey, ReactionKind>, calls: seq<Reaction>): map<ReactionKey, ReactionKind>
    decreases |calls|
  {
    if calls == [] then r
    else ApplyReactions(r[(calls[0].user, calls[0].comment) := calls[0].kind], calls[1..])
  }

  lemma {:induction false} ApplyReactionsUntouched(r: map<ReactionKey, ReactionKind>, calls: seq<Reaction>, key: ReactionKey)
    requires forall j :: 0 <= j < |calls| ==> (calls[j].user, calls[j].comment) != key
    ensures key in ApplyReactions(r, calls) <==> key in r
    ensures key in r ==> ApplyReactions(r, calls)[key] == r[key]
    decreases |calls|
  {
    if calls != [] {
      ApplyReactionsUntouched(r[(calls[0].user, calls[0].comment) := calls[0].kind], calls[1..], key);
    }
  }

  /** After any series of calls, a (user, comment) pair holds exactly the kind of its last call. */
  lemma {:induction false} LastReactionWins(r: map<ReactionKey, ReactionKind>, calls: seq<Reaction>, i: nat)
    requires i < |calls|
    requires forall j :: i < j < |calls| ==>
      (calls[j].user, calls[j].comment) != (calls[i].user, calls[i].comment)
    ensures (calls[i].user, calls[i].comment) in ApplyReactions(r, calls)
    ensures ApplyReactions(r, calls)[(calls[i].user, calls[i].comment)] == calls[i].kind
    decreases |calls|
  {
    var key := (calls[i].user, calls[i].comment);
    var r1 := r[(calls[0].user, calls[0].comment) := calls[0].kind];
    if i == 0 {
      ApplyReactionsUntouched(r1, calls[1..], key);
    } else {
      LastReactionWins(r1, calls[1..], i - 1);
    }
  }

  // ---------------------------------------------------------------- get_comments

  predicate IsTopLevelOf(comments: map<CommentId, Comment>, c: CommentId, confession: ConfessionId) {
    c in comments && comments[c].confession == confession && comments[c].parent.None?
  }

  /** Ids in [lo, hi) of top-level comments on `confession`, in id order. */
  function TopLevelIds(comments: map<CommentId, Comment>, confession: ConfessionId, lo: nat, hi: nat)
    : (r: seq<CommentId>)
    ensures forall i :: 0 <= i < |r| ==> lo <= r[i] < hi && IsTopLevelOf(comments, r[i], confession)
    ensures forall c :: lo <= c < hi && IsTopLevelOf(comments, c, confession) ==> c in r
    ensures forall i, j :: 0 <= i < j < |r| ==> r[i] < r[j]
    decreases hi - lo
  {
    if lo >= hi then []
    else (if IsTopLevelOf(comments, lo, confession) then [lo] else []) + TopLevelIds(comments, confession, lo + 1, hi)
  }

  /** Sort key putting later `created_at` first. */
  function NewestFirst(comments: map<CommentId, Comment>): nat -> int {
    c => if c in comments then -comments[c].createdAt else 0
  }

  /** Ids sorted newest first have non-increasing `created_at`. */
  lemma NewestFirstOrder(comments: map<CommentId, Comment>, r: seq<CommentId>)
    requires Sorting.SortedBy(r, NewestFirst(comments))
    requires forall i :: 0 <= i < |r| ==> r[i] in comments
    ensures forall i, j :: 0 <= i < j < |r| ==> comments[r[i]].createdAt >= comments[r[j]].createdAt
  {
    forall i, j | 0 <= i < j < |r|
      ensures comments[r[i]].createdAt >= comments[r[j]].createdAt
    {
      assert Sorting.Precedes(NewestFirst(comments), r[i], r[j]);
    }
  }

  /**
   * `Comment.objects.filter(confession=..., parent_comment=None).order_by('-created_at')`:
   * every top-level comment on the confession, each once, newest first. `bound` is above every comment id.
   */
  function TopLevelComments(comments: map<CommentId, Comment>, confession: ConfessionId, bound: nat)
    : (r: seq<CommentId>)
    requires forall c :: c in comments ==> c < bound
    ensures forall c :: c in r <==> IsTopLevelOf(comments, c, confession)
    ensures Sorting.SortedBy(r, NewestFirst(comments))
    ensures Sorting.Distinct(r)
  {
    var ids := TopLevelIds(comments, confession, 0, bound);
    var r := Sorting.SortBy(ids, NewestFirst(comments));
    Sorting.SameElements(r, ids);
    Sorting.SortedIsDistinct(r, NewestFirst(comments));
    r
  }

  /** `get_comments`: one page of a confession's top-level comments, newest first. */
  function GetComments(db: Database, confession: ConfessionId, page: int, pageSize: nat): (p: Paging.Page<CommentId>)
    reads db
    requires db.Valid() && pageSize > 0
    ensures p == Paging.GetPage(TopLevelComments(db.comments, confession, db.nextCommentId), page, pageSize)
    ensures forall i :: 0 <= i < |p.items| ==> IsTopLevelOf(db.comments, p.items[i], confession)
    ensures forall i, j :: 0 <= i < j < |p.items| ==>
              db.comments[p.items[i]].createdAt >= db.comments[p.items[j]].createdAt
  {
    TopLevelPage(db.comments, confession, db.nextCommentId, page, pageSize);
    Paging.GetPage(TopLevelComments(db.comments, confession, db.nextCommentId), page, pageSize)
  }

  /** Every comment on a page of top-level comments is a top-level comment, and the page is newest first. */
  lemma TopLevelPage(comments: map<CommentId, Comment>, confession: ConfessionId, bound: nat, page: int, pageSize: nat)
    requires forall c :: c in comments ==> c < bound
    requires pageSize > 0
    ensures var p := Paging.GetPage(TopLevelComments(comments, confession, bound), page, pageSize);
      && (forall i :: 0 <= i < |p.items| ==> IsTopLevelOf(comments, p.items[i], confession))
      && (forall i, j :: 0 <= i < j < |p.items| ==> comments[p.items[i]].createdAt >= comments[p.items[j]].createdAt)
  {
    var all := TopLevelComments(comments, confession, bound);
    var p := Paging.GetPage(all, page, pageSize);
    var items := Paging.PageItems(all, p.number, pageSize);
    Paging.PageItemsInList(all, p.number, pageSize);
    Paging.PageOfSorted(all, p.number, pageSize, NewestFirst(comments));
    assert forall i :: 0 <= i < |items| ==> items[i] in items && IsTopLevelOf(comments, items[i], confession);
    NewestFirstOrder(comments, items);
  }

  /** Reading every page of `get_comments` in order lists each top-level comment once, newest first. */
  lemma CommentPagesCoverAll(db: Database, confession: ConfessionId, pageSize: nat)
    requires db.Valid() && pageSize > 0
    ensures var all := TopLevelComments(db.comments, confession, db.nextCommentId);
      Paging.PagesUpTo(all, pageSize, Paging.NumPages(|all|, pageSize)) == all
  {
    Paging.PagesCoverList(TopLevelComments(db.comments, confession, db.nextCommentId), pageSize);
  }

  // ---------------------------------------------------------------- get_comment_reactions

  datatype ReactionCounts = ReactionCounts(likes: nat, dislikes: nat, reports: nat)

  /** The comment's three counters; while they are reconciled, its true reaction counts. */
  function GetCommentReactions(db: Database, comment: CommentId): (r: ReactionCounts)
    reads db
    requires comment in db.comments
    ensures db.Reconciled() ==>
      && r.likes == CountReactions(db.reactions, comment, Like)
      && r.dislikes == CountReactions(db.reactions, comment, Dislike)
      && r.reports == CountReactions(db.reactions, comment, Report)
  {
    var c := db.comments[comment];
    ReactionCounts(c.likeCount, c.dislikeCount, c.reportCount)
  }
}
