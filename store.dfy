/**
 * The database the services read and write: one map per table, keyed by primary key,
 * and the next primary key each table will hand out.
 */
module Store {
  import opened Wrappers
  import opened Models

  /** The stored reactions of `kind` on comment `c`. */
  function ReactionKeys(reactions: map<ReactionKey, ReactionKind>, c: CommentId, kind: ReactionKind): set<ReactionKey> {
    set k | k in reactions && k.1 == c && reactions[k] == kind
  }

  function CountReactions(reactions: map<ReactionKey, ReactionKind>, c: CommentId, kind: ReactionKind): nat {
    |ReactionKeys(reactions, c, kind)|
  }

  /** The denormalised counters of comment `c` agree with its reaction rows. */
  predicate CountersMatch(comment: Comment, reactions: map<ReactionKey, ReactionKind>, c: CommentId) {
    && comment.likeCount == CountReactions(reactions, c, Like)
    && comment.dislikeCount == CountReactions(reactions, c, Dislike)
    && comment.reportCount == CountReactions(reactions, c, Report)
  }

  predicate AllCountersMatch(comments: map<CommentId, Comment>, reactions: map<ReactionKey, ReactionKind>) {
    forall c :: c in comments ==> CountersMatch(comments[c], reactions, c)
  }

  /**
   * `telegram_id` and `username` (the latter inherited from Django's AbstractUser) are each
   * unique among users; primary keys are below the next one to be handed out.
   */
  predicate UsersOk(users: map<UserId, User>, nextUserId: nat) {
    && (forall u :: u in users ==> u < nextUserId)
    && (forall u, v {:trigger users[u].telegramId, users[v].telegramId} ::
         u in users && v in users && users[u].telegramId == users[v].telegramId ==> u == v)
    && (forall u, v {:trigger users[u].username, users[v].username} ::
         u in users && v in users && users[u].username == users[v].username ==> u == v)
  }

  /** Every confession's author and reviewer exist. */
  predicate ConfessionsOk(confessions: map<ConfessionId, Confession>, users: set<UserId>, nextConfessionId: nat) {
    forall c :: c in confessions ==>
      && c < nextConfessionId
      && confessions[c].user in users
      && (confessions[c].reviewedBy.Some? ==> confessions[c].reviewedBy.value in users)
  }

  /** Every comment's confession, author and parent exist. */
  predicate CommentsOk(comments: map<CommentId, Comment>, confessions: set<ConfessionId>,
                       users: set<UserId>, nextCommentId: nat) {
    && (forall c :: c in comments ==> c < nextCommentId)
    // triggered on `comments[c]` only, so that a parent found in `comments` does not set off its own parent
    && (forall c {:trigger comments[c]} :: c in comments ==>
          && comments[c].confession in confessions
          && comments[c].user in users
          && (comments[c].parent.Some? ==> comments[c].parent.value in comments))
  }

  /** Every reaction's user and comment exist. */
  predicate ReactionsOk(reactions: map<ReactionKey, ReactionKind>, users: set<UserId>, comments: set<CommentId>) {
    forall k :: k in reactions ==> k.0 in users && k.1 in comments
  }

  /** Referential integrity: what the foreign keys and unique constraints of the schema guarantee. */
  predicate TablesOk(users: map<UserId, User>, confessions: map<ConfessionId, Confession>,
                     comments: map<CommentId, Comment>, reactions: map<ReactionKey, ReactionKind>,
                     nextUserId: nat, nextConfessionId: nat, nextCommentId: nat) {
    && UsersOk(users, nextUserId)
    && ConfessionsOk(confessions, users.Keys, nextConfessionId)
    && CommentsOk(comments, confessions.Keys, users.Keys, nextCommentId)
    && ReactionsOk(reactions, users.Keys, comments.Keys)
  }

  /** Retyping or adding a reaction, and changing its comment's counters, keeps the tables consistent. */
  lemma SetReactionKeepsTablesOk(users: map<UserId, User>, confessions: map<ConfessionId, Confession>,
                     comments: map<CommentId, Comment>, reactions: map<ReactionKey, ReactionKind>,
                     nu: nat, nc: nat, ncm: nat, key: ReactionKey, kind: ReactionKind, c: Comment)
    requires TablesOk(users, confessions, comments, reactions, nu, nc, ncm)
    requires key.0 in users && key.1 in comments
    requires c.confession == comments[key.1].confession && c.user == comments[key.1].user && c.parent == comments[key.1].parent
    ensures TablesOk(users, confessions, comments[key.1 := c], reactions[key := kind], nu, nc, ncm)
  {
    assert comments[key.1 := c].Keys == comments.Keys;
    UpdateCommentKeepsCommentsOk(comments, confessions.Keys, users.Keys, ncm, key.1, c);
  }

  /** Adding a comment whose references exist, and bumping its author's counter, keeps the tables consistent. */
  lemma AddCommentKeepsTablesOk(users: map<UserId, User>, confessions: map<ConfessionId, Confession>,
                     comments: map<CommentId, Comment>, reactions: map<ReactionKey, ReactionKind>,
                     nu: nat, nc: nat, ncm: nat, c: Comment, author: User)
    requires TablesOk(users, confessions, comments, reactions, nu, nc, ncm)
    requires c.confession in confessions && c.user in users
    requires author.telegramId == users[c.user].telegramId && author.username == users[c.user].username
    requires c.parent.Some? ==> c.parent.value in comments
    ensures ncm !in comments
    ensures TablesOk(users[c.user := author], confessions, comments[ncm := c], reactions, nu, nc, ncm + 1)
  {
    assert users[c.user := author].Keys == users.Keys;
    UpdateUserKeepsUsersOk(users, nu, c.user, author);
    AddCommentKeepsCommentsOk(comments, confessions.Keys, users.Keys, ncm, c);
    ReactionsOkMonotone(reactions, users.Keys, comments.Keys, users.Keys, comments[ncm := c].Keys);
  }

  /** Changing a user's row without touching its `telegram_id` or `username` keeps both unique. */
  lemma UpdateUserKeepsUsersOk(users: map<UserId, User>, next: nat, u: UserId, v: User)
    requires UsersOk(users, next) && u in users
    requires v.telegramId == users[u].telegramId && v.username == users[u].username
    ensures UsersOk(users[u := v], next)
  {
  }

  /** A new comment whose confession, author and parent exist keeps comments consistent. */
  lemma AddCommentKeepsCommentsOk(comments: map<CommentId, Comment>, confessions: set<ConfessionId>,
                                  users: set<UserId>, next: nat, c: Comment)
    requires CommentsOk(comments, confessions, users, next)
    requires c.confession in confessions && c.user in users
    requires c.parent.Some? ==> c.parent.value in comments
    ensures CommentsOk(comments[next := c], confessions, users, next + 1)
  {
  }

  /** Changing a comment's counters or text, but none of its references, keeps comments consistent. */
  lemma UpdateCommentKeepsCommentsOk(comments: map<CommentId, Comment>, confessions: set<ConfessionId>,
                                     users: set<UserId>, next: nat, id: CommentId, c: Comment)
    requires CommentsOk(comments, confessions, users, next) && id in comments
    requires c.confession == comments[id].confession && c.user == comments[id].user && c.parent == comments[id].parent
    ensures CommentsOk(comments[id := c], confessions, users, next)
  {
  }

  /** Reactions stay consistent when the users and comments they point at only grow. */
  lemma ReactionsOkMonotone(reactions: map<ReactionKey, ReactionKind>, users: set<UserId>, comments: set<CommentId>,
                            users': set<UserId>, comments': set<CommentId>)
    requires ReactionsOk(reactions, users, comments) && users <= users' && comments <= comments'
    ensures ReactionsOk(reactions, users', comments')
  {
  }

  class Database {
    var users: map<UserId, User>
    var confessions: map<ConfessionId, Confession>
    var comments: map<CommentId, Comment>
    var reactions: map<ReactionKey, ReactionKind>
    var nextUserId: nat
    var nextConfessionId: nat
    var nextCommentId: nat

    ghost predicate Valid()
      reads this
    {
      TablesOk(users, confessions, comments, reactions, nextUserId, nextConfessionId, nextCommentId)
    }

    /** Each comment's like, dislike and report counters equal its number of reactions of that kind. */
    ghost predicate Reconciled()
      reads this
    {
      AllCountersMatch(comments, reactions)
    }

    constructor ()
      ensures Valid() && Reconciled()
      ensures users == map[] && confessions == map[] && comments == map[] && reactions == map[]
    {
      users, confessions, comments, reactions := map[], map[], map[], map[];
      nextUserId, nextConfessionId, nextCommentId := 0, 0, 0;
    }
  }
}
