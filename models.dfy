/**
 * The bot's records (bot/models.py and the UserInteraction migration): field types,
 * choices, and what the foreign keys' `on_delete` rules remove or null.
 * Length caps (`max_length` on text fields) are not part of the records: Django does
 * not enforce them on save, only the services do.
 */
module Models {
  import opened Wrappers

  type UserId = nat
  type ConfessionId = nat
  type CommentId = nat

  /** A Telegram user. `username` and `first_name` come from Django's AbstractUser. */
  datatype User = User(
    telegramId: int,
    username: string,
    firstName: string,
    isAnonymousMode: bool,
    totalConfessions: nat,
    totalComments: nat,
    impactPoints: nat,
    isAdmin: bool,
    createdAt: int)

  /** `Confession.STATUS_CHOICES`. */
  datatype Status = Pending | Approved | Rejected

  function StatusName(s: Status): string {
    match s
    case Pending => "pending"
    case Approved => "approved"
    case Rejected => "rejected"
  }

  function ParseStatus(t: string): Option<Status> {
    if t == "pending" then Some(Pending)
    else if t == "approved" then Some(Approved)
    else if t == "rejected" then Some(Rejected)
    else None
  }

  /** The stored status strings are exactly the three choices. */
  lemma ParseStatusName(t: string, s: Status)
    ensures ParseStatus(t) == Some(s) <==> t == StatusName(s)
  {
  }

  datatype Confession = Confession(
    user: UserId,
    text: string,
    isAnonymous: bool,
    status: Status,
    channelMessageId: Option<int>,
    reviewedBy: Option<UserId>,
    createdAt: int,
    reviewedAt: Option<int>)

  datatype Comment = Comment(
    confession: ConfessionId,
    user: UserId,
    parent: Option<CommentId>,
    text: string,
    likeCount: nat,
    dislikeCount: nat,
    reportCount: nat,
    createdAt: int)

  /** `Reaction.REACTION_CHOICES`. */
  datatype ReactionKind = Like | Dislike | Report

  function KindName(k: ReactionKind): string {
    match k
    case Like => "like"
    case Dislike => "dislike"
    case Report => "report"
  }

  function ParseKind(t: string): Option<ReactionKind> {
    if t == "like" then Some(Like)
    else if t == "dislike" then Some(Dislike)
    else if t == "report" then Some(Report)
    else None
  }

  /** A reaction string is accepted exactly when it names one of the three kinds. */
  lemma ParseKindName(t: string, k: ReactionKind)
    ensures ParseKind(t) == Some(k) <==> t == KindName(k)
  {
  }

  /** A reaction row is identified by its user and its comment. */
  type ReactionKey = (UserId, CommentId)

  datatype Reaction = Reaction(user: UserId, comment: CommentId, kind: ReactionKind)

  /** One row of UserInteraction (migration 0005). */
  datatype Interaction = Interaction(user: UserId, kind: string, timestamp: int)

  /** Field defaults of a freshly created User row. */
  predicate HasUserDefaults(u: User) {
    u.isAnonymousMode && u.totalConfessions == 0 && u.totalComments == 0 && u.impactPoints == 0 && !u.isAdmin
  }

  function NewUser(telegramId: int, username: string, firstName: string, now: int): (u: User)
    ensures HasUserDefaults(u)
    ensures u.telegramId == telegramId && u.username == username && u.firstName == firstName
  {
    User(telegramId, username, firstName, true, 0, 0, 0, false, now)
  }

  /** Replies whose parent is in `s`: what `parent_comment`'s CASCADE reaches in one step. */
  function Replies(comments: map<CommentId, Comment>, s: set<CommentId>): set<CommentId> {
    set c | c in comments && comments[c].parent.Some? && comments[c].parent.value in s
  }

  predicate ClosedUnderReplies(comments: map<CommentId, Comment>, s: set<CommentId>) {
    forall c :: c in comments && comments[c].parent.Some? && comments[c].parent.value in s ==> c in s
  }

  lemma ProperSubsetSmaller<T>(a: set<T>, b: set<T>, x: T)
    requires a <= b && x in b && x !in a
    ensures |a| < |b|
  {
    assert a <= b - {x};
    assert |b - {x}| == |b| - 1;
    SubsetSize(a, b - {x});
  }

  lemma {:induction false} SubsetSize<T>(a: set<T>, b: set<T>)
    requires a <= b
    ensures |a| <= |b|
    decreases |b|
  {
    if a != {} {
      var x :| x in a;
      SubsetSize(a - {x}, b - {x});
    }
  }

  /** `s` together with every reply below it, transitively: what deleting `s` removes. */
  function Descendants(comments: map<CommentId, Comment>, s: set<CommentId>): (r: set<CommentId>)
    requires s <= comments.Keys
    ensures s <= r <= comments.Keys
    ensures ClosedUnderReplies(comments, r)
    decreases |comments.Keys - s|
  {
    var next := s + Replies(comments, s);
    if next == s then s
    else
      var x :| x in next && x !in s;
      ProperSubsetSmaller(comments.Keys - next, comments.Keys - s, x);
      Descendants(comments, next)
  }

  /** The cascade removes nothing it does not have to: it lies inside every reply-closed set holding `s`. */
  lemma {:induction false} DescendantsLeast(comments: map<CommentId, Comment>, s: set<CommentId>, t: set<CommentId>)
    requires s <= comments.Keys && s <= t && ClosedUnderReplies(comments, t)
    ensures Descendants(comments, s) <= t
    decreases |comments.Keys - s|
  {
    var next := s + Replies(comments, s);
    if next != s {
      var x :| x in next && x !in s;
      ProperSubsetSmaller(comments.Keys - next, comments.Keys - s, x);
      DescendantsLeast(comments, next, t);
    }
  }

  /** Deleting the comments in `doomed` and every reaction on them (Reaction.comment is CASCADE). */
  function DeleteComments(comments: map<CommentId, Comment>, reactions: map<ReactionKey, ReactionKind>,
                          doomed: set<CommentId>): (r: (map<CommentId, Comment>, map<ReactionKey, ReactionKind>))
    ensures r.0.Keys == comments.Keys - doomed
    ensures forall c :: c in r.0 ==> r.0[c] == comments[c]
    ensures forall k :: k in r.1 <==> k in reactions && k.1 !in doomed
    ensures forall k :: k in r.1 ==> r.1[k] == reactions[k]
  {
    (map c | c in comments && c !in doomed :: comments[c],
     map k | k in reactions && k.1 !in doomed :: reactions[k])
  }

  /** Deleting a user nulls `reviewed_by` wherever that user reviewed (SET_NULL). */
  function ClearReviewer(confessions: map<ConfessionId, Confession>, admin: UserId): (r: map<ConfessionId, Confession>)
    ensures r.Keys == confessions.Keys
    ensures forall c :: c in r ==> r[c].reviewedBy != Some(admin)
    ensures forall c :: c in r ==> r[c] == confessions[c].(reviewedBy := r[c].reviewedBy)
    ensures forall c :: c in r && confessions[c].reviewedBy != Some(admin) ==> r[c] == confessions[c]
  {
    map c | c in confessions ::
      if confessions[c].reviewedBy == Some(admin) then confessions[c].(reviewedBy := None) else confessions[c]
  }
}
