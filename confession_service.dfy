/**
 * The confession lifecycle (bot/services/confession_service.py): creation with a length
 * cap and an anonymity snapshot, approval (with publication to the channel inside the
 * same transaction), rejection, deletion with its cascade, and the moderation queue.
 *
 * Neither approval nor rejection looks at the current status: approving twice counts
 * the confession twice in the author's `total_confessions`.
 *
 * The Telegram channel is abstract: a bot instance is represented by what its
 * `send_message` yields, a message id or a failure; `CHANNEL_ID` is an optional string.
 */
module ConfessionService {
  import opened Wrappers
  import opened Models
  import opened Store
  import Strings
  import Sorting

  const MaxConfessionLength: nat := 4096

  datatype ConfessionError =
    | TextTooLong(limit: nat, length: nat)
    | ChannelNotConfigured
    | SendFailed

  /** The ValueError message for a confession of `length` characters. */
  function TooLongMessage(length: nat): (m: string)
    ensures |m| >= 46 && m[42..46] == "4096"
  {
    var lead := "Confession text exceeds maximum length of ";
    var m := lead + "4096" + " characters (current: " + Strings.NatToString(length) + ")";
    assert |lead| == 42;
    assert m[42..46] == "4096" by {
      assert forall i :: 42 <= i < 46 ==> m[i] == "4096"[i - 42];
    }
    m
  }

  /** The length named in the message is the one given, written after its first 68 characters. */
  lemma TooLongMessageLength(length: nat)
    ensures var m := TooLongMessage(length);
      |m| > 68 && m[68..|m| - 1] == Strings.NatToString(length) && m[|m| - 1] == ')'
  {
    var d := Strings.NatToString(length);
    var m := TooLongMessage(length);
    var head := "Confession text exceeds maximum length of " + "4096" + " characters (current: ";
    assert |head| == 68;
    assert m == head + d + ")";
    assert m[68..|m| - 1] == d;
  }

  /**
   * The text of the exception each error stands for. A failed send carries whatever the
   * bot library raised, which is not part of this model.
   */
  function ErrorMessage(e: ConfessionError): (m: Option<string>)
    ensures e.TextTooLong? ==> m.Some? && |m.value| > 68 && m.value[42..46] == "4096"
    ensures e.TextTooLong? ==> Strings.PyInt(m.value[68..|m.value| - 1]) == Some(e.length as int)
    ensures e.ChannelNotConfigured? ==> m == Some("CHANNEL_ID not configured in settings")
    ensures e.SendFailed? ==> m.None?
  {
    match e
    case TextTooLong(_, length) =>
      TooLongMessageLength(length);
      Strings.NatToStringRoundTrip(length);
      Some(TooLongMessage(length))
    case ChannelNotConfigured => Some("CHANNEL_ID not configured in settings")
    case SendFailed => None
  }

  /** A bot instance handed to the service, by what sending to the channel yields. */
  datatype BotInstance = BotInstance(sendOutcome: Option<int>)

  /** `if channel_id:` — set and not the empty string. */
  predicate Configured(channel: Option<string>) {
    channel.Some? && channel.value != ""
  }

  // ---------------------------------------------------------------- create_confession

  /** `is_anonymous`: the explicit argument, otherwise the author's mode at this moment. */
  function AnonymityFor(isAnonymous: Option<bool>, author: User): (b: bool)
    ensures isAnonymous.Some? ==> b == isAnonymous.value
    ensures isAnonymous.None? ==> b == author.isAnonymousMode
  {
    if isAnonymous.Some? then isAnonymous.value else author.isAnonymousMode
  }

  /** A new confession row: pending, unpublished and unreviewed. */
  function NewConfession(user: UserId, text: string, isAnonymous: bool, now: int): (c: Confession)
    ensures c.status == Pending && c.channelMessageId.None? && c.reviewedBy.None? && c.reviewedAt.None?
    ensures c.user == user && c.text == text && c.isAnonymous == isAnonymous && c.createdAt == now
  {
    Confession(user, text, isAnonymous, Pending, None, None, now, None)
  }

  /** A confession by an existing user, with no reviewer, keeps the tables consistent. */
  lemma AddConfessionKeepsTablesOk(users: map<UserId, User>, confessions: map<ConfessionId, Confession>,
                                   comments: map<CommentId, Comment>, reactions: map<ReactionKey, ReactionKind>,
                                   nu: nat, nc: nat, ncm: nat, c: Confession)
    requires TablesOk(users, confessions, comments, reactions, nu, nc, ncm)
    requires c.user in users && c.reviewedBy.None?
    ensures nc !in confessions
    ensures TablesOk(users, confessions[nc := c], comments, reactions, nu, nc + 1, ncm)
  {
    assert confessions.Keys <= confessions[nc := c].Keys;
  }

  /** `create_confession`: refuse text over 4096 characters, otherwise store a pending confession. */
  method CreateConfession(db: Database, user: UserId, text: string, isAnonymous: Option<bool>, now: int)
    returns (r: Result<ConfessionId, ConfessionError>)
    requires db.Valid() && user in db.users
    modifies db
    ensures db.Valid()
    ensures old(db.Reconciled()) ==> db.Reconciled()
    ensures |text| > MaxConfessionLength ==> r == Err(TextTooLong(MaxConfessionLength, |text|)) && unchanged(db)
    ensures r.Err? ==> ErrorMessage(r.error) == Some(TooLongMessage(|text|))
    ensures |text| <= MaxConfessionLength ==>
      && r == Ok(old(db.nextConfessionId))
      && r.value !in old(db.confessions)
      && db.confessions == old(db.confessions)[r.value :=
           NewConfession(user, text, AnonymityFor(isAnonymous, old(db.users[user])), now)]
      && db.users == old(db.users) && db.comments == old(db.comments) && db.reactions == old(db.reactions)
      && db.nextConfessionId == old(db.nextConfessionId) + 1
      && db.nextUserId == old(db.nextUserId) && db.nextCommentId == old(db.nextCommentId)
  {
    if |text| > MaxConfessionLength {
      return Err(TextTooLong(MaxConfessionLength, |text|));
    }
    var id := db.nextConfessionId;
    var c := NewConfession(user, text, AnonymityFor(isAnonymous, db.users[user]), now);
    AddConfessionKeepsTablesOk(db.users, db.confessions, db.comments, db.reactions,
                               db.nextUserId, id, db.nextCommentId, c);
    db.confessions, db.nextConfessionId := db.confessions[id := c], id + 1;
    r := Ok(id);
  }

  // ---------------------------------------------------------------- publish_to_channel

  /** The signature under a published confession. */
  function AuthorLabel(isAnonymous: bool, author: User): (s: string)
    ensures isAnonymous ==> s == "Anonymous"
    ensures !isAnonymous && author.username == "" ==> s == author.firstName
    ensures !isAnonymous && author.username != "" ==> s == author.firstName + " (@" + author.username + ")"
  {
    var base := if isAnonymous then "Anonymous" else author.firstName;
    if !isAnonymous && author.username != "" then base + " (@" + author.username + ")" else base
  }

  /** Callback data of the "View / Add Comments" button. */
  function ViewCommentsCallback(id: ConfessionId): (s: string)
    ensures |s| > 14 && s[..14] == "view_comments_"
    ensures s[14..] == Strings.NatToString(id)
  {
    "view_comments_" + Strings.NatToString(id)
  }

  /** What goes to the channel: the HTML text and the one button. */
  datatype ChannelPost = ChannelPost(text: string, buttonLabel: string, callback: string)

  function PostFor(id: ConfessionId, c: Confession, author: User): (p: ChannelPost)
    ensures p.callback == ViewCommentsCallback(id)
    ensures p.buttonLabel == "View / Add Comments"
  {
    ChannelPost("\n\U{1F4DD} <b>Confession " + Strings.NatToString(id) + "</b>\n\n" + c.text
                + "\n\n<i>— " + AuthorLabel(c.isAnonymous, author) + "</i>\n",
                "View / Add Comments", ViewCommentsCallback(id))
  }

  /** `publish_to_channel`: the new message's id, or why there is none. */
  function PublishToChannel(channel: Option<string>, bot: BotInstance): (r: Result<int, ConfessionError>)
    ensures r.Ok? <==> Configured(channel) && bot.sendOutcome.Some?
    ensures r.Ok? ==> r.value == bot.sendOutcome.value
    ensures !Configured(channel) ==> r == Err(ChannelNotConfigured)
    ensures Configured(channel) && bot.sendOutcome.None? ==> r == Err(SendFailed)
  {
    if !Configured(channel) then Err(ChannelNotConfigured)
    else if bot.sendOutcome.None? then Err(SendFailed)
    else Ok(bot.sendOutcome.value)
  }

  // ---------------------------------------------------------------- approve / reject

  /** The confession after a review: the new status, the reviewer and the time, and nothing else. */
  function Reviewed(c: Confession, s: Status, admin: UserId, now: int): (r: Confession)
    ensures r.status == s && r.reviewedBy == Some(admin) && r.reviewedAt == Some(now)
    ensures r.user == c.user && r.text == c.text && r.isAnonymous == c.isAnonymous
    ensures r.channelMessageId == c.channelMessageId && r.createdAt == c.createdAt
  {
    c.(status := s, reviewedBy := Some(admin), reviewedAt := Some(now))
  }

  /** The author's row after `total_confessions += 1`. */
  function OneMoreConfession(u: User): (v: User)
    ensures v.totalConfessions == u.totalConfessions + 1
    ensures v == u.(totalConfessions := v.totalConfessions)
  {
    u.(totalConfessions := u.totalConfessions + 1)
  }

  /** Which `channel_message_id` an approval leaves: the published message's, or the old one. */
  function ApprovedMessageId(old_: Option<int>, published: Option<Result<int, ConfessionError>>): Option<int> {
    if published.Some? && published.value.Ok? then Some(published.value.value) else old_
  }

  /** Re-reviewing a confession and changing its author's counter keeps the tables consistent. */
  lemma ReviewKeepsTablesOk(users: map<UserId, User>, confessions: map<ConfessionId, Confession>,
                            comments: map<CommentId, Comment>, reactions: map<ReactionKey, ReactionKind>,
                            nu: nat, nc: nat, ncm: nat, id: ConfessionId, c: Confession, author: User)
    requires TablesOk(users, confessions, comments, reactions, nu, nc, ncm)
    requires id in confessions && c.user == confessions[id].user
    requires c.reviewedBy.Some? ==> c.reviewedBy.value in users
    requires author.telegramId == users[c.user].telegramId && author.username == users[c.user].username
    ensures TablesOk(users[c.user := author], confessions[id := c], comments, reactions, nu, nc, ncm)
  {
    assert users[c.user := author].Keys == users.Keys;
    assert confessions[id := c].Keys == confessions.Keys;
    UpdateUserKeepsUsersOk(users, nu, c.user, author);
  }

  /**
   * `approve_confession`: mark approved, count it for the author, and publish when a bot
   * is given. All of it is one transaction: if publication fails nothing is stored.
   */
  method ApproveConfession(db: Database, id: ConfessionId, admin: UserId, now: int,
                           bot: Option<BotInstance>, channel: Option<string>)
    returns (r: Result<Confession, ConfessionError>)
    requires db.Valid() && id in db.confessions && admin in db.users
    modifies db
    ensures db.Valid()
    ensures old(db.Reconciled()) ==> db.Reconciled()
    ensures bot.Some? && PublishToChannel(channel, bot.value).Err? ==>
              r == Err(PublishToChannel(channel, bot.value).error) && unchanged(db)
    ensures !(bot.Some? && PublishToChannel(channel, bot.value).Err?) ==>
      var c := old(db.confessions[id]);
      var published := if bot.Some? then Some(PublishToChannel(channel, bot.value)) else None;
      && db.confessions == old(db.confessions)[id :=
           Reviewed(c, Approved, admin, now).(channelMessageId := ApprovedMessageId(c.channelMessageId, published))]
      && r == Ok(db.confessions[id])
      && db.users == old(db.users)[c.user := OneMoreConfession(old(db.users[c.user]))]
      && db.comments == old(db.comments) && db.reactions == old(db.reactions)
      && db.nextUserId == old(db.nextUserId) && db.nextConfessionId == old(db.nextConfessionId)
      && db.nextCommentId == old(db.nextCommentId)
  {
    var published := if bot.Some? then Some(PublishToChannel(channel, bot.value)) else None;
    if published.Some? && published.value.Err? {
      // the exception leaves the atomic block: everything written in it is rolled back
      return Err(published.value.error);
    }
    var old_ := db.confessions[id];
    var c := Reviewed(old_, Approved, admin, now).(channelMessageId := ApprovedMessageId(old_.channelMessageId, published));
    var author := OneMoreConfession(db.users[old_.user]);
    ReviewKeepsTablesOk(db.users, db.confessions, db.comments, db.reactions,
                        db.nextUserId, db.nextConfessionId, db.nextCommentId, id, c, author);
    db.confessions, db.users := db.confessions[id := c], db.users[old_.user := author];
    r := Ok(c);
  }

  /** Approving any confession twice without a bot counts it twice for its author. */
  method ApproveTwice(db: Database, id: ConfessionId, admin: UserId, now: int)
    requires db.Valid() && id in db.confessions && admin in db.users
    modifies db
    ensures db.Valid()
    ensures id in db.confessions && db.confessions[id].status == Approved
    ensures old(db.confessions[id].user) in db.users
    ensures db.users[old(db.confessions[id].user)].totalConfessions
         == old(db.users[db.confessions[id].user].totalConfessions) + 2
  {
    var r1 := ApproveConfession(db, id, admin, now, None, None);
    var r2 := ApproveConfession(db, id, admin, now, None, None);
  }

  /** `reject_confession`: mark rejected with the reviewer and time; no counter, no channel. */
  method RejectConfession(db: Database, id: ConfessionId, admin: UserId, now: int)
    returns (r: Confession)
    requires db.Valid() && id in db.confessions && admin in db.users
    modifies db
    ensures db.Valid()
    ensures old(db.Reconciled()) ==> db.Reconciled()
    ensures r == Reviewed(old(db.confessions[id]), Rejected, admin, now)
    ensures db.confessions == old(db.confessions)[id := r]
    ensures db.users == old(db.users) && db.comments == old(db.comments) && db.reactions == old(db.reactions)
    ensures db.nextUserId == old(db.nextUserId) && db.nextConfessionId == old(db.nextConfessionId)
    ensures db.nextCommentId == old(db.nextCommentId)
  {
    r := Reviewed(db.confessions[id], Rejected, admin, now);
    var author := db.users[r.user];
    assert db.users[r.user := author] == db.users;
    ReviewKeepsTablesOk(db.users, db.confessions, db.comments, db.reactions,
                        db.nextUserId, db.nextConfessionId, db.nextCommentId, id, r, author);
    db.confessions := db.confessions[id := r];
  }

  // ---------------------------------------------------------------- delete_confession

  /** The confession's own comments, then every reply below them: what the CASCADE rules remove. */
  function Cascade(comments: map<CommentId, Comment>, id: ConfessionId): (r: set<CommentId>)
    ensures forall c :: c in comments && comments[c].confession == id ==> c in r
    ensures r <= comments.Keys
    ensures ClosedUnderReplies(comments, r)
  {
    Descendants(comments, set c | c in comments && comments[c].confession == id)
  }

  /** Reactions on comments that stay are the same rows before and after a deletion. */
  lemma DeletionKeepsCounts(reactions: map<ReactionKey, ReactionKind>, r: map<ReactionKey, ReactionKind>,
                            doomed: set<CommentId>, c: CommentId, t: ReactionKind)
    requires forall k :: k in r <==> k in reactions && k.1 !in doomed
    requires forall k :: k in r ==> r[k] == reactions[k]
    requires c !in doomed
    ensures CountReactions(r, c, t) == CountReactions(reactions, c, t)
  {
    assert ReactionKeys(r, c, t) == ReactionKeys(reactions, c, t);
  }

  /** What `DeleteConfession` needs about one deletion, in one place. */
  lemma DeleteSound(users: map<UserId, User>, confessions: map<ConfessionId, Confession>,
                    comments: map<CommentId, Comment>, reactions: map<ReactionKey, ReactionKind>,
                    nu: nat, nc: nat, ncm: nat, id: ConfessionId)
    requires TablesOk(users, confessions, comments, reactions, nu, nc, ncm)
    ensures var left := DeleteComments(comments, reactions, Cascade(comments, id));
      && TablesOk(users, confessions - {id}, left.0, left.1, nu, nc, ncm)
      && (AllCountersMatch(comments, reactions) ==> AllCountersMatch(left.0, left.1))
  {
    var doomed := Cascade(comments, id);
    var left := DeleteComments(comments, reactions, doomed);
    forall c | c in left.0
      ensures left.0[c].confession in (confessions - {id}).Keys
      ensures left.0[c].user in users.Keys
      ensures left.0[c].parent.Some? ==> left.0[c].parent.value in left.0
    {
      assert c in comments && c !in doomed && left.0[c] == comments[c];
    }
    if AllCountersMatch(comments, reactions) {
      forall c | c in left.0
        ensures CountersMatch(left.0[c], left.1, c)
      {
        DeletionKeepsCounts(reactions, left.1, doomed, c, Like);
        DeletionKeepsCounts(reactions, left.1, doomed, c, Dislike);
        DeletionKeepsCounts(reactions, left.1, doomed, c, Report);
      }
    }
  }

  /** `if confession.channel_message_id`: set and not zero. */
  predicate Published(c: Confession) {
    c.channelMessageId.Some? && c.channelMessageId.value != 0
  }

  /**
   * `delete_confession`: remove the row (with its comments, their replies and their
   * reactions) and return true. `channelDelete` is the `delete_message(channel, message)`
   * call made on the way, if any; its failure is ignored.
   */
  method DeleteConfession(db: Database, id: ConfessionId, bot: Option<BotInstance>, channel: Option<string>)
    returns (deleted: bool, channelDelete: Option<(string, int)>)
    requires db.Valid() && id in db.confessions
    modifies db
    ensures db.Valid()
    ensures old(db.Reconciled()) ==> db.Reconciled()
    ensures deleted
    ensures channelDelete.Some? <==> Published(old(db.confessions[id])) && bot.Some? && Configured(channel)
    ensures channelDelete.Some? ==> channelDelete.value == (channel.value, old(db.confessions[id]).channelMessageId.value)
    ensures db.confessions == old(db.confessions) - {id}
    ensures db.comments == DeleteComments(old(db.comments), old(db.reactions), Cascade(old(db.comments), id)).0
    ensures db.reactions == DeleteComments(old(db.comments), old(db.reactions), Cascade(old(db.comments), id)).1
    ensures db.users == old(db.users)
    ensures db.nextUserId == old(db.nextUserId) && db.nextConfessionId == old(db.nextConfessionId)
    ensures db.nextCommentId == old(db.nextCommentId)
  {
    var c := db.confessions[id];
    channelDelete := None;
    if Published(c) && bot.Some? && Configured(channel) {
      channelDelete := Some((channel.value, c.channelMessageId.value));
    }
    var left := DeleteComments(db.comments, db.reactions, Cascade(db.comments, id));
    DeleteSound(db.users, db.confessions, db.comments, db.reactions,
                db.nextUserId, db.nextConfessionId, db.nextCommentId, id);
    db.confessions, db.comments, db.reactions := db.confessions - {id}, left.0, left.1;
    deleted := true;
  }

  /** Everything the cascade takes belongs to the deleted confession's comment threads, and nothing else goes. */
  lemma CascadeIsLeast(comments: map<CommentId, Comment>, id: ConfessionId, t: set<CommentId>)
    requires forall c :: c in comments && comments[c].confession == id ==> c in t
    requires ClosedUnderReplies(comments, t)
    ensures Cascade(comments, id) <= t
  {
    var seed := set c | c in comments && comments[c].confession == id;
    DescendantsLeast(comments, seed, t);
  }

  // ---------------------------------------------------------------- get_pending_confessions

  /** Ids in [lo, hi) of pending confessions, in id order. */
  function PendingIds(confessions: map<ConfessionId, Confession>, lo: nat, hi: nat): (r: seq<ConfessionId>)
    ensures forall i :: 0 <= i < |r| ==> lo <= r[i] < hi && r[i] in confessions && confessions[r[i]].status == Pending
    ensures forall c :: lo <= c < hi && c in confessions && confessions[c].status == Pending ==> c in r
    ensures forall i, j :: 0 <= i < j < |r| ==> r[i] < r[j]
    decreases hi - lo
  {
    if lo >= hi then []
    else
      (if lo in confessions && confessions[lo].status == Pending then [lo] else []) + PendingIds(confessions, lo + 1, hi)
  }

  /** Sort key putting earlier `created_at` first. */
  function OldestFirst(confessions: map<ConfessionId, Confession>): nat -> int {
    c => if c in confessions then confessions[c].createdAt else 0
  }

  /** Ids sorted oldest first have non-decreasing `created_at`. */
  lemma OldestFirstOrder(confessions: map<ConfessionId, Confession>, r: seq<ConfessionId>)
    requires Sorting.SortedBy(r, OldestFirst(confessions))
    requires forall c :: c in r ==> c in confessions
    ensures forall i, j :: 0 <= i < j < |r| ==> confessions[r[i]].createdAt <= confessions[r[j]].createdAt
  {
    forall i, j | 0 <= i < j < |r|
      ensures confessions[r[i]].createdAt <= confessions[r[j]].createdAt
    {
      assert r[i] in r && r[j] in r;
      assert Sorting.Precedes(OldestFirst(confessions), r[i], r[j]);
    }
  }

  /** The pending confessions among the ids below `bound`, each once, sorted oldest first. */
  function PendingConfessions(confessions: map<ConfessionId, Confession>, bound: nat): (r: seq<ConfessionId>)
    requires forall c :: c in confessions ==> c < bound
    ensures forall c :: c in r <==> c in confessions && confessions[c].status == Pending
    ensures Sorting.SortedBy(r, OldestFirst(confessions))
    ensures Sorting.Distinct(r)
  {
    var ids := PendingIds(confessions, 0, bound);
    var r := Sorting.SortBy(ids, OldestFirst(confessions));
    Sorting.SameElements(r, ids);
    Sorting.SortedIsDistinct(r, OldestFirst(confessions));
    r
  }

  /** `Confession.objects.filter(status='pending').order_by('created_at')`. */
  function GetPendingConfessions(db: Database): (r: seq<ConfessionId>)
    reads db
    requires db.Valid()
    ensures forall c :: c in r <==> c in db.confessions && db.confessions[c].status == Pending
    ensures Sorting.Distinct(r)
    ensures forall i, j :: 0 <= i < j < |r| ==>
              db.confessions[r[i]].createdAt <= db.confessions[r[j]].createdAt
  {
    var r := PendingConfessions(db.confessions, db.nextConfessionId);
    OldestFirstOrder(db.confessions, r);
    r
  }
}
