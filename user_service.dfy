/**
 * Users (bot/services/user_service.py): get-or-create by Telegram id, the anonymity
 * switch, and the statistics shown on a profile — impact points and the acceptance
 * score — counted from the confession, comment and reaction tables.
 */
module UserService {
  import opened Wrappers
  import opened Models
  import opened Store
  import Strings

  // ---------------------------------------------------------------- register_user

  /** Python's `s or default` for an optional string: the default when `s` is None or empty. */
  function OrDefault(s: Option<string>, default: string): (r: string)
    ensures s.Some? && s.value != "" ==> r == s.value
    ensures s.None? || s.value == "" ==> r == default
  {
    if s.Some? && s.value != "" then s.value else default
  }

  /** `f'user_{telegram_id}'`. */
  function DefaultUsername(telegramId: int): (s: string)
    ensures |s| > 5 && s[..5] == "user_" && Strings.PyInt(s[5..]) == Some(telegramId)
  {
    Strings.IntToStringRoundTrip(telegramId);
    "user_" + Strings.IntToString(telegramId)
  }

  /** The user row below id `n` holding `telegramId`, if there is one (the highest such id). */
  function FindUserBelow(users: map<UserId, User>, telegramId: int, n: nat): (r: Option<UserId>)
    ensures r.Some? ==> r.value < n && r.value in users && users[r.value].telegramId == telegramId
    ensures r.None? ==> forall u :: u in users && u < n ==> users[u].telegramId != telegramId
  {
    if n == 0 then None
    else if n - 1 in users && users[n - 1].telegramId == telegramId then Some(n - 1)
    else FindUserBelow(users, telegramId, n - 1)
  }

  /** `User.objects.get(telegram_id=...)`: the user row holding `telegramId`, if there is one. */
  function FindUser(db: Database, telegramId: int): (r: Option<UserId>)
    reads db
    requires db.Valid()
    ensures r.Some? ==> r.value in db.users && db.users[r.value].telegramId == telegramId
    ensures r.None? ==> forall u :: u in db.users ==> db.users[u].telegramId != telegramId
  {
    FindUserBelow(db.users, telegramId, db.nextUserId)
  }

  /** When only row `u` holds `telegramId`, the search below any `n > u` finds it. */
  lemma {:induction false} FindUserBelowOnly(users: map<UserId, User>, telegramId: int, n: nat, u: UserId)
    requires u in users && u < n && users[u].telegramId == telegramId
    requires forall w :: w in users && w != u ==> users[w].telegramId != telegramId
    ensures FindUserBelow(users, telegramId, n) == Some(u)
    decreases n
  {
    if n - 1 != u {
      FindUserBelowOnly(users, telegramId, n - 1, u);
    }
  }

  /** Since telegram ids are unique, the row found is the only one with that id. */
  lemma FindUserUnique(db: Database, telegramId: int, u: UserId)
    requires db.Valid() && u in db.users && db.users[u].telegramId == telegramId
    ensures FindUser(db, telegramId) == Some(u)
  {
  }

  /** Some user row already holds `username`: the unique constraint of AbstractUser refuses another. */
  predicate UsernameTaken(users: map<UserId, User>, username: string) {
    exists u :: u in users && users[u].username == username
  }

  /** A user with a Telegram id and a username nobody has keeps the tables consistent. */
  lemma AddUserKeepsTablesOk(users: map<UserId, User>, confessions: map<ConfessionId, Confession>,
                             comments: map<CommentId, Comment>, reactions: map<ReactionKey, ReactionKind>,
                             nu: nat, nc: nat, ncm: nat, v: User)
    requires TablesOk(users, confessions, comments, reactions, nu, nc, ncm)
    requires forall u :: u in users ==> users[u].telegramId != v.telegramId
    requires !UsernameTaken(users, v.username)
    ensures nu !in users
    ensures TablesOk(users[nu := v], confessions, comments, reactions, nu + 1, nc, ncm)
  {
    assert users.Keys <= users[nu := v].Keys;
  }

  /** The username `register_user` gives a new row: the one passed, or `user_{telegram_id}`. */
  function RegisteredUsername(telegramId: int, username: Option<string>): string {
    OrDefault(username, DefaultUsername(telegramId))
  }

  /** The row `register_user` creates for an unknown Telegram id. */
  function RegisteredUser(telegramId: int, firstName: Option<string>, username: Option<string>, now: int): (u: User)
    ensures HasUserDefaults(u) && u.telegramId == telegramId
    ensures u.username == RegisteredUsername(telegramId, username)
    ensures u.firstName == OrDefault(firstName, "User")
  {
    NewUser(telegramId, RegisteredUsername(telegramId, username), OrDefault(firstName, "User"), now)
  }

  /** Store the row `v`, whose Telegram id and username nobody has, under the next user id. */
  method InsertUser(db: Database, v: User) returns (id: UserId)
    requires db.Valid()
    requires forall u :: u in db.users ==> db.users[u].telegramId != v.telegramId
    requires !UsernameTaken(db.users, v.username)
    modifies db
    ensures db.Valid()
    ensures old(db.Reconciled()) ==> db.Reconciled()
    ensures id == old(db.nextUserId) && id !in old(db.users)
    ensures db.users == old(db.users)[id := v]
    ensures db.users.Keys == old(db.users.Keys) + {id} && FindUser(db, v.telegramId) == Some(id)
    ensures db.confessions == old(db.confessions) && db.comments == old(db.comments)
    ensures db.reactions == old(db.reactions) && db.nextUserId == old(db.nextUserId) + 1
    ensures db.nextConfessionId == old(db.nextConfessionId) && db.nextCommentId == old(db.nextCommentId)
  {
    id := db.nextUserId;
    AddUserKeepsTablesOk(db.users, db.confessions, db.comments, db.reactions,
                         id, db.nextConfessionId, db.nextCommentId, v);
    FindUserBelowOnly(db.users[id := v], v.telegramId, id + 1, id);
    db.users, db.nextUserId := db.users[id := v], id + 1;
  }

  /** What the unique constraints of the User table refuse. */
  datatype IntegrityError = DuplicateTelegramId(telegramId: int) | DuplicateUsername(username: string)

  /**
   * `register_user`: the existing row for `telegramId`, untouched, or else a new row
   * with the given names (or their defaults) and the User defaults. The new row's
   * username must be free: otherwise the insert fails and nothing is stored.
   */
  method RegisterUser(db: Database, telegramId: int, firstName: Option<string>, username: Option<string>, now: int)
    returns (r: Result<UserId, IntegrityError>)
    requires db.Valid()
    modifies db
    ensures db.Valid()
    ensures old(db.Reconciled()) ==> db.Reconciled()
    ensures r.Ok? ==> r.value in db.users && db.users[r.value].telegramId == telegramId
    ensures r.Ok? ==> FindUser(db, telegramId) == Some(r.value)
    ensures r.Ok? ==> db.users.Keys == old(db.users.Keys) + {r.value}
    ensures FindUserBelow(old(db.users), telegramId, old(db.nextUserId)).Some? ==>
              r == Ok(FindUserBelow(old(db.users), telegramId, old(db.nextUserId)).value) && unchanged(db)
    ensures FindUserBelow(old(db.users), telegramId, old(db.nextUserId)).None? &&
            UsernameTaken(old(db.users), RegisteredUsername(telegramId, username)) ==>
              r == Err(DuplicateUsername(RegisteredUsername(telegramId, username))) && unchanged(db)
    ensures FindUserBelow(old(db.users), telegramId, old(db.nextUserId)).None? &&
            !UsernameTaken(old(db.users), RegisteredUsername(telegramId, username)) ==>
      && r == Ok(old(db.nextUserId)) && r.value !in old(db.users)
      && db.users == old(db.users)[r.value := RegisteredUser(telegramId, firstName, username, now)]
      && db.confessions == old(db.confessions) && db.comments == old(db.comments)
      && db.reactions == old(db.reactions) && db.nextUserId == old(db.nextUserId) + 1
      && db.nextConfessionId == old(db.nextConfessionId) && db.nextCommentId == old(db.nextCommentId)
  {
    var found := FindUser(db, telegramId);
    if found.Some? {
      return Ok(found.value);
    }
    var v := RegisteredUser(telegramId, firstName, username, now);
    if UsernameTaken(db.users, v.username) {
      return Err(DuplicateUsername(v.username));
    }
    var id := InsertUser(db, v);
    r := Ok(id);
  }

  /**
   * Registering the same Telegram id twice yields one row, whatever names come the second
   * time; once the first call has stored a row, the second cannot fail.
   */
  method RegisterTwice(db: Database, telegramId: int, firstName: Option<string>, username: Option<string>,
                       firstName': Option<string>, username': Option<string>, now: int)
    returns (first: Result<UserId, IntegrityError>, second: Result<UserId, IntegrityError>)
    requires db.Valid()
    modifies db
    ensures db.Valid()
    ensures first.Ok? ==> second == first
    ensures first.Ok? ==> first.value in db.users && db.users[first.value].telegramId == telegramId
    ensures first.Ok? ==> db.users.Keys == old(db.users.Keys) + {first.value}
  {
    first := RegisterUser(db, telegramId, firstName, username, now);
    second := RegisterUser(db, telegramId, firstName', username', now);
  }

  /**
   * `User.objects.create`: the unique constraints on `telegram_id` and `username` refuse a
   * second row holding either; the Telegram id is looked at first.
   */
  method CreateUser(db: Database, telegramId: int, username: string, firstName: string, now: int)
    returns (r: Result<UserId, IntegrityError>)
    requires db.Valid()
    modifies db
    ensures db.Valid()
    ensures old(db.Reconciled()) ==> db.Reconciled()
    ensures FindUserBelow(old(db.users), telegramId, old(db.nextUserId)).Some? ==> r == Err(DuplicateTelegramId(telegramId)) && unchanged(db)
    ensures FindUserBelow(old(db.users), telegramId, old(db.nextUserId)).None? && UsernameTaken(old(db.users), username) ==>
              r == Err(DuplicateUsername(username)) && unchanged(db)
    ensures FindUserBelow(old(db.users), telegramId, old(db.nextUserId)).None? && !UsernameTaken(old(db.users), username) ==>
      && r == Ok(old(db.nextUserId)) && r.value !in old(db.users)
      && db.users == old(db.users)[r.value := NewUser(telegramId, username, firstName, now)]
      && db.confessions == old(db.confessions) && db.comments == old(db.comments)
      && db.reactions == old(db.reactions) && db.nextUserId == old(db.nextUserId) + 1
      && db.nextConfessionId == old(db.nextConfessionId) && db.nextCommentId == old(db.nextCommentId)
  {
    if FindUser(db, telegramId).Some? {
      return Err(DuplicateTelegramId(telegramId));
    }
    if UsernameTaken(db.users, username) {
      return Err(DuplicateUsername(username));
    }
    var id := InsertUser(db, NewUser(telegramId, username, firstName, now));
    r := Ok(id);
  }

  // ---------------------------------------------------------------- toggle_anonymity

  /** `toggle_anonymity`: set `is_anonymous_mode` to exactly `enabled`; nothing else changes. */
  method ToggleAnonymity(db: Database, user: UserId, enabled: bool)
    requires db.Valid() && user in db.users
    modifies db
    ensures db.Valid()
    ensures old(db.Reconciled()) ==> db.Reconciled()
    ensures db.users == old(db.users)[user := old(db.users[user]).(isAnonymousMode := enabled)]
    ensures db.confessions == old(db.confessions) && db.comments == old(db.comments)
    ensures db.reactions == old(db.reactions) && db.nextUserId == old(db.nextUserId)
    ensures db.nextConfessionId == old(db.nextConfessionId) && db.nextCommentId == old(db.nextCommentId)
  {
    var v := db.users[user].(isAnonymousMode := enabled);
    UpdateUserKeepsUsersOk(db.users, db.nextUserId, user, v);
    assert db.users[user := v].Keys == db.users.Keys;
    db.users := db.users[user := v];
  }

  /** Off, on, off again: the user ends non-anonymous, with every other field as before. */
  method ToggleRoundTrip(db: Database, user: UserId)
    requires db.Valid() && user in db.users
    modifies db
    ensures user in db.users && !db.users[user].isAnonymousMode
    ensures db.users == old(db.users)[user := old(db.users[user]).(isAnonymousMode := false)]
  {
    ghost var users := db.users;
    ToggleAnonymity(db, user, false);
    ToggleAnonymity(db, user, true);
    ToggleAnonymity(db, user, false);
    assert db.users == users[user := users[user].(isAnonymousMode := false)];
  }

  // ---------------------------------------------------------------- statistics

  /** `user.confessions.filter(status='approved')`. */
  function ApprovedConfessions(confessions: map<ConfessionId, Confession>, u: UserId): set<ConfessionId> {
    set c | c in confessions && confessions[c].user == u && confessions[c].status == Approved
  }

  /** `user.comments`. */
  function CommentsBy(comments: map<CommentId, Comment>, u: UserId): set<CommentId> {
    set c | c in comments && comments[c].user == u
  }

  /** `Reaction.objects.filter(comment__user=user)`. */
  function ReactionsReceived(comments: map<CommentId, Comment>, reactions: map<ReactionKey, ReactionKind>,
                             u: UserId): set<ReactionKey> {
    set k | k in reactions && k.1 in comments && comments[k.1].user == u
  }

  /** `... .filter(reaction_type='like')`. */
  function LikesReceived(comments: map<CommentId, Comment>, reactions: map<ReactionKey, ReactionKind>,
                         u: UserId): (r: set<ReactionKey>)
    ensures r <= ReactionsReceived(comments, reactions, u)
  {
    set k | k in ReactionsReceived(comments, reactions, u) && reactions[k] == Like
  }

  /** Impact points: approved confessions, plus comment rows, plus likes on those comments. */
  function ImpactPoints(confessions: map<ConfessionId, Confession>, comments: map<CommentId, Comment>,
                        reactions: map<ReactionKey, ReactionKind>, u: UserId): nat {
    |ApprovedConfessions(confessions, u)| + |CommentsBy(comments, u)| + |LikesReceived(comments, reactions, u)|
  }

  /** `calculate_impact_points`: count, store the result in `impact_points`, and return it. */
  method CalculateImpactPoints(db: Database, user: UserId) returns (points: nat)
    requires db.Valid() && user in db.users
    modifies db
    ensures db.Valid()
    ensures old(db.Reconciled()) ==> db.Reconciled()
    ensures points == ImpactPoints(db.confessions, db.comments, db.reactions, user)
    ensures db.users == old(db.users)[user := old(db.users[user]).(impactPoints := points)]
    ensures db.confessions == old(db.confessions) && db.comments == old(db.comments)
    ensures db.reactions == old(db.reactions) && db.nextUserId == old(db.nextUserId)
    ensures db.nextConfessionId == old(db.nextConfessionId) && db.nextCommentId == old(db.nextCommentId)
  {
    points := ImpactPoints(db.confessions, db.comments, db.reactions, user);
    var v := db.users[user].(impactPoints := points);
    UpdateUserKeepsUsersOk(db.users, db.nextUserId, user, v);
    assert db.users[user := v].Keys == db.users.Keys;
    db.users := db.users[user := v];
  }

  /** A new comment is one more comment row for its author and none for anyone else. */
  lemma CommentsByAfterAdd(comments: map<CommentId, Comment>, id: CommentId, c: Comment, u: UserId)
    requires id !in comments
    ensures |CommentsBy(comments[id := c], u)| == |CommentsBy(comments, u)| + (if c.user == u then 1 else 0)
  {
    if c.user == u {
      assert CommentsBy(comments[id := c], u) == CommentsBy(comments, u) + {id};
    } else {
      assert CommentsBy(comments[id := c], u) == CommentsBy(comments, u);
    }
  }

  /** Nobody can have reacted to a new comment, so it changes no one's likes received. */
  lemma LikesAfterAdd(comments: map<CommentId, Comment>, reactions: map<ReactionKey, ReactionKind>,
                      users: set<UserId>, id: CommentId, c: Comment, u: UserId)
    requires ReactionsOk(reactions, users, comments.Keys) && id !in comments
    ensures LikesReceived(comments[id := c], reactions, u) == LikesReceived(comments, reactions, u)
  {
    assert ReactionsReceived(comments[id := c], reactions, u) == ReactionsReceived(comments, reactions, u);
  }

  /** A new comment, which nobody can have reacted to yet, is worth exactly one point to its author and none to anyone else. */
  lemma ImpactOfNewComment(confessions: map<ConfessionId, Confession>, comments: map<CommentId, Comment>,
                           reactions: map<ReactionKey, ReactionKind>, users: set<UserId>,
                           id: CommentId, c: Comment, u: UserId)
    requires ReactionsOk(reactions, users, comments.Keys) && id !in comments
    ensures ImpactPoints(confessions, comments[id := c], reactions, u)
         == ImpactPoints(confessions, comments, reactions, u) + (if c.user == u then 1 else 0)
  {
    CommentsByAfterAdd(comments, id, c, u);
    LikesAfterAdd(comments, reactions, users, id, c, u);
  }

  /**
   * Approving confession `id` again changes no approved count, unlike `total_confessions`:
   * it adds one for the author only when the confession was not approved before.
   */
  lemma ApprovedAfterApproval(confessions: map<ConfessionId, Confession>, id: ConfessionId, c: Confession, u: UserId)
    requires id in confessions && c.user == confessions[id].user && c.status == Approved
    ensures |ApprovedConfessions(confessions[id := c], u)|
         == |ApprovedConfessions(confessions, u)| + (if c.user == u && confessions[id].status != Approved then 1 else 0)
  {
    var before := ApprovedConfessions(confessions, u);
    var after := ApprovedConfessions(confessions[id := c], u);
    if c.user == u {
      assert after == before + {id};
      if confessions[id].status == Approved {
        assert after == before;
      }
    } else {
      assert after == before;
    }
  }

  /** `calculate_acceptance_score` before rounding: the share of likes among all reactions received, as a percentage. */
  function AcceptanceScore(comments: map<CommentId, Comment>, reactions: map<ReactionKey, ReactionKind>,
                           u: UserId): (r: real)
    ensures 0.0 <= r <= 100.0
    ensures |ReactionsReceived(comments, reactions, u)| == 0 ==> r == 0.0
    ensures r == 0.0 <==> |LikesReceived(comments, reactions, u)| == 0
    ensures r == 100.0 <==> (ReactionsReceived(comments, reactions, u) != {}
                             && LikesReceived(comments, reactions, u) == ReactionsReceived(comments, reactions, u))
  {
    var all := ReactionsReceived(comments, reactions, u);
    var likes := LikesReceived(comments, reactions, u);
    if |all| == 0 then 0.0
    else
      SubsetSizes(likes, all);
      Percentage(|likes|, |all|);
      (|likes| as real / |all| as real) * 100.0
  }

  /** `part / whole * 100` for counts lies in [0, 100], is 0 only for no part and 100 only for all of it. */
  lemma Percentage(part: nat, whole: nat)
    requires 0 < whole && part <= whole
    ensures var p := (part as real / whole as real) * 100.0;
      && 0.0 <= p <= 100.0 && (p == 0.0 <==> part == 0) && (p == 100.0 <==> part == whole)
  {
    var w, n := whole as real, part as real;
    var q := n / w;
    assert q * w == n;
    assert 0.0 <= q <= 1.0;
    assert q == 0.0 <==> part == 0 by {
      if q == 0.0 { assert q * w == 0.0; }
    }
    assert q == 1.0 <==> part == whole by {
      if q == 1.0 { assert q * w == w; }
    }
  }

  /** A subset is no larger than its superset, and as large only when it is the superset. */
  lemma SubsetSizes<T>(a: set<T>, b: set<T>)
    requires a <= b
    ensures |a| <= |b|
    ensures |a| == |b| <==> a == b
  {
    SubsetSize(a, b);
    if a != b {
      var x :| x in b && x !in a;
      ProperSubsetSmaller(a, b, x);
    }
  }

  /** What `get_user_stats` reports. */
  datatype UserStats = UserStats(totalConfessions: nat, totalComments: nat, impactPoints: nat, acceptanceScore: real)

  /**
   * `get_user_stats`: recomputes (and stores) impact points; `total_confessions` is the
   * number of approved confessions, not the stored counter.
   */
  method GetUserStats(db: Database, user: UserId) returns (s: UserStats)
    requires db.Valid() && user in db.users
    modifies db
    ensures db.Valid()
    ensures old(db.Reconciled()) ==> db.Reconciled()
    ensures s.totalConfessions == |ApprovedConfessions(db.confessions, user)|
    ensures s.totalComments == |CommentsBy(db.comments, user)|
    ensures s.impactPoints == s.totalConfessions + s.totalComments + |LikesReceived(db.comments, db.reactions, user)|
    ensures s.acceptanceScore == AcceptanceScore(db.comments, db.reactions, user)
    ensures db.users == old(db.users)[user := old(db.users[user]).(impactPoints := s.impactPoints)]
    ensures db.confessions == old(db.confessions) && db.comments == old(db.comments)
    ensures db.reactions == old(db.reactions) && db.nextUserId == old(db.nextUserId)
    ensures db.nextConfessionId == old(db.nextConfessionId) && db.nextCommentId == old(db.nextCommentId)
  {
    var points := CalculateImpactPoints(db, user);
    var score := AcceptanceScore(db.comments, db.reactions, user);
    s := UserStats(|ApprovedConfessions(db.confessions, user)|, |CommentsBy(db.comments, user)|, points, score);
  }
}
