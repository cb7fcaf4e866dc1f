/**
 * The comment view (bot/handlers/comment_handlers.py): what a commenter's card shows,
 * the buttons under a comment and above a page of comments, the callback data those
 * buttons carry and how the handlers take it apart again with `split('_')`.
 *
 * Telegram is not modelled: a handler returns the messages it would send, in order,
 * and the text it would answer the callback query with.
 */
module CommentHandlers {
  import opened Wrappers
  import opened Models
  import opened Store
  import Strings
  import Paging
  import CommentService
  import ConfessionService
  import UserService

  /** Comments per page in the comment view. */
  const PageSize: nat := 5

  /** How much of a comment's text its card shows. */
  const SnippetLength: nat := 400

  const Devil: string := "\U{1F608}"
  const Neutral: string := "\U{1F610}"
  const Angel: string := "\U{1F607}"

  // ---------------------------------------------------------------- get_acceptance_emoji

  /** `get_acceptance_emoji`: neutral for a commenter nobody reacted to, else by score band. */
  function AcceptanceEmoji(score: real, hasReactions: bool): (e: string)
    ensures e == Devil <==> hasReactions && score < 30.0
    ensures e == Angel <==> hasReactions && score > 50.0
    ensures e == Neutral <==> !hasReactions || 30.0 <= score <= 50.0
  {
    if !hasReactions then Neutral
    else if score < 30.0 then Devil
    else if score <= 50.0 then Neutral
    else Angel
  }

  /** Orders the three faces from worst to best. */
  function Rank(e: string): int {
    if e == Devil then 0 else if e == Neutral then 1 else 2
  }

  /** Among commenters with reactions, a higher score never shows a worse face. */
  lemma EmojiMonotone(s: real, t: real)
    requires s <= t
    ensures Rank(AcceptanceEmoji(s, true)) <= Rank(AcceptanceEmoji(t, true))
  {
    if s < 30.0 {
      assert AcceptanceEmoji(s, true) == Devil;
    } else if s <= 50.0 {
      assert AcceptanceEmoji(s, true) == Neutral && AcceptanceEmoji(t, true) != Devil;
    } else {
      assert AcceptanceEmoji(t, true) == Angel;
    }
  }

  /** The face on a card: the author's acceptance score, and whether any of their comments has a reaction. */
  function CommenterEmoji(comments: map<CommentId, Comment>, reactions: map<ReactionKey, ReactionKind>,
                          u: UserId): string {
    AcceptanceEmoji(UserService.AcceptanceScore(comments, reactions, u),
                    UserService.ReactionsReceived(comments, reactions, u) != {})
  }

  /**
   * A commenter nobody reacted to looks neutral; one whose reactions include no like looks
   * devilish; one whose reactions are all likes looks angelic.
   */
  lemma CommenterEmojiExtremes(comments: map<CommentId, Comment>, reactions: map<ReactionKey, ReactionKind>,
                               u: UserId)
    ensures UserService.ReactionsReceived(comments, reactions, u) == {} ==>
              CommenterEmoji(comments, reactions, u) == Neutral
    ensures UserService.ReactionsReceived(comments, reactions, u) != {}
            && UserService.LikesReceived(comments, reactions, u) == {} ==>
              CommenterEmoji(comments, reactions, u) == Devil
    ensures UserService.ReactionsReceived(comments, reactions, u) != {}
            && UserService.LikesReceived(comments, reactions, u) == UserService.ReactionsReceived(comments, reactions, u) ==>
              CommenterEmoji(comments, reactions, u) == Angel
  {
    var score := UserService.AcceptanceScore(comments, reactions, u);
    if UserService.LikesReceived(comments, reactions, u) == {} {
      assert |UserService.LikesReceived(comments, reactions, u)| == 0;
      assert score == 0.0;
    }
  }

  // ---------------------------------------------------------------- build_comment_text

  /** `comment.text[:400]`. */
  function Snippet(text: string): (s: string)
    ensures |s| <= SnippetLength && s <= text
    ensures |s| == SnippetLength || s == text
  {
    if |text| <= SnippetLength then text else text[..SnippetLength]
  }

  /** The score as shown: on a scale of 0 to 10 instead of 0 to 100. */
  function ScaledScore(score: real): (s: real)
    ensures s * 10.0 == score
    ensures 0.0 <= score <= 100.0 ==> 0.0 <= s <= 10.0
  {
    score / 10.0
  }

  datatype Button = Button(text: string, callback: string)

  /** Callback data of a comment button: `{action}_comment_{id}`. */
  function CommentCallback(action: string, id: CommentId): string {
    action + "_comment_" + Strings.NatToString(id)
  }

  /** `build_comment_keyboard`: like, report and dislike with their counters, then reply. */
  function CommentKeyboard(id: CommentId, c: Comment): (rows: seq<seq<Button>>)
    ensures |rows| == 2 && |rows[0]| == 3 && |rows[1]| == 1
    ensures rows[0][0].callback == CommentCallback("like", id)
    ensures rows[0][1].callback == CommentCallback("report", id)
    ensures rows[0][2].callback == CommentCallback("dislike", id)
    ensures rows[1][0].callback == CommentCallback("reply", id)
    ensures rows[0][0].text == "\U{1F44D} " + Strings.NatToString(c.likeCount)
    ensures rows[0][1].text == "⚠️ " + Strings.NatToString(c.reportCount)
    ensures rows[0][2].text == "\U{1F44E} " + Strings.NatToString(c.dislikeCount)
  {
    [[Button("\U{1F44D} " + Strings.NatToString(c.likeCount), CommentCallback("like", id)),
      Button("⚠️ " + Strings.NatToString(c.reportCount), CommentCallback("report", id)),
      Button("\U{1F44E} " + Strings.NatToString(c.dislikeCount), CommentCallback("dislike", id))],
     [Button("↩️ Reply", CommentCallback("reply", id))]]
  }

  /** A numeral holds no `_`. */
  lemma NumeralHasNoUnderscore(n: nat)
    ensures '_' !in Strings.NatToString(n)
  {
    var s := Strings.NatToString(n);
    assert forall i :: 0 <= i < |s| ==> s[i] != '_';
  }

  /** Nor does a numeral with a sign. */
  lemma SignedNumeralHasNoUnderscore(i: int)
    ensures '_' !in Strings.IntToString(i)
  {
    var s := Strings.IntToString(i);
    Strings.IntToStringChars(i);
    assert forall k :: 0 <= k < |s| ==> s[k] != '_';
  }

  /** Splitting a comment button's callback on `_` gives back its action and the comment id. */
  lemma CommentCallbackRoundTrip(action: string, id: CommentId)
    requires '_' !in action
    ensures var parts := Strings.Split(CommentCallback(action, id), '_');
      |parts| == 3 && parts[0] == action && parts[1] == "comment" && Strings.PyInt(parts[2]) == Some(id as int)
  {
    var n := Strings.NatToString(id);
    NumeralHasNoUnderscore(id);
    assert CommentCallback(action, id) == action + "_" + "comment" + "_" + n;
    SplitThreeFields(action, "comment", n);
    Strings.NatToStringRoundTrip(id);
  }

  /** What `build_comment_text` puts on a comment's card, before it is laid out as HTML. */
  datatype CommentCard = CommentCard(snippet: string, impactPoints: nat, emoji: string, scaledScore: real,
                                     keyboard: seq<seq<Button>>)

  /** The card of comment `id` over the given tables. */
  function CardFor(confessions: map<ConfessionId, Confession>, comments: map<CommentId, Comment>,
                   reactions: map<ReactionKey, ReactionKind>, id: CommentId): (card: CommentCard)
    requires id in comments
    ensures |card.snippet| <= SnippetLength && card.snippet <= comments[id].text
    ensures 0.0 <= card.scaledScore <= 10.0
  {
    var c := comments[id];
    CommentCard(Snippet(c.text), UserService.ImpactPoints(confessions, comments, reactions, c.user),
                CommenterEmoji(comments, reactions, c.user),
                ScaledScore(UserService.AcceptanceScore(comments, reactions, c.user)),
                CommentKeyboard(id, c))
  }

  /**
   * `build_comment_text` with `build_comment_keyboard`. Computing the impact points goes
   * through `calculate_impact_points`, which stores them on the author: showing a comment
   * writes its author's `impact_points`.
   */
  method BuildCommentCard(db: Database, id: CommentId) returns (card: CommentCard)
    requires db.Valid() && id in db.comments
    modifies db
    ensures db.Valid()
    ensures old(db.Reconciled()) ==> db.Reconciled()
    ensures db.confessions == old(db.confessions) && db.comments == old(db.comments)
    ensures card == CardFor(db.confessions, db.comments, db.reactions, id)
    ensures var u := old(db.comments[id].user);
      db.users == old(db.users)[u := old(db.users[u]).(impactPoints := UserService.ImpactPoints(db.confessions, db.comments, db.reactions, u))]
    ensures db.reactions == old(db.reactions) && db.nextUserId == old(db.nextUserId)
    ensures db.nextConfessionId == old(db.nextConfessionId) && db.nextCommentId == old(db.nextCommentId)
  {
    var c := db.comments[id];
    var points := UserService.CalculateImpactPoints(db, c.user);
    card := CommentCard(Snippet(c.text), points, CommenterEmoji(db.comments, db.reactions, c.user),
                        ScaledScore(UserService.AcceptanceScore(db.comments, db.reactions, c.user)),
                        CommentKeyboard(id, c));
  }

  // ---------------------------------------------------------------- send_page_header

  /** `comments_page_{confession}_{page}`. */
  function PageCallback(confession: ConfessionId, page: int): string {
    "comments_page_" + Strings.NatToString(confession) + "_" + Strings.IntToString(page)
  }

  function PrevButton(confession: ConfessionId, page: int): Button {
    Button("⬅️ Prev", PageCallback(confession, page - 1))
  }

  function NextButton(confession: ConfessionId, page: int): Button {
    Button("Next ➡️", PageCallback(confession, page + 1))
  }

  function AddCommentButton(confession: ConfessionId): Button {
    Button("➕ Add Comment", "add_comment_" + Strings.NatToString(confession))
  }

  datatype Header = Header(text: string, rows: seq<seq<Button>>)

  /**
   * `send_page_header`: the Add Comment row, then a navigation row holding Prev when there
   * is a previous page and Next when there is a next one, and no navigation row when
   * there is neither. The text and the buttons use the page number it is given.
   */
  function PageHeader(confession: ConfessionId, page: int, hasPrev: bool, hasNext: bool): (h: Header)
    ensures h.text == "\U{1F4AC} Comments for Confession #" + Strings.NatToString(confession)
                      + " • Page " + Strings.IntToString(page)
    ensures 1 <= |h.rows| <= 2 && h.rows[0] == [AddCommentButton(confession)]
    ensures |h.rows| == 2 <==> hasPrev || hasNext
    ensures |h.rows| == 2 ==> 1 <= |h.rows[1]| <= 2
    ensures |h.rows| == 2 ==> (PrevButton(confession, page) in h.rows[1] <==> hasPrev)
    ensures |h.rows| == 2 ==> (NextButton(confession, page) in h.rows[1] <==> hasNext)
    ensures |h.rows| == 2 && hasPrev ==> h.rows[1][0] == PrevButton(confession, page)
  {
    var nav := (if hasPrev then [PrevButton(confession, page)] else [])
               + (if hasNext then [NextButton(confession, page)] else []);
    var rows := [[AddCommentButton(confession)]] + (if nav != [] then [nav] else []);
    assert PrevButton(confession, page).text != NextButton(confession, page).text;
    Header("\U{1F4AC} Comments for Confession #" + Strings.NatToString(confession)
           + " • Page " + Strings.IntToString(page), rows)
  }

  // ---------------------------------------------------------------- callback parsing

  /** `int(call.data.split('_')[2])` in `handle_view_comments`; None where indexing or `int` raises. */
  function ViewCommentsTarget(data: string): Option<int> {
    var parts := Strings.Split(data, '_');
    if |parts| < 3 then None else Strings.PyInt(parts[2])
  }

  /** `int(parts[2])`, `int(parts[3])` in `handle_comments_pagination`; None where either raises. */
  function PaginationTarget(data: string): Option<(int, int)> {
    var parts := Strings.Split(data, '_');
    if |parts| < 4 then None
    else
      match (Strings.PyInt(parts[2]), Strings.PyInt(parts[3]))
      case (Some(c), Some(p)) => Some((c, p))
      case _ => None
  }

  /** The "View / Add Comments" button of a published confession leads back to that confession. */
  lemma ViewCommentsRoundTrip(id: ConfessionId)
    ensures ViewCommentsTarget(ConfessionService.ViewCommentsCallback(id)) == Some(id as int)
  {
    var n := Strings.NatToString(id);
    NumeralHasNoUnderscore(id);
    assert ConfessionService.ViewCommentsCallback(id) == "view" + "_" + "comments" + "_" + n;
    SplitThreeFields("view", "comments", n);
    Strings.NatToStringRoundTrip(id);
  }

  /** A page button leads to the confession and page written into it, for every page number, negative ones too. */
  lemma PageCallbackRoundTrip(confession: ConfessionId, page: int)
    ensures PaginationTarget(PageCallback(confession, page)) == Some((confession as int, page))
  {
    var n := Strings.NatToString(confession);
    var p := Strings.IntToString(page);
    NumeralHasNoUnderscore(confession);
    SignedNumeralHasNoUnderscore(page);
    assert PageCallback(confession, page) == "comments" + "_" + "page" + "_" + n + "_" + p;
    SplitFourFields("comments", "page", n, p);
    Strings.NatToStringRoundTrip(confession);
    Strings.IntToStringRoundTrip(page);
  }

  /** Two fields joined by `_`, neither holding one, split back into those two. */
  lemma SplitTwoFields(c: string, d: string)
    requires '_' !in c && '_' !in d
    ensures Strings.Split(c + "_" + d, '_') == [c, d]
  {
    Strings.SplitAtSeparator(c, '_', d);
    Strings.SplitNoSeparator(d, '_');
  }

  /** The same for three fields. */
  lemma SplitThreeFields(b: string, c: string, d: string)
    requires '_' !in b && '_' !in c && '_' !in d
    ensures Strings.Split(b + "_" + c + "_" + d, '_') == [b, c, d]
  {
    assert b + "_" + c + "_" + d == b + "_" + (c + "_" + d);
    Strings.SplitAtSeparator(b, '_', c + "_" + d);
    SplitTwoFields(c, d);
  }

  /** The same for four fields. */
  lemma SplitFourFields(a: string, b: string, c: string, d: string)
    requires '_' !in a && '_' !in b && '_' !in c && '_' !in d
    ensures Strings.Split(a + "_" + b + "_" + c + "_" + d, '_') == [a, b, c, d]
  {
    assert a + "_" + b + "_" + c + "_" + d == a + "_" + (b + "_" + c + "_" + d);
    Strings.SplitAtSeparator(a, '_', b + "_" + c + "_" + d);
    SplitThreeFields(b, c, d);
  }

  // ---------------------------------------------------------------- show_comments_for_confession

  /** The page `get_comments` returns with the view's page size. */
  function PageOf(comments: map<CommentId, Comment>, confession: ConfessionId, bound: nat, page: int)
    : (p: Paging.Page<CommentId>)
    requires forall c :: c in comments ==> c < bound
    ensures forall i :: 0 <= i < |p.items| ==> p.items[i] in comments
  {
    CommentService.TopLevelPage(comments, confession, bound, page, PageSize);
    Paging.GetPage(CommentService.TopLevelComments(comments, confession, bound), page, PageSize)
  }

  /**
   * A Prev button on a page number two or more past the last page leads to a page number
   * that is still past it, so it shows the same last page again.
   */
  lemma PrevBeyondLastStays(comments: map<CommentId, Comment>, confession: ConfessionId, bound: nat, page: int)
    requires forall c :: c in comments ==> c < bound
    requires page > PageOf(comments, confession, bound, page).numPages + 1
    ensures PaginationTarget(PrevButton(confession, page).callback) == Some((confession as int, page - 1))
    ensures PageOf(comments, confession, bound, page - 1) == PageOf(comments, confession, bound, page)
    ensures PageOf(comments, confession, bound, page).hasPrevious <==> PageOf(comments, confession, bound, page).numPages > 1
  {
    PageCallbackRoundTrip(confession, page - 1);
  }

  /** One message the comment view sends. */
  datatype Message = Notice(text: string) | HeaderMessage(header: Header) | CommentMessage(card: CommentCard)

  const NotFoundNotice: string := "❌ Confession not found."
  const NoCommentsNotice: string := "No comments yet. Be the first to comment!"
  const NoMoreCommentsNotice: string := "No more comments."

  /** Every id names a stored comment. */
  predicate Listed(comments: map<CommentId, Comment>, ids: seq<CommentId>) {
    forall i :: 0 <= i < |ids| ==> ids[i] in comments
  }

  /** Every listed comment's author is a stored user. */
  predicate AuthorsStored(users: map<UserId, User>, comments: map<CommentId, Comment>, ids: seq<CommentId>)
    requires Listed(comments, ids)
  {
    forall i :: 0 <= i < |ids| ==> comments[ids[i]].user in users
  }

  /** One message per comment for the first `n` comments, in page order: the card of each. */
  function CommentMessages(confessions: map<ConfessionId, Confession>, comments: map<CommentId, Comment>,
                           reactions: map<ReactionKey, ReactionKind>, ids: seq<CommentId>, n: nat): (ms: seq<Message>)
    requires Listed(comments, ids) && n <= |ids|
  {
    seq(n, i requires 0 <= i < n => CommentMessage(CardFor(confessions, comments, reactions, ids[i])))
  }

  /** One more comment, one more message. */
  lemma CommentMessagesStep(confessions: map<ConfessionId, Confession>, comments: map<CommentId, Comment>,
                            reactions: map<ReactionKey, ReactionKind>, ids: seq<CommentId>, n: nat)
    requires Listed(comments, ids) && n < |ids|
    ensures CommentMessages(confessions, comments, reactions, ids, n + 1)
         == CommentMessages(confessions, comments, reactions, ids, n)
            + [CommentMessage(CardFor(confessions, comments, reactions, ids[n]))]
  {
  }

  /** The header of the requested page, then its comments, or `empty` when it has none. */
  function PageMessages(confessions: map<ConfessionId, Confession>, comments: map<CommentId, Comment>,
                        reactions: map<ReactionKey, ReactionKind>, bound: nat,
                        confession: ConfessionId, page: int, empty: string): (ms: seq<Message>)
    requires forall c :: c in comments ==> c < bound
  {
    var p := PageOf(comments, confession, bound, page);
    [HeaderMessage(PageHeader(confession, page, p.hasPrevious, p.hasNext))]
    + (if p.items == [] then [Notice(empty)]
       else CommentMessages(confessions, comments, reactions, p.items, |p.items|))
  }

  /** The given users, with `impact_points` brought up to date. */
  function Refreshed(users: map<UserId, User>, confessions: map<ConfessionId, Confession>,
                     comments: map<CommentId, Comment>, reactions: map<ReactionKey, ReactionKind>,
                     authors: set<UserId>): (r: map<UserId, User>)
    ensures r.Keys == users.Keys
  {
    map u | u in users :: if u in authors then
                            users[u].(impactPoints := UserService.ImpactPoints(confessions, comments, reactions, u))
                          else users[u]
  }

  /** Bringing one more author up to date. */
  lemma RefreshOneMore(users: map<UserId, User>, confessions: map<ConfessionId, Confession>,
                       comments: map<CommentId, Comment>, reactions: map<ReactionKey, ReactionKind>,
                       authors: set<UserId>, u: UserId)
    requires u in users
    ensures var r := Refreshed(users, confessions, comments, reactions, authors);
      r[u := r[u].(impactPoints := UserService.ImpactPoints(confessions, comments, reactions, u))]
      == Refreshed(users, confessions, comments, reactions, authors + {u})
  {
  }

  /** The authors of the first `n` comments. */
  function Authors(comments: map<CommentId, Comment>, ids: seq<CommentId>, n: nat): set<UserId>
    requires Listed(comments, ids) && n <= |ids|
  {
    set i | 0 <= i < n :: comments[ids[i]].user
  }

  /** The users after the cards of one page were sent: each author on the page brought up to date. */
  function PageRefreshed(users: map<UserId, User>, confessions: map<ConfessionId, Confession>,
                         comments: map<CommentId, Comment>, reactions: map<ReactionKey, ReactionKind>,
                         bound: nat, confession: ConfessionId, page: int): (r: map<UserId, User>)
    requires forall c :: c in comments ==> c < bound
    ensures r.Keys == users.Keys
  {
    var p := PageOf(comments, confession, bound, page);
    Refreshed(users, confessions, comments, reactions, Authors(comments, p.items, |p.items|))
  }

  lemma AuthorsStep(comments: map<CommentId, Comment>, ids: seq<CommentId>, n: nat)
    requires Listed(comments, ids) && 0 < n <= |ids|
    ensures Authors(comments, ids, n) == Authors(comments, ids, n - 1) + {comments[ids[n - 1]].user}
  {
  }

  /** The users after `calculate_impact_points` ran for the author of each of the first `n` comments, in order. */
  function RefreshEach(users: map<UserId, User>, confessions: map<ConfessionId, Confession>,
                       comments: map<CommentId, Comment>, reactions: map<ReactionKey, ReactionKind>,
                       ids: seq<CommentId>, n: nat): (r: map<UserId, User>)
    requires Listed(comments, ids) && AuthorsStored(users, comments, ids) && n <= |ids|
    ensures r.Keys == users.Keys
  {
    if n == 0 then users
    else
      var r := RefreshEach(users, confessions, comments, reactions, ids, n - 1);
      var u := comments[ids[n - 1]].user;
      r[u := r[u].(impactPoints := UserService.ImpactPoints(confessions, comments, reactions, u))]
  }

  /**
   * Recomputing authors one comment at a time leaves every author of one of the comments
   * with up-to-date impact points and every other user as they were, whatever the order
   * and the repetitions.
   */
  lemma {:induction false} RefreshEachIsRefreshed(users: map<UserId, User>, confessions: map<ConfessionId, Confession>,
                                                  comments: map<CommentId, Comment>,
                                                  reactions: map<ReactionKey, ReactionKind>, ids: seq<CommentId>, n: nat)
    requires Listed(comments, ids) && AuthorsStored(users, comments, ids) && n <= |ids|
    ensures RefreshEach(users, confessions, comments, reactions, ids, n)
         == Refreshed(users, confessions, comments, reactions, Authors(comments, ids, n))
  {
    if n == 0 {
      assert Authors(comments, ids, n) == {};
    } else {
      var u := comments[ids[n - 1]].user;
      var before := Authors(comments, ids, n - 1);
      var r := RefreshEach(users, confessions, comments, reactions, ids, n - 1);
      RefreshEachIsRefreshed(users, confessions, comments, reactions, ids, n - 1);
      RefreshOneMore(users, confessions, comments, reactions, before, u);
      AuthorsStep(comments, ids, n);
    }
  }

  /** `send_comment_message` for the `i`-th comment, after the ones before it were sent. */
  method SendComment(db: Database, ids: seq<CommentId>, i: nat, ghost users: map<UserId, User>) returns (m: Message)
    requires db.Valid() && i < |ids|
    requires Listed(db.comments, ids) && AuthorsStored(users, db.comments, ids)
    requires db.users == RefreshEach(users, db.confessions, db.comments, db.reactions, ids, i)
    modifies db
    ensures db.Valid()
    ensures old(db.Reconciled()) ==> db.Reconciled()
    ensures db.confessions == old(db.confessions) && db.comments == old(db.comments)
    ensures db.reactions == old(db.reactions) && db.nextUserId == old(db.nextUserId)
    ensures db.nextConfessionId == old(db.nextConfessionId) && db.nextCommentId == old(db.nextCommentId)
    ensures m == CommentMessage(CardFor(db.confessions, db.comments, db.reactions, ids[i]))
    ensures db.users == RefreshEach(users, db.confessions, db.comments, db.reactions, ids, i + 1)
  {
    var card := BuildCommentCard(db, ids[i]);
    m := CommentMessage(card);
  }

  /** `for comment in comments: send_comment_message(...)`: one card per comment, in order. */
  method SendComments(db: Database, ids: seq<CommentId>) returns (sent: seq<Message>)
    requires db.Valid() && Listed(db.comments, ids)
    modifies db
    ensures db.Valid()
    ensures old(db.Reconciled()) ==> db.Reconciled()
    ensures db.confessions == old(db.confessions) && db.comments == old(db.comments)
    ensures db.reactions == old(db.reactions) && db.nextUserId == old(db.nextUserId)
    ensures db.nextConfessionId == old(db.nextConfessionId) && db.nextCommentId == old(db.nextCommentId)
    ensures sent == CommentMessages(db.confessions, db.comments, db.reactions, ids, |ids|)
    ensures db.users == Refreshed(old(db.users), db.confessions, db.comments, db.reactions,
                                  Authors(db.comments, ids, |ids|))
  {
    assert AuthorsStored(db.users, db.comments, ids);
    ghost var users, confessions, comments, reactions := db.users, db.confessions, db.comments, db.reactions;
    sent := [];
    for i := 0 to |ids|
      invariant db.Valid()
      invariant old(db.Reconciled()) ==> db.Reconciled()
      invariant db.confessions == confessions && db.comments == comments && db.reactions == reactions
      invariant db.nextUserId == old(db.nextUserId)
      invariant db.nextConfessionId == old(db.nextConfessionId) && db.nextCommentId == old(db.nextCommentId)
      invariant sent == CommentMessages(confessions, comments, reactions, ids, i)
      invariant db.users == RefreshEach(users, confessions, comments, reactions, ids, i)
    {
      var m := SendComment(db, ids, i, users);
      CommentMessagesStep(confessions, comments, reactions, ids, i);
      sent := sent + [m];
    }
    RefreshEachIsRefreshed(users, confessions, comments, reactions, ids, |ids|);
  }

  /** Send the page header, then each comment on the page or the `empty` notice. */
  method ShowPage(db: Database, confession: ConfessionId, page: int, empty: string) returns (sent: seq<Message>)
    requires db.Valid()
    modifies db
    ensures db.Valid()
    ensures old(db.Reconciled()) ==> db.Reconciled()
    ensures db.confessions == old(db.confessions) && db.comments == old(db.comments)
    ensures db.reactions == old(db.reactions) && db.nextUserId == old(db.nextUserId)
    ensures db.nextConfessionId == old(db.nextConfessionId) && db.nextCommentId == old(db.nextCommentId)
    ensures sent == PageMessages(db.confessions, db.comments, db.reactions, db.nextCommentId, confession, page, empty)
    ensures db.users == PageRefreshed(old(db.users), db.confessions, db.comments, db.reactions,
                                      db.nextCommentId, confession, page)
  {
    var p := PageOf(db.comments, confession, db.nextCommentId, page);
    var header := HeaderMessage(PageHeader(confession, page, p.hasPrevious, p.hasNext));
    if p.items == [] {
      assert Authors(db.comments, p.items, 0) == {};
      return [header, Notice(empty)];
    }
    var cards := SendComments(db, p.items);
    sent := [header] + cards;
  }

  /** `show_comments_for_confession`: not found, or the requested page of its comments. */
  method ShowCommentsForConfession(db: Database, confession: int, page: int) returns (sent: seq<Message>)
    requires db.Valid()
    modifies db
    ensures db.Valid()
    ensures old(db.Reconciled()) ==> db.Reconciled()
    ensures confession < 0 || confession !in old(db.confessions) ==> sent == [Notice(NotFoundNotice)] && unchanged(db)
    ensures confession >= 0 && confession in old(db.confessions) ==>
              && sent == PageMessages(db.confessions, db.comments, db.reactions, db.nextCommentId,
                                      confession, page, NoCommentsNotice)
              && db.users == PageRefreshed(old(db.users), db.confessions, db.comments, db.reactions,
                                           db.nextCommentId, confession, page)
    ensures db.confessions == old(db.confessions) && db.comments == old(db.comments)
    ensures db.reactions == old(db.reactions) && db.nextUserId == old(db.nextUserId)
    ensures db.nextConfessionId == old(db.nextConfessionId) && db.nextCommentId == old(db.nextCommentId)
  {
    if confession < 0 || confession !in db.confessions {
      return [Notice(NotFoundNotice)];
    }
    sent := ShowPage(db, confession, page, NoCommentsNotice);
  }

  const ErrorAnswer: string := "❌ An error occurred."

  /**
   * `handle_view_comments`: show page 1 of the confession named in the callback data.
   * The answer reports success whenever the data parses, even for an unknown confession.
   */
  method HandleViewComments(db: Database, data: string) returns (sent: seq<Message>, answer: string)
    requires db.Valid()
    modifies db
    ensures db.Valid()
    ensures old(db.Reconciled()) ==> db.Reconciled()
    ensures ViewCommentsTarget(data).None? ==> sent == [] && answer == ErrorAnswer && unchanged(db)
    ensures ViewCommentsTarget(data).Some? ==> answer == "✅ Comments loaded"
    ensures ViewCommentsTarget(data).Some? && ViewCommentsTarget(data).value in old(db.confessions) ==>
              && sent == PageMessages(db.confessions, db.comments, db.reactions, db.nextCommentId,
                                      ViewCommentsTarget(data).value, 1, NoCommentsNotice)
              && db.users == PageRefreshed(old(db.users), db.confessions, db.comments, db.reactions,
                                           db.nextCommentId, ViewCommentsTarget(data).value, 1)
    ensures ViewCommentsTarget(data).Some? && ViewCommentsTarget(data).value !in old(db.confessions) ==>
              sent == [Notice(NotFoundNotice)] && unchanged(db)
    ensures db.confessions == old(db.confessions) && db.comments == old(db.comments)
    ensures db.reactions == old(db.reactions) && db.nextUserId == old(db.nextUserId)
    ensures db.nextConfessionId == old(db.nextConfessionId) && db.nextCommentId == old(db.nextCommentId)
  {
    var target := ViewCommentsTarget(data);
    if target.None? {
      return [], ErrorAnswer;
    }
    sent := ShowCommentsForConfession(db, target.value, 1);
    answer := "✅ Comments loaded";
  }

  /** `handle_comments_pagination`: show the requested page of the confession named in the callback data. */
  method HandleCommentsPagination(db: Database, data: string) returns (sent: seq<Message>, answer: string)
    requires db.Valid()
    modifies db
    ensures db.Valid()
    ensures old(db.Reconciled()) ==> db.Reconciled()
    ensures PaginationTarget(data).None? ==> sent == [] && answer == ErrorAnswer && unchanged(db)
    ensures PaginationTarget(data).Some? && PaginationTarget(data).value.0 !in old(db.confessions) ==>
              sent == [] && answer == NotFoundNotice && unchanged(db)
    ensures PaginationTarget(data).Some? && PaginationTarget(data).value.0 in old(db.confessions) ==>
              var (confession, page) := PaginationTarget(data).value;
              && sent == PageMessages(db.confessions, db.comments, db.reactions, db.nextCommentId,
                                      confession, page, NoMoreCommentsNotice)
              && answer == "✅ Loaded page " + Strings.IntToString(page)
              && db.users == PageRefreshed(old(db.users), db.confessions, db.comments, db.reactions,
                                           db.nextCommentId, confession, page)
    ensures db.confessions == old(db.confessions) && db.comments == old(db.comments)
    ensures db.reactions == old(db.reactions) && db.nextUserId == old(db.nextUserId)
    ensures db.nextConfessionId == old(db.nextConfessionId) && db.nextCommentId == old(db.nextCommentId)
  {
    var target := PaginationTarget(data);
    if target.None? {
      return [], ErrorAnswer;
    }
    var (confession, page) := target.value;
    if confession < 0 || confession !in db.confessions {
      return [], NotFoundNotice;
    }
    sent := ShowPage(db, confession, page, NoMoreCommentsNotice);
    answer := "✅ Loaded page " + Strings.IntToString(page);
  }
}
