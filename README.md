# A verified model of the confession bot's domain layer

This project models the core of a Telegram confession bot written in Python and Django.
It covers:

- users, confessions, comments and reactions;
- the moderation lifecycle (create, approve, reject, delete, the pending queue);
- the comment and reaction engine, with its denormalised like, dislike and report counters;
- user statistics (impact points, acceptance score);
- the MAU analytics helpers;
- the database retry decorator;
- the comment view's emoji, keyboard, page header and callback parsing;
- admin and author notifications;
- the `ADMINS` and `get_env` settings logic.

The database is a `Store.Database` class whose fields are maps from primary keys to
records. Operations that write rows are methods that modify it, and its `Valid()`
invariant is the schema's referential integrity. `Reconciled()` says that every comment's
three counters equal its stored reactions of each kind, and every method that writes
the store preserves it. Queries, formatting and parsing are functions. Telegram, the
clock and failures of the cache or the database are parameters: a send is an abstract
outcome (a message id, or none), and timestamps are integers (seconds).

One module per source file: `Models`, `Store`, `CommentService`, `ConfessionService`,
`UserService`, `AnalyticsService`, `Retry`, `CommentHandlers`, `NotificationService` and
`Settings`. They rest on shared helpers:

- `Wrappers`: `Option` and `Result`.
- `Strings`: Python's `str(int)`, `int(str)`, `strip`, `split` and `join`.
- `Sorting`: a sort by key that breaks ties by id.
- `Paging`: Django's `Paginator.get_page`.

Where the written description of the system and the code disagree, the model follows the code:

- `add_reaction` keeps one reaction row per (user, comment), report included, although
  the unique constraint would allow one row per kind.
- Approving or rejecting does not check the current status, so approving twice counts twice.
- Publishing to the channel happens inside the approval transaction. A failed publication
  leaves nothing stored.
- In `get_monthly_active_users_count`, the fallback to a stale cached value after a failed
  query can never run, because any cached value has already been returned.

## Model

| member | source | states |
|---|---|---|
| Models.ParseStatusName | bot/models.py:22-31 | a status string is accepted exactly when it is one of "pending", "approved", "rejected" |
| Models.ParseKindName | bot/models.py:65-73 | a reaction string is accepted exactly when it is one of "like", "dislike", "report" |
| Models.NewUser | bot/models.py:6-13 | a new User row has anonymity on, all counters 0 and is_admin off, with the given Telegram id and names |
| Models.Descendants | bot/models.py:49 | the comments a deletion removes include the given ones, stay within the table and are closed under replies (parent CASCADE) |
| Models.DescendantsLeast | bot/models.py:49 | the reply cascade removes no more than it must: it lies inside every reply-closed set holding the start set |
| Models.DeleteComments | bot/models.py:71 | deleting comments removes exactly those rows and every reaction on them, leaving all other rows as they were |
| Models.ClearReviewer | bot/models.py:33 | deleting a reviewing admin nulls reviewed_by on the confessions they reviewed and changes nothing else |
| Store.Database.constructor | bot/models.py:6-78 | an empty database is valid and its counters are reconciled |
| Store.SetReactionKeepsTablesOk | bot/models.py:71-72 | retyping or adding a reaction whose user and comment exist keeps referential integrity |
| Store.AddCommentKeepsTablesOk | bot/models.py:47-49 | adding a comment whose confession, author and parent exist keeps referential integrity |
| Store.UpdateUserKeepsUsersOk | bot/models.py:6-7 | changing a user row without touching telegram_id or username keeps both unique |
| CommentService.CreateComment | bot/services/comment_service.py:9-40 | text over 1000 characters is refused with nothing changed; otherwise exactly one comment with zero counters is added and the author's total_comments rises by exactly 1 |
| CommentService.InsertComment | bot/services/comment_service.py:28-38 | the new row has the given confession, user, parent and text and zero counters; only the author's row changes, by one more comment |
| CommentService.NewCommentKeepsCounters | bot/services/comment_service.py:29-36 | a new comment with zero counters keeps every comment's counters equal to its reaction rows |
| CommentService.AddReaction | bot/services/comment_service.py:78-136 | an unknown kind is refused and changes nothing; otherwise (user, comment) holds exactly the new kind and the counters move from the old kind to the new one |
| CommentService.SetReaction | bot/services/comment_service.py:98-134 | the reaction map gets (user, comment) := kind; only that comment's counters change, as Retallied says; counters stay reconciled |
| CommentService.Retallied | bot/services/comment_service.py:106-132 | moving a reaction changes only the comment's three counters |
| CommentService.RetalliedInSteps | bot/services/comment_service.py:106-132 | the floored decrement of the old kind followed by the increment of the new kind is the three-counter move |
| CommentService.RetallyKeepsCounters | bot/services/comment_service.py:100-134 | if every counter equals its number of stored reactions before add_reaction, this still holds afterwards |
| CommentService.ExistingReactionCounted | bot/services/comment_service.py:107-112 | while counters match, an existing reaction is counted, so the max(0, n-1) floor never acts |
| CommentService.SameReactionAgainKeepsCounters | bot/services/comment_service.py:106-132 | re-sending the kind a user already holds leaves all three counters unchanged |
| CommentService.SoleReactionCounts | bot/services/comment_service.py:100-132 | when one user is the only reactor on a comment, the counters show just that reaction |
| CommentService.CountAfterUpdate | bot/services/comment_service.py:114-124 | setting one reaction row changes only its comment's counts, by the kinds it leaves and takes |
| CommentService.CountWithoutReactions | bot/services/comment_service.py:29-36 | a comment nobody has reacted to has all three counts at zero |
| CommentService.LastReactionWins | bot/services/comment_service.py:100-124 | after any series of add_reaction calls a (user, comment) pair holds the kind of its last call, report included |
| CommentService.ApplyReactionsUntouched | bot/services/comment_service.py:100-124 | calls on other pairs never change a pair's reaction |
| CommentService.TopLevelIds | bot/services/comment_service.py:61-63 | the ids listed are exactly the top-level comments of the confession in the range, ascending |
| CommentService.TopLevelComments | bot/services/comment_service.py:61-64 | the list holds exactly the confession's comments with no parent, each once, newest created_at first |
| CommentService.NewestFirstOrder | bot/services/comment_service.py:64 | a list sorted by the newest-first key has non-increasing created_at |
| CommentService.GetComments | bot/services/comment_service.py:43-75 | the page is Paginator.get_page over the top-level comments; every item is a top-level comment of the confession, newest first |
| CommentService.TopLevelPage | bot/services/comment_service.py:61-67 | every comment on a page of top-level comments is top-level and the page is newest first |
| CommentService.CommentPagesCoverAll | bot/services/comment_service.py:66-75 | reading pages 1..total_pages in order gives all top-level comments, each once |
| CommentService.GetCommentReactions | bot/services/comment_service.py:139-156 | returns the three stored counters; while reconciled they are the true reaction counts |
| Paging.NumPages | bot/services/comment_service.py:66 | at least one page, and exactly enough pages for the items |
| Paging.GetPage | bot/services/comment_service.py:66-75 | an out-of-range page number goes to the last page; has_previous iff page > 1; has_next iff page < total_pages; at most page_size items, none only for an empty list |
| Paging.PageItemsSize | bot/services/comment_service.py:67 | a page holds at most page_size items, and none only when the list is empty |
| Paging.PageItemsInList | bot/services/comment_service.py:67 | everything on a page comes from the list |
| Paging.PageOfSorted | bot/services/comment_service.py:64-67 | a page of a sorted list is sorted |
| Paging.PagesCoverList | bot/services/comment_service.py:66-75 | pages 1..total_pages concatenated give back the whole list |
| Sorting.SortBy | bot/services/comment_service.py:64 | the result is sorted by the key and is a permutation of the input |
| Sorting.SortedIsDistinct | bot/services/confession_service.py:125 | a list sorted with id tie-breaks has no duplicates |
| ConfessionService.TooLongMessage | bot/services/confession_service.py:26 | the ValueError message mentions 4096 |
| ConfessionService.TooLongMessageLength | bot/services/confession_service.py:26 | the message ends with the text's length and a closing parenthesis |
| ConfessionService.ErrorMessage | bot/services/confession_service.py:25-26 | the too-long refusal's message names 4096 and a length int() reads back as the text's length; an unset channel gives "CHANNEL_ID not configured in settings" |
| ConfessionService.AnonymityFor | bot/services/confession_service.py:28-30 | the explicit argument if given, else the author's mode at call time |
| ConfessionService.NewConfession | bot/services/confession_service.py:32-37 | a new confession is pending, unpublished and unreviewed, with the given user, text and anonymity |
| ConfessionService.CreateConfession | bot/services/confession_service.py:10-39 | text over 4096 characters is refused with nothing changed; otherwise exactly one pending confession is added with the anonymity snapshot |
| ConfessionService.ApproveConfession | bot/services/confession_service.py:42-70 | with no failed publication: status approved, reviewer and time set, author's total_confessions +1 and the channel id stored; a failed publication stores nothing |
| ConfessionService.ApproveTwice | bot/services/confession_service.py:54-62 | approving twice with no status guard adds 2 to the author's total_confessions |
| ConfessionService.RejectConfession | bot/services/confession_service.py:73-89 | status rejected with reviewer and time; no counter and no other table changes |
| ConfessionService.Reviewed | bot/services/confession_service.py:55-57 | a review sets status, reviewer and time and keeps every other field |
| ConfessionService.PublishToChannel | bot/services/confession_service.py:128-173 | a message id iff CHANNEL_ID is set and the send succeeds; otherwise the reason |
| ConfessionService.AuthorLabel | bot/services/confession_service.py:147-149 | "Anonymous", or first_name plus " (@username)" when a username is set |
| ConfessionService.ViewCommentsCallback | bot/services/confession_service.py:163 | the button data is "view_comments_" followed by the id's numeral |
| ConfessionService.PostFor | bot/services/confession_service.py:151-163 | the channel post carries the View / Add Comments button for this confession |
| ConfessionService.DeleteConfession | bot/services/confession_service.py:92-115 | always deletes and returns true; the confession, its comment threads and their reactions go; a channel delete is attempted iff a message id, a bot and CHANNEL_ID are all present |
| ConfessionService.Cascade | bot/models.py:47-49 | the confession's comments and all replies below them, within the table |
| ConfessionService.CascadeIsLeast | bot/models.py:47-49 | the cascade takes nothing outside the confession's comment threads |
| ConfessionService.DeletionKeepsCounts | bot/models.py:71 | reactions on surviving comments are untouched, so their counters stay reconciled |
| ConfessionService.PendingIds | bot/services/confession_service.py:125 | exactly the pending confessions in the id range, ascending |
| ConfessionService.PendingConfessions | bot/services/confession_service.py:125 | exactly the pending confessions, each once, in oldest-first key order |
| ConfessionService.OldestFirstOrder | bot/services/confession_service.py:125 | ids sorted by the oldest-first key have non-decreasing created_at |
| ConfessionService.GetPendingConfessions | bot/services/confession_service.py:118-125 | exactly the pending confessions, each once, oldest created_at first |
| UserService.OrDefault | bot/services/user_service.py:24-25 | Python's `x or default`: the default for None or "" |
| UserService.DefaultUsername | bot/services/user_service.py:24 | "user_" followed by the Telegram id, which int() reads back |
| UserService.FindUser | bot/services/user_service.py:21-22 | the row holding the Telegram id, or none when no row holds it |
| UserService.FindUserUnique | bot/models.py:7 | since telegram_id is unique, the row found is the only one with that id |
| UserService.FindUserBelowOnly | bot/models.py:7 | when exactly one row holds a Telegram id, the lookup finds that row |
| UserService.RegisteredUser | bot/services/user_service.py:22-31 | a new user gets the username or user_{id}, the first name or "User", anonymity on and zero counters |
| UserService.RegisterUser | bot/services/user_service.py:9-32 | get-or-create by Telegram id: an existing row is returned untouched; otherwise, when the username (given or user_{id}) is already taken, the unique constraint refuses it and nothing changes; otherwise one new row with the defaults |
| UserService.RegisterTwice | bot/services/user_service.py:21-32 | once a first registration succeeds, registering the same Telegram id again returns the same row and adds no row |
| UserService.CreateUser | bot/models.py:6-7 | creating a user with a taken telegram_id, or else a taken username, is refused and changes nothing; otherwise one new row |
| UserService.ToggleAnonymity | bot/services/user_service.py:35-48 | is_anonymous_mode becomes exactly the argument; nothing else changes |
| UserService.ToggleRoundTrip | bot/services/user_service.py:46-47 | off, on, off ends off with every other field as before |
| UserService.CalculateImpactPoints | bot/services/user_service.py:72-98 | returns approved confessions + comment rows + likes received, and stores it in impact_points, changing nothing else |
| UserService.LikesReceived | bot/services/user_service.py:87-90 | the likes received are among all reactions received |
| UserService.ImpactOfNewComment | bot/services/user_service.py:83-92 | a new comment adds exactly one impact point to its author and none to anyone else |
| UserService.ApprovedAfterApproval | bot/services/user_service.py:83 | approving adds one to the author's approved count only when the confession was not approved already, unlike total_confessions |
| UserService.CommentsByAfterAdd | bot/services/user_service.py:84 | a new comment is one more comment row for its author only |
| UserService.AcceptanceScore | bot/services/user_service.py:101-123 | 0 with no reactions; otherwise likes / all reactions * 100; in [0, 100]; 0 iff no likes; 100 iff all reactions are likes |
| UserService.Percentage | bot/services/user_service.py:121 | part / whole * 100 lies in [0, 100], is 0 only for no part and 100 only for all of it |
| UserService.GetUserStats | bot/services/user_service.py:51-69 | total_confessions is the approved count (not the stored counter), total_comments the comment rows; impact points are recomputed and stored |
| AnalyticsService.ActiveUsers | bot/services/analytics_service.py:64-66 | exactly the users with an interaction at or after the cutoff |
| AnalyticsService.ActiveUsersMonotone | bot/services/analytics_service.py:295-304 | a wider window never holds fewer active users, so daily <= weekly |
| AnalyticsService.ActiveUsersAtMostRecords | bot/services/analytics_service.py:64-66 | distinct users are no more than the records in the window |
| AnalyticsService.Analytics.GetMonthlyActiveUsersCount | bot/services/analytics_service.py:32-84 | a cached value is returned as is; otherwise the distinct users of the last 30 days, then cached; a failed query gives 0 |
| AnalyticsService.Analytics.ClearCache | bot/services/analytics_service.py:248-258 | the cache is emptied, and a failing cache is ignored |
| AnalyticsService.Analytics.TrackUserInteraction | bot/services/analytics_service.py:199-245 | no user or empty type: nothing recorded; otherwise at most max_retries+1 attempts with waits 2^k tenths of a second, exactly one record appended on success |
| AnalyticsService.Pow2Doubles | bot/services/analytics_service.py:239-241 | each retry waits twice as long as the one before |
| AnalyticsService.Analytics.CleanupOldInteractions | bot/services/analytics_service.py:338-370 | removes exactly the records older than the cutoff, returns how many, and clears the cache; on error returns 0 and changes nothing |
| AnalyticsService.KeptAndStalePartition | bot/services/analytics_service.py:355-366 | the kept and the deleted records together are the whole log, as a multiset |
| AnalyticsService.KeptAndStaleSizes | bot/services/analytics_service.py:358-366 | the deleted count is the log's size minus what remains |
| AnalyticsService.Kept | bot/services/analytics_service.py:358-360 | every surviving record is at or after the cutoff |
| AnalyticsService.Stale | bot/services/analytics_service.py:358-360 | every deleted record is before the cutoff |
| AnalyticsService.CountKind | bot/services/analytics_service.py:304-312 | the count of one type is positive iff the type occurs |
| AnalyticsService.Breakdown | bot/services/analytics_service.py:304-312 | the breakdown maps exactly the types present to their record counts |
| AnalyticsService.ReportOf | bot/services/analytics_service.py:280-335 | given the monthly count, total = all records, daily and weekly = distinct users in 1 and 7 days, breakdown per type; all zeros and an empty breakdown on error |
| AnalyticsService.FreshReportWindowsNest | bot/services/analytics_service.py:270-274 | with a freshly counted monthly figure, daily <= weekly <= monthly <= total |
| AnalyticsService.Analytics.GetAdminAnalyticsReport | bot/services/analytics_service.py:261-335 | the monthly figure is get_monthly_active_users_count's (cached value, fresh 30-day count, or 0), with its cache write; a failure before it leaves the cache alone; weekly <= monthly when counted fresh |
| AnalyticsService.FormatUserCount | bot/services/analytics_service.py:132-147 | the plain numeral below 1000, a "K" suffix below a million, else "M" |
| AnalyticsService.Merge | bot/services/analytics_service.py:22-29 | missing keys take their DEFAULT_DISPLAY_CONFIG values; given keys win |
| AnalyticsService.FormattedCount | bot/services/analytics_service.py:183-186 | str(count) for format "full", else format_user_count |
| AnalyticsService.FormatDisplay | bot/services/analytics_service.py:150-196 | "" iff hiding low counts and count < threshold; no label gives the count alone; separate_line gives label + "\n" + count; otherwise count + " " + label |
| Retry.DelayStep | bot/utils.py:69 | delay *= backoff_factor steps from one pause to the next |
| Retry.RetryDbOperation | bot/utils.py:44-76 | at most max_retries calls; the first result or non-retried exception decides; after max_retries retried failures the last is re-raised; pause k is initial_delay * backoff_factor^k, none after the last attempt |
| CommentHandlers.AcceptanceEmoji | bot/handlers/comment_handlers.py:39-54 | no reactions gives the neutral face; otherwise < 30 devil, 30..50 neutral, > 50 angel, each as an iff |
| CommentHandlers.EmojiMonotone | bot/handlers/comment_handlers.py:49-54 | a higher score never shows a worse face |
| CommentHandlers.CommenterEmojiExtremes | bot/handlers/comment_handlers.py:78-85 | no reactions: neutral; reactions with no like: devil; all likes: angel |
| CommentHandlers.Snippet | bot/handlers/comment_handlers.py:72 | a prefix of the text, at most 400 characters, the whole text when shorter |
| CommentHandlers.ScaledScore | bot/handlers/comment_handlers.py:81 | the score divided by 10, within [0, 10] for a score in [0, 100] |
| CommentHandlers.CommentKeyboard | bot/handlers/comment_handlers.py:96-128 | like, report and dislike buttons showing their counters, then reply, each with callback {action}_comment_{id} |
| CommentHandlers.CommentCallbackRoundTrip | bot/handlers/comment_handlers.py:108-124 | splitting {action}_comment_{id} on "_" gives back the action, "comment" and the id |
| CommentHandlers.CardFor | bot/handlers/comment_handlers.py:57-93 | a card's snippet is a prefix of at most 400 characters and its score lies in [0, 10] |
| CommentHandlers.BuildCommentCard | bot/handlers/comment_handlers.py:57-93 | returns the card and, through calculate_impact_points, stores the author's impact points, changing nothing else |
| CommentHandlers.PageHeader | bot/handlers/comment_handlers.py:164-202 | Add Comment row always; a nav row iff has_prev or has_next; Prev iff has_prev and Next iff has_next, Prev first; the requested page number in text and callbacks |
| CommentHandlers.ViewCommentsRoundTrip | bot/handlers/comment_handlers.py:265 | field 2 of view_comments_{id} parses back to the id |
| CommentHandlers.PageCallbackRoundTrip | bot/handlers/comment_handlers.py:284-286 | fields 2 and 3 of comments_page_{id}_{page} parse back to the id and the page, negative pages included |
| CommentHandlers.PageOf | bot/handlers/comment_handlers.py:233 | every comment on a page of the view is a stored comment |
| CommentHandlers.PrevBeyondLastStays | bot/handlers/comment_handlers.py:185-191 | Prev on a requested page two or more past the last leads to a page still past it, which shows the same last page |
| CommentHandlers.RefreshEachIsRefreshed | bot/handlers/comment_handlers.py:250-251 | recomputing impact points comment by comment leaves each page author up to date and every other user unchanged |
| CommentHandlers.SendComment | bot/handlers/comment_handlers.py:131-141 | sends the i-th comment's card and refreshes its author |
| CommentHandlers.SendComments | bot/handlers/comment_handlers.py:250-251 | one card per comment in page order; the authors' impact points are refreshed and no other table changes |
| CommentHandlers.ShowPage | bot/handlers/comment_handlers.py:233-251 | the header for the requested page, then the page's cards or the empty notice; each author on the page has impact_points recomputed and nothing else changes |
| CommentHandlers.ShowCommentsForConfession | bot/handlers/comment_handlers.py:211-255 | an unknown confession gives "Confession not found" and changes nothing; otherwise the header and cards, or "No comments yet", with the page's authors' impact_points recomputed and nothing else changed |
| CommentHandlers.HandleViewComments | bot/handlers/comment_handlers.py:258-274 | unparsable data gives the error answer; otherwise page 1 is shown, with its authors' impact_points recomputed, and the answer is "Comments loaded", even for an unknown confession, which changes nothing |
| CommentHandlers.HandleCommentsPagination | bot/handlers/comment_handlers.py:277-326 | unparsable data gives the error answer; an unknown confession answers "Confession not found"; otherwise the requested page, "No more comments" when empty, and "Loaded page {page}", with the page's authors' impact_points recomputed and nothing else changed |
| NotificationService.Preview | bot/services/notification_service.py:28-31 | the whole text up to 200 characters, else its first 200 characters and "..." |
| NotificationService.PreviewUnchanged | bot/services/notification_service.py:29-31 | the preview equals the text exactly when the text is short or is already 200 characters plus "..." |
| NotificationService.NewConfessionNotice | bot/services/notification_service.py:23-49 | the author label is "Anonymous" or first_name plus " (@username)"; short text is quoted whole; Approve and Reject buttons with approve_{id} and reject_{id} |
| NotificationService.ReviewCallbackRoundTrip | bot/services/notification_service.py:47-48 | splitting approve_{id} or reject_{id} on "_" gives back the action and the id |
| NotificationService.Delivered | bot/services/notification_service.py:52-66 | no more delivered ids than sends |
| NotificationService.DeliveredOrFailed | bot/services/notification_service.py:52-66 | every send either delivers or fails: delivered + failed = admins |
| NotificationService.AllDelivered | bot/services/notification_service.py:52-66 | when every send succeeds, the result lists every message id in admin order |
| NotificationService.DeliveredFromSends | bot/services/notification_service.py:61 | every returned id came from one of the sends |
| NotificationService.NotifyAdminsNewConfession | bot/services/notification_service.py:8-66 | no admins: nothing sent and []; otherwise one send per admin in order with the same notice, failures skipped, the delivered ids returned |
| NotificationService.StatusMessage | bot/services/notification_service.py:83-101 | a note exists exactly for "approved" and "rejected" |
| NotificationService.StatusMessageForReviews | bot/services/notification_service.py:83-101 | a note exists exactly for the non-pending stored statuses, and the two notes differ |
| NotificationService.NotifyUserConfessionStatus | bot/services/notification_service.py:69-113 | a send is made exactly for "approved" and "rejected", to the author's Telegram id with that status's note; another status sends nothing and returns None; otherwise the sent message's id, or None when the send fails |
| Settings.GetEnv | core/settings.py:7-12 | the variable's value if set, else the default, and an error naming the variable only when both are missing |
| Settings.Classify | core/settings.py:21 | a piece is dropped iff it is blank; a kept piece is its int() value or the stripped text int() refuses |
| Settings.Collect | core/settings.py:21 | no more ids than pieces |
| Settings.CollectFails | core/settings.py:21 | parsing fails iff some kept piece is not an integer, and reports the first such piece |
| Settings.CollectIds | core/settings.py:21 | integer pieces give their values, in order |
| Settings.BlankAdmins | core/settings.py:21 | an unset ADMINS, or one of only commas and whitespace, gives [] |
| Settings.AdminsFail | core/settings.py:21 | ADMINS fails (ValueError) iff a non-blank piece is not an integer literal; the error is the first such piece |
| Settings.AdminsRoundTrip | core/settings.py:21 | ids written as comma-separated numerals parse back to the same ids in the same order |
| Strings.IntToStringRoundTrip | core/settings.py:21 | int(str(i)) == i for every integer |
| Strings.SplitJoin | core/settings.py:21 | split undoes join when no part holds the separator |
| Strings.Strip | core/settings.py:21 | strip() leaves no whitespace at either end, and is empty iff the input is all whitespace |

## Left out

- Telegram I/O. Every `send_message`, `delete_message`, `edit_message_text` and
  `answer_callback_query` is an abstract outcome or a returned value. The comment view
  assumes its sends succeed: the "error occurred while loading comments" path of
  `show_comments_for_confession` and the delete of the old pagination message are not modelled.
- HTML layout. Texts are kept as the pieces the layout fills in: `%.2f`, the header
  emoji and the timestamp line are not rendered. `format_timestamp`, time zones and
  `strftime` are not modelled.
- CommentHandlers.ScaledScore and UserService.AcceptanceScore: exact reals. They do not
  model `round(score, 2)` or floating point, so the emoji thresholds are compared against
  the unrounded score.
- AnalyticsService.FormatUserCount: states the suffix and the range only. The tenths digit
  is rounded half up, whereas Python rounds the binary float; a count near 999,999 prints
  as "1000.0K".
- Cache expiry (the one-hour timeout), concurrency, row locking and the read-modify-write
  race on comment counters. Each call is one atomic step.
- `update_bot_description_with_count`, `get_bot_description_config` and
  `get_total_registered_users_count`. They are I/O and rate limiting around the same
  cache-then-count pattern.
- Deleting a user. Only its SET_NULL effect on `reviewed_by` (`Models.ClearReviewer`) is
  modelled, not the full user cascade.
- Strings.PyInt: accepts ASCII digits only. Python's `int()` also accepts other Unicode
  decimal digits.
- AnalyticsService.Analytics.TrackUserInteraction: `maxRetries` is a `nat`. A negative
  `max_retries` would make `range(max_retries + 1)` empty, so nothing is recorded and None
  is returned; no caller passes one (the default is 2).
- Retry.RetryDbOperation: pauses are exact reals and are returned, not slept. The
  `connection.is_usable()`/`close()` step is not modelled.
- Paging.GetPage: assumes a positive page size, which every caller passes.
- Analytics configuration values of the wrong type, such as a string threshold, are not
  modelled. Each key is typed.
- `get_admin_analytics_report` fails as a whole. The model has one failure flag for the
  total count and one for the queries after the monthly count, not one per query. The breakdown is a map, so the order of its keys is not modelled.
- The text of the ValueError messages is modelled only for `get_env`, the 4096 check and
  the unset channel. Other refusals are error constructors.
- ConfessionService.PostFor: the post's text and button are not connected to `PublishToChannel`
  or `ApproveConfession`, because a send is modelled by its outcome only.
- Order among equal `created_at` values. `order_by('created_at')` and `order_by('-created_at')`
  leave ties to the database; `Sorting` breaks them by ascending id, so the pending queue and
  the top-level comment list fix one order the database need not use.
- 64-bit ids. `telegram_id` is a BigIntegerField and the primary keys are database integers;
  the model uses unbounded `int`/`nat` and does not model their range.
- The Feedback model, management commands, Django admin, URL routing and the other
  settings are not part of this model.
