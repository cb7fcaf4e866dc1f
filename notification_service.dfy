/**
 * Notifications (bot/services/notification_service.py): the note every admin gets about
 * a new pending confession, and the note an author gets once it is reviewed.
 *
 * A send is an abstract outcome: the new message's id, or None where `send_message`
 * raised. The HTML layout and the `strftime` rendering of the submission time are not
 * modelled; the notice keeps the pieces the layout is filled with.
 */
module NotificationService {
  import opened Wrappers
  import opened Models
  import Strings
  import ConfessionService

  /** How much of a confession an admin's notice quotes before cutting it. */
  const PreviewLength: nat := 200

  /** The quoted text: all of it when short, else its first 200 characters and "...". */
  function Preview(text: string): (p: string)
    ensures |text| <= PreviewLength ==> p == text
    ensures |text| > PreviewLength ==> |p| == PreviewLength + 3 && p[..PreviewLength] == text[..PreviewLength]
    ensures |text| > PreviewLength ==> p[PreviewLength..] == "..."
  {
    if |text| > PreviewLength then text[..PreviewLength] + "..." else text
  }

  /**
   * The preview is the text itself exactly when the text is short, or is already 200
   * characters followed by "...".
   */
  lemma PreviewUnchanged(text: string)
    ensures Preview(text) == text <==> |text| <= PreviewLength || (|text| == PreviewLength + 3 && text[PreviewLength..] == "...")
  {
    if |text| == PreviewLength + 3 && text[PreviewLength..] == "..." {
      assert text == text[..PreviewLength] + text[PreviewLength..];
    }
  }

  /** Callback data of a review button: `{action}_{id}`. */
  function ReviewCallback(action: string, id: ConfessionId): string {
    action + "_" + Strings.NatToString(id)
  }

  /** What an admin is told about a new pending confession. */
  datatype AdminNotice = AdminNotice(confession: ConfessionId, author: string, preview: string,
                                     buttons: seq<(string, string)>)

  /** The notice: who wrote it (the label a channel post would carry), the preview, and Approve / Reject. */
  function NewConfessionNotice(id: ConfessionId, c: Confession, author: User): (n: AdminNotice)
    ensures c.isAnonymous ==> n.author == "Anonymous"
    ensures !c.isAnonymous && author.username == "" ==> n.author == author.firstName
    ensures !c.isAnonymous && author.username != "" ==> n.author == author.firstName + " (@" + author.username + ")"
    ensures |c.text| <= PreviewLength ==> n.preview == c.text
    ensures |n.buttons| == 2
    ensures n.buttons[0].1 == ReviewCallback("approve", id) && n.buttons[1].1 == ReviewCallback("reject", id)
  {
    AdminNotice(id, ConfessionService.AuthorLabel(c.isAnonymous, author), Preview(c.text),
                [("✅ Approve", ReviewCallback("approve", id)), ("❌ Reject", ReviewCallback("reject", id))])
  }

  /** The review buttons carry the confession id in the second `_`-separated field. */
  lemma ReviewCallbackRoundTrip(action: string, id: ConfessionId)
    requires '_' !in action
    ensures var parts := Strings.Split(ReviewCallback(action, id), '_');
      |parts| == 2 && parts[0] == action && Strings.PyInt(parts[1]) == Some(id as int)
  {
    var n := Strings.NatToString(id);
    assert forall i :: 0 <= i < |n| ==> n[i] != '_';
    Strings.SplitAtSeparator(action, '_', n);
    Strings.SplitNoSeparator(n, '_');
    Strings.NatToStringRoundTrip(id);
  }

  // ---------------------------------------------------------------- fan-out

  /** The ids of the messages that went out among the first `n` sends, in send order. */
  function Delivered(send: nat -> Option<int>, n: nat): (ids: seq<int>)
    ensures |ids| <= n
  {
    if n == 0 then []
    else Delivered(send, n - 1) + (if send(n - 1).Some? then [send(n - 1).value] else [])
  }

  /** How many of the first `n` sends failed. */
  function Failures(send: nat -> Option<int>, n: nat): nat {
    if n == 0 then 0 else Failures(send, n - 1) + (if send(n - 1).None? then 1 else 0)
  }

  /** Each send either delivers a message or fails; none is lost and none counted twice. */
  lemma {:induction false} DeliveredOrFailed(send: nat -> Option<int>, n: nat)
    ensures |Delivered(send, n)| + Failures(send, n) == n
  {
    if n > 0 {
      DeliveredOrFailed(send, n - 1);
    }
  }

  /** When every send succeeds, the result lists every message, in admin order. */
  lemma {:induction false} AllDelivered(send: nat -> Option<int>, n: nat)
    requires forall k :: 0 <= k < n ==> send(k).Some?
    ensures |Delivered(send, n)| == n
    ensures forall k :: 0 <= k < n ==> Delivered(send, n)[k] == send(k).value
  {
    if n > 0 {
      AllDelivered(send, n - 1);
    }
  }

  /** Every id in the result came from one of the sends. */
  lemma {:induction false} DeliveredFromSends(send: nat -> Option<int>, n: nat)
    ensures forall j :: 0 <= j < |Delivered(send, n)| ==> exists k :: 0 <= k < n && send(k) == Some(Delivered(send, n)[j])
  {
    if n > 0 {
      DeliveredFromSends(send, n - 1);
      var front := Delivered(send, n - 1);
      var whole := Delivered(send, n);
      forall j | 0 <= j < |whole|
        ensures exists k :: 0 <= k < n && send(k) == Some(whole[j])
      {
        if j < |front| {
          var k :| 0 <= k < n - 1 && send(k) == Some(front[j]);
          assert whole[j] == front[j];
          assert 0 <= k < n && send(k) == Some(whole[j]);
        } else {
          assert whole == front + [send(n - 1).value];
          assert 0 <= n - 1 < n && send(n - 1) == Some(whole[j]);
        }
      }
      assert forall j :: 0 <= j < |whole| ==> exists k :: 0 <= k < n && send(k) == Some(whole[j]);
    } else {
      assert Delivered(send, n) == [];
    }
  }

  /**
   * `notify_admins_new_confession`: the notice goes to every admin in order, a failed send
   * is skipped, and the ids of the messages that went out are returned. `send(k)` is what
   * the send to `admins[k]` does; `tried` lists each send made.
   */
  method NotifyAdminsNewConfession(admins: seq<int>, id: ConfessionId, c: Confession, author: User,
                                   send: nat -> Option<int>)
    returns (sent: seq<int>, tried: seq<(int, AdminNotice)>)
    ensures |tried| == |admins|
    ensures forall k :: 0 <= k < |admins| ==> tried[k] == (admins[k], NewConfessionNotice(id, c, author))
    ensures sent == Delivered(send, |admins|)
    ensures |sent| <= |admins|
    ensures admins == [] ==> sent == [] && tried == []
  {
    if admins == [] {
      return [], [];
    }
    var notice := NewConfessionNotice(id, c, author);
    sent, tried := [], [];
    for k := 0 to |admins|
      invariant sent == Delivered(send, k)
      invariant |tried| == k && forall j :: 0 <= j < k ==> tried[j] == (admins[j], notice)
    {
      tried := tried + [(admins[k], notice)];
      var outcome := send(k);
      if outcome.Some? {
        sent := sent + [outcome.value];
      }
    }
  }

  // ---------------------------------------------------------------- notify_user_confession_status

  const ApprovedHead := "\n✅ <b>Confession Approved</b>\n\nYour confession (ID: "
  const ApprovedTail := ") has been approved and published to the channel!\n\nYou can view it and see comments from the community.\n"
  const RejectedHead := "\n❌ <b>Confession Rejected</b>\n\nYour confession (ID: "
  const RejectedTail := ") was not approved for publication.\n\nIf you have questions, please contact an administrator.\n"

  /** The note for a reviewed confession; None for a status other than approved or rejected. */
  function StatusMessage(id: ConfessionId, status: string): (m: Option<string>)
    ensures m.Some? <==> status == "approved" || status == "rejected"
  {
    var n := Strings.NatToString(id);
    if status == "approved" then Some(ApprovedHead + n + ApprovedTail)
    else if status == "rejected" then Some(RejectedHead + n + RejectedTail)
    else None
  }

  /**
   * A note exists for exactly the two review outcomes among the stored status names,
   * and the two notes differ.
   */
  lemma StatusMessageForReviews(id: ConfessionId, status: string)
    ensures StatusMessage(id, status).Some? <==> ParseStatus(status).Some? && ParseStatus(status).value != Pending
    ensures StatusMessage(id, "approved") != StatusMessage(id, "rejected")
  {
    var n := Strings.NatToString(id);
    var a := ApprovedHead + n + ApprovedTail;
    var r := RejectedHead + n + RejectedTail;
    assert |a| != |r|;
  }

  /** What `notify_user_confession_status` did: the send it made, if any, and the new message's id. */
  datatype StatusNotification = StatusNotification(tried: Option<(int, string)>, messageId: Option<int>)

  /**
   * `notify_user_confession_status`: for an approval or a rejection, the note goes to the
   * author's Telegram id and the new message's id is returned, or None when the send fails
   * (`send` is what that send does); any other status sends nothing and returns None.
   */
  function NotifyUserConfessionStatus(id: ConfessionId, author: User, status: string, send: Option<int>)
    : (r: StatusNotification)
    ensures r.tried.Some? <==> status == "approved" || status == "rejected"
    ensures r.tried.Some? ==> r.tried.value == (author.telegramId, StatusMessage(id, status).value)
    ensures r.messageId.Some? <==> r.tried.Some? && send.Some?
    ensures r.messageId.Some? ==> r.messageId == send
  {
    var note := StatusMessage(id, status);
    if note.None? then StatusNotification(None, None)
    else StatusNotification(Some((author.telegramId, note.value)), send)
  }
}
