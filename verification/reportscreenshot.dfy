/**
 * POST api/report_screenshot.php: the caller reports taking a screenshot of
 * the chat with another user. The alert stores the chat as the ordered pair
 * of the two ids, and the other user is notified.
 */
module ReportScreenshot {
  import opened Php
  import opened Http
  import opened Schema
  import Db
  import Notify

  /** The other user of the chat: present, and not the caller. */
  function Parse(input: Value, caller: int): (r: Checked<int>)
    ensures r.Reject? ==> r.code == 400
    ensures (Empty(input) || !Isset(input, "chat_with_user_id")) ==> r == Reject(400, "Chat user ID required")
    ensures r.Pass? <==> !Empty(input) && Isset(input, "chat_with_user_id")
                         && ToInt(Get(input, "chat_with_user_id")) != caller
    ensures r.Pass? ==> r.value == ToInt(Get(input, "chat_with_user_id"))
  {
    if Empty(input) || !Isset(input, "chat_with_user_id") then Reject(400, "Chat user ID required")
    else if ToInt(Get(input, "chat_with_user_id")) == caller then Reject(400, "Invalid chat user ID")
    else Pass(ToInt(Get(input, "chat_with_user_id")))
  }

  /** The alert row: the chat as (min, max) of the two ids, and who took the screenshot. */
  function Alert(reporter: int, other: int): (a: ScreenshotAlert)
    ensures a.chatUser1 <= a.chatUser2
    ensures {a.chatUser1, a.chatUser2} == {reporter, other}
    ensures a.screenshotBy == reporter
  {
    if reporter <= other then ScreenshotAlert(reporter, other, reporter) else ScreenshotAlert(other, reporter, reporter)
  }

  /** Both users of a chat store the same pair; only `screenshot_by` tells the reports apart. */
  lemma SamePairEitherWay(a: int, b: int)
    ensures Alert(a, b).(screenshotBy := 0) == Alert(b, a).(screenshotBy := 0)
  {
  }

  function AlertData(reporter: int, other: int): Value {
    VMap(map["screenshot_by_user_id" := VInt(reporter), "chat_user_id" := VInt(other)])
  }

  /** The answer: the screenshot was recorded, and whom it was reported to. */
  datatype Reported = Reported(screenshotDetected: bool, notifiedUser: string)

  /** The endpoint: one alert row and one notification to the other user. */
  method Report(db: Db.Database, caller: int, input: Value, now: int) returns (resp: Response<Reported>)
    requires db.Valid()
    modifies db`alerts, db`notifications, db`nextNotificationId, db`outbox
    ensures db.Valid()
    ensures Parse(input, caller).Reject? ==>
              && resp == Failure(400, Parse(input, caller).error)
              && db.alerts == old(db.alerts) && db.Sent() == old(db.Sent())
    ensures Parse(input, caller).Pass? && !UserExists(db.users, Parse(input, caller).value) ==>
              && resp == Failure(404, "User not found")
              && db.alerts == old(db.alerts) && db.Sent() == old(db.Sent())
    ensures Parse(input, caller).Pass? && UserExists(db.users, Parse(input, caller).value) ==>
              var other := Parse(input, caller).value;
              && db.alerts == old(db.alerts) + [Alert(caller, other)]
              && db.Sent() == Notify.AfterSend(old(db.Sent()), db.tokens, other, "screenshot_alert",
                                               "📸 Screenshot Alert",
                                               UsernameOf(db.users, caller) + " took a screenshot of your chat",
                                               AlertData(caller, other), now)
              && resp == Success(Reported(true, UsernameOf(db.users, other)), "Screenshot alert sent successfully")
  {
    var parsed := Parse(input, caller);
    if parsed.Reject? {
      return Failure(400, parsed.error);
    }
    var other := parsed.value;
    if !UserExists(db.users, other) {
      return Failure(404, "User not found");
    }
    db.AddAlert(Alert(caller, other));
    Notify.Send(db, other, "screenshot_alert", "📸 Screenshot Alert",
                UsernameOf(db.users, caller) + " took a screenshot of your chat", AlertData(caller, other), now);
    resp := Success(Reported(true, UsernameOf(db.users, other)), "Screenshot alert sent successfully");
  }
}
