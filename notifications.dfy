/** The notification store: one row per message shown to a user, with a
    read flag, and the record kept for every e-mail sent. */
module Notifications {
  import opened Common
  import opened Sorting
  import opened Users

  datatype NotificationType =
    | ReservationCreated | ReservationUpdated | ReservationCancelled | ReservationReminder
    | PaymentCompleted | PaymentReleased | ReviewReceived | AchievementUnlocked | SystemNotice

  datatype NotificationChannel = InApp | EmailChannel | Sms | Push

  /** The value stored in the type column. */
  function TypeName(t: NotificationType): string {
    match t
    case ReservationCreated => "reservation_created"
    case ReservationUpdated => "reservation_updated"
    case ReservationCancelled => "reservation_cancelled"
    case ReservationReminder => "reservation_reminder"
    case PaymentCompleted => "payment_completed"
    case PaymentReleased => "payment_released"
    case ReviewReceived => "review_received"
    case AchievementUnlocked => "achievement_unlocked"
    case SystemNotice => "system"
  }

  /** The value stored in the channel column. */
  function ChannelName(c: NotificationChannel): string {
    match c
    case InApp => "in_app"
    case EmailChannel => "email"
    case Sms => "sms"
    case Push => "push"
  }

  /** The JSON metadata column, as the services fill it: one id under a name. */
  type Metadata = map<string, string>

  /** One row; `createdAt` is in minutes since the epoch. */
  datatype Notification = Notification(
    id: string,
    userId: string,
    ntype: NotificationType,
    title: string,
    message: string,
    channel: NotificationChannel,
    isRead: bool,
    relatedId: Option<string>,
    metadata: Option<Metadata>,
    createdAt: int)

  /** Newest first. */
  function NewestFirst(n: Notification): seq<int> { [-n.createdAt] }

  predicate Unread(n: Notification, userId: string) {
    n.userId == userId && !n.isRead
  }

  /** The ids of the user's unread rows. */
  function UnreadIds(table: map<string, Notification>, userId: string): set<string> {
    set id | id in table && Unread(table[id], userId)
  }

  /** The table after `markAllAsRead(userId)`: the user's unread rows are
      read; every other row is as it was. */
  function MarkAll(table: map<string, Notification>, userId: string): (r: map<string, Notification>)
    ensures r.Keys == table.Keys
  {
    map id | id in table :: if Unread(table[id], userId) then table[id].(isRead := true) else table[id]
  }

  /** After marking all, the user has nothing unread, and every other user
      keeps exactly the unread rows they had. */
  lemma MarkAllClearsOnlyThatUser(table: map<string, Notification>, userId: string, other: string)
    requires other != userId
    ensures UnreadIds(MarkAll(table, userId), userId) == {}
    ensures UnreadIds(MarkAll(table, userId), other) == UnreadIds(table, other)
    ensures forall id :: id in table && table[id].userId != userId ==> MarkAll(table, userId)[id] == table[id]
  {
    var after := MarkAll(table, userId);
    forall id | id in after ensures !Unread(after[id], userId) {
      if !Unread(table[id], userId) {
        assert after[id] == table[id];
      }
    }
  }

  /** Marking all twice is marking all once. */
  lemma MarkAllIdempotent(table: map<string, Notification>, userId: string)
    ensures MarkAll(MarkAll(table, userId), userId) == MarkAll(table, userId)
  {
    var once := MarkAll(table, userId);
    assert forall id :: id in once ==> !Unread(once[id], userId);
  }

  /** The text recorded for an e-mail: its plain-text body, or
      'Email notification' when there is none (or it is empty). */
  function EmailMessage(textContent: Option<string>): (m: string)
    ensures !Blank(textContent) ==> m == textContent.value
    ensures Blank(textContent) ==> m == "Email notification"
  {
    if Blank(textContent) then "Email notification" else textContent.value
  }

  /** What a reservation notice needs to know about a person. */
  datatype Person = Person(id: string, firstName: string, lastName: string)

  /** One e-mail of a notice: recipient, subject, plain text and the row it
      concerns. */
  datatype EmailNotice = EmailNotice(recipient: string, subject: string, text: string,
                                     relatedId: string, metadata: Metadata)

  function FullName(p: Person): string {
    p.firstName + " " + p.lastName
  }

  /** The two e-mails sent when a reservation is made, host first. `when`
      is the start time as the locale formats it. */
  function CreatedNotices(reservationId: string, user: Person, host: Person, when: string): (es: seq<EmailNotice>)
    ensures |es| == 2 && es[0].recipient == host.id && es[1].recipient == user.id
    ensures forall i :: 0 <= i < 2 ==> (es[i].relatedId == reservationId
                                       && es[i].metadata == map["reservationId" := reservationId])
    ensures es[0].subject == "New Reservation Request" && es[1].subject == "Reservation Confirmation"
  {
    [EmailNotice(host.id, "New Reservation Request",
                 "New Reservation Request: " + FullName(user) + " has booked a session with you on " + when + ".",
                 reservationId, map["reservationId" := reservationId]),
     EmailNotice(user.id, "Reservation Confirmation",
                 "Reservation Confirmation: Your session with " + FullName(host) + " has been scheduled for " + when + ".",
                 reservationId, map["reservationId" := reservationId])]
  }

  /** The two reminder e-mails, host first. */
  function ReminderNotices(reservationId: string, user: Person, host: Person, when: string): (es: seq<EmailNotice>)
    ensures |es| == 2 && es[0].recipient == host.id && es[1].recipient == user.id
    ensures forall i :: 0 <= i < 2 ==> (es[i].relatedId == reservationId
                                       && es[i].metadata == map["reservationId" := reservationId]
                                       && es[i].subject == "Upcoming Session Reminder")
  {
    [EmailNotice(host.id, "Upcoming Session Reminder",
                 "Upcoming Session Reminder: You have a session with " + FullName(user) + " on " + when + ".",
                 reservationId, map["reservationId" := reservationId]),
     EmailNotice(user.id, "Upcoming Session Reminder",
                 "Upcoming Session Reminder: You have a session with " + FullName(host) + " on " + when + ".",
                 reservationId, map["reservationId" := reservationId])]
  }

  /** The row recorded for one sent e-mail. */
  function EmailRecord(id: string, n: EmailNotice, now: int): (row: Notification)
    ensures row.userId == n.recipient && row.ntype == SystemNotice && row.channel == EmailChannel
    ensures row.title == n.subject && row.message == EmailMessage(Some(n.text)) && !row.isRead
    ensures row.relatedId == Some(n.relatedId) && row.metadata == Some(n.metadata)
  {
    Notification(id, n.recipient, SystemNotice, n.subject, EmailMessage(Some(n.text)), EmailChannel,
                 false, Some(n.relatedId), Some(n.metadata), now)
  }

  /** The table with the rows stored one after the other. */
  function AddRows(table: map<string, Notification>, rows: seq<Notification>): map<string, Notification> {
    if rows == [] then table
    else AddRows(table, rows[..|rows| - 1])[rows[|rows| - 1].id := rows[|rows| - 1]]
  }

  /** An id the stored rows do not use is neither an old key nor the id of
      any row added. */
  lemma {:induction false} AddRowsFresh(table: map<string, Notification>, rows: seq<Notification>, id: string)
    requires id !in AddRows(table, rows)
    ensures id !in table && forall k :: 0 <= k < |rows| ==> rows[k].id != id
  {
    if rows != [] {
      AddRowsFresh(table, rows[..|rows| - 1], id);
      assert forall k :: 0 <= k < |rows| - 1 ==> rows[..|rows| - 1][k] == rows[k];
    }
  }

  /** The rows recorded so far are, in order, the records of the first
      notices, each under its own id, none of them an old id. */
  predicate RecordedFor(rows: seq<Notification>, notices: seq<EmailNotice>, before: map<string, Notification>, now: int)
    requires |rows| <= |notices|
  {
    (forall k :: 0 <= k < |rows| ==> rows[k] == EmailRecord(rows[k].id, notices[k], now) && rows[k].id !in before)
    && (forall k, l :: 0 <= k < l < |rows| ==> rows[k].id != rows[l].id)
  }

  /** Recording the next notice under an id the table does not use keeps
      the rows recorded so far well formed. */
  lemma RecordedForSnoc(rows: seq<Notification>, notices: seq<EmailNotice>, before: map<string, Notification>, now: int, n: Notification)
    requires |rows| < |notices| && RecordedFor(rows, notices, before, now)
    requires n == EmailRecord(n.id, notices[|rows|], now) && n.id !in AddRows(before, rows)
    ensures RecordedFor(rows + [n], notices, before, now)
  {
    AddRowsFresh(before, rows, n.id);
    var next := rows + [n];
    forall k | 0 <= k < |next|
      ensures next[k] == EmailRecord(next[k].id, notices[k], now) && next[k].id !in before
    {
      if k < |rows| {
        assert next[k] == rows[k];
      }
    }
    forall k, l | 0 <= k < l < |next| ensures next[k].id != next[l].id {
      assert next[k] == rows[k];
      if l < |rows| {
        assert next[l] == rows[l];
      }
    }
  }

  class NotificationsService {
    var notifications: map<string, Notification>
    const users: UsersService

    ghost predicate Valid()
      reads this
    {
      forall id :: id in notifications ==> notifications[id].id == id
    }

    constructor (users: UsersService)
      ensures Valid() && notifications == map[] && this.users == users
    {
      notifications := map[];
      this.users := users;
    }

    /** `findAll`: every row, newest first. */
    method FindAll() returns (r: seq<Notification>)
      ensures forall n :: n in r <==> n in notifications.Values
      ensures Distinct(r) && SortedBy(r, NewestFirst)
    {
      r := SortSet(notifications.Values, NewestFirst);
    }

    /** `findByUser`: the user's rows, newest first. */
    method FindByUser(userId: string) returns (r: seq<Notification>)
      ensures forall n :: n in r <==> n in notifications.Values && n.userId == userId
      ensures Distinct(r) && SortedBy(r, NewestFirst)
    {
      var rows := set n | n in notifications.Values && n.userId == userId;
      r := SortSet(rows, NewestFirst);
    }

    /** `findUnreadByUser`: the user's unread rows, newest first. */
    method FindUnreadByUser(userId: string) returns (r: seq<Notification>)
      ensures forall n :: n in r <==> n in notifications.Values && Unread(n, userId)
      ensures Distinct(r) && SortedBy(r, NewestFirst)
    {
      var rows := set n | n in notifications.Values && Unread(n, userId);
      r := SortSet(rows, NewestFirst);
    }

    /** `markAsRead`: flags the row as read and returns it; an unknown id
        changes nothing and returns nothing, without an error. */
    method MarkAsRead(id: string) returns (r: Option<Notification>)
      requires Valid()
      modifies this
      ensures Valid()
      ensures r.Some? <==> id in old(notifications)
      ensures id in old(notifications) ==>
                notifications == old(notifications)[id := old(notifications)[id].(isRead := true)]
                && r.value == notifications[id]
      ensures id !in old(notifications) ==> notifications == old(notifications)
    {
      if id in notifications {
        notifications := notifications[id := notifications[id].(isRead := true)];
        r := Some(notifications[id]);
      } else {
        r := None;
      }
    }

    /** `markAllAsRead`: one bulk update over the user's unread rows. */
    method MarkAllAsRead(userId: string)
      requires Valid()
      modifies this
      ensures Valid()
      ensures notifications == MarkAll(old(notifications), userId)
    {
      notifications := MarkAll(notifications, userId);
    }

    /** `create`: stores one unread row with exactly the given columns. The
        row's `userId` references a user: the database refuses a row for an
        unknown user, and nothing is stored. */
    method Create(userId: string, ntype: NotificationType, title: string, message: string,
                  channel: NotificationChannel, relatedId: Option<string>, metadata: Option<Metadata>,
                  now: int) returns (r: Result<Notification>)
      requires Valid()
      modifies this
      ensures Valid()
      ensures r.Ok? <==> userId in users.users
      ensures r.Err? ==> r.error == ForeignKeyViolation("userId") && notifications == old(notifications)
      ensures r.Ok? ==> r.value.id !in old(notifications) && notifications == old(notifications)[r.value.id := r.value]
      ensures r.Ok? ==> r.value == Notification(r.value.id, userId, ntype, title, message, channel, false,
                                                relatedId, metadata, now)
    {
      if userId !in users.users {
        return Err(ForeignKeyViolation("userId"));
      }
      FreshIdExists(notifications.Keys);
      var id :| id !in notifications;
      var n := Notification(id, userId, ntype, title, message, channel, false, relatedId, metadata, now);
      notifications := notifications[id := n];
      r := Ok(n);
    }

    /** `sendEmailNotification`: the recipient must be a user; the e-mail
        itself goes to an outside service; one SYSTEM row on the EMAIL
        channel records it. */
    method SendEmailNotification(userId: string, subject: string, textContent: Option<string>,
                                 relatedId: Option<string>, metadata: Option<Metadata>, now: int)
      returns (r: Result<Notification>)
      requires Valid()
      modifies this
      ensures Valid()
      ensures r.Ok? <==> userId in users.users
      ensures r.Err? ==> r.error.NotFound? && notifications == old(notifications)
      ensures r.Ok? ==> r.value.id !in old(notifications) && notifications == old(notifications)[r.value.id := r.value]
      ensures r.Ok? ==> r.value == Notification(r.value.id, userId, SystemNotice, subject, EmailMessage(textContent),
                                                EmailChannel, false, relatedId, metadata, now)
    {
      var user := users.FindById(userId);
      if user.Err? {
        return Err(user.error);
      }
      r := Create(userId, SystemNotice, subject, EmailMessage(textContent), EmailChannel, relatedId, metadata, now);
    }

    /** Sends the e-mails of a notice in order; the first recipient who is
        not a user stops the rest (the rows recorded before it stay).
        Returns the rows recorded. */
    method SendAll(notices: seq<EmailNotice>, now: int) returns (r: Result<seq<Notification>>, ghost recorded: seq<Notification>)
      requires Valid()
      modifies this
      ensures Valid()
      ensures |recorded| <= |notices| && RecordedFor(recorded, notices, old(notifications), now)
      ensures notifications == AddRows(old(notifications), recorded)
      ensures forall k :: 0 <= k < |recorded| ==> notices[k].recipient in users.users
      ensures r.Ok? <==> forall i :: 0 <= i < |notices| ==> notices[i].recipient in users.users
      ensures r.Ok? ==> r.value == recorded && |recorded| == |notices|
      ensures r.Err? ==> r.error.NotFound? && |recorded| < |notices| && notices[|recorded|].recipient !in users.users
    {
      var stored: seq<Notification> := [];
      var i := 0;
      while i < |notices|
        invariant 0 <= i <= |notices| && |stored| == i
        invariant Valid()
        invariant forall k :: 0 <= k < i ==> notices[k].recipient in users.users
        invariant RecordedFor(stored, notices, old(notifications), now)
        invariant notifications == AddRows(old(notifications), stored)
      {
        var n := notices[i];
        var sent := SendEmailNotification(n.recipient, n.subject, Some(n.text), Some(n.relatedId), Some(n.metadata), now);
        if sent.Err? {
          return Err(sent.error), stored;
        }
        RecordedForSnoc(stored, notices, old(notifications), now, sent.value);
        assert (stored + [sent.value])[..i] == stored;
        stored := stored + [sent.value];
        i := i + 1;
      }
      r, recorded := Ok(stored), stored;
    }

    /** `sendReservationCreatedNotifications`: the host's e-mail, then the
        customer's. The first unknown recipient stops the sending; a row
        stored before it stays. */
    method SendReservationCreatedNotifications(reservationId: string, user: Person, host: Person, when: string, now: int)
      returns (r: Result<seq<Notification>>, ghost rows: seq<Notification>)
      requires Valid()
      modifies this
      ensures Valid()
      ensures notifications == AddRows(old(notifications), rows)
      ensures |rows| <= 2 && RecordedFor(rows, CreatedNotices(reservationId, user, host, when), old(notifications), now)
      ensures r.Ok? <==> host.id in users.users && user.id in users.users
      ensures r.Ok? ==> r.value == rows && |rows| == 2
      ensures r.Err? ==> r.error.NotFound?
      ensures r.Err? && host.id !in users.users ==> rows == [] && notifications == old(notifications)
      ensures r.Err? && host.id in users.users ==> |rows| == 1 && user.id !in users.users
    {
      var notices := CreatedNotices(reservationId, user, host, when);
      r, rows := SendAll(notices, now);
    }

    /** `sendReservationReminderNotifications`: the host's reminder, then
        the customer's, stopping at the first unknown recipient. */
    method SendReservationReminderNotifications(reservationId: string, user: Person, host: Person, when: string, now: int)
      returns (r: Result<seq<Notification>>, ghost rows: seq<Notification>)
      requires Valid()
      modifies this
      ensures Valid()
      ensures notifications == AddRows(old(notifications), rows)
      ensures |rows| <= 2 && RecordedFor(rows, ReminderNotices(reservationId, user, host, when), old(notifications), now)
      ensures r.Ok? <==> host.id in users.users && user.id in users.users
      ensures r.Ok? ==> r.value == rows && |rows| == 2
      ensures r.Err? ==> r.error.NotFound?
      ensures r.Err? && host.id !in users.users ==> rows == [] && notifications == old(notifications)
      ensures r.Err? && host.id in users.users ==> |rows| == 1 && user.id !in users.users
    {
      var notices := ReminderNotices(reservationId, user, host, when);
      r, rows := SendAll(notices, now);
    }
  }
}
