/**
 * The module-level notification store behind the bell menu: an id counter,
 * a newest-first list, and a flag that lets the login notification appear
 * only once (also kept in browser storage).
 */
module Notifications {
  import opened Wrappers

  /** `Untyped` is a notification added without a `type`, as the market table's refresh notice is. */
  datatype Kind = Login | System | Update | Sponsored | Untyped

  datatype Notification = Notification(
    id: int,
    title: string,
    description: string,
    time: string,
    read: bool,
    kind: Kind)

  const LoginFlagValue := "true"

  /** Every item of `items` with id `id` marked read, all else unchanged. */
  function MarkRead(items: seq<Notification>, id: int): (r: seq<Notification>)
    ensures |r| == |items|
    ensures forall i :: 0 <= i < |r| ==> r[i].id == items[i].id && r[i].kind == items[i].kind && r[i].title == items[i].title
    ensures forall i :: 0 <= i < |r| ==> r[i].read == (items[i].read || items[i].id == id)
    ensures forall i :: 0 <= i < |r| && items[i].id != id ==> r[i] == items[i]
  {
    seq(|items|, i requires 0 <= i < |items| => if items[i].id == id then items[i].(read := true) else items[i])
  }

  /** Every item marked read. */
  function MarkAllRead(items: seq<Notification>): (r: seq<Notification>)
    ensures |r| == |items|
    ensures forall i :: 0 <= i < |r| ==> r[i] == items[i].(read := true)
  {
    seq(|items|, i requires 0 <= i < |items| => items[i].(read := true))
  }

  /** `notifications.filter(n => !n.read).length`. */
  function CountUnread(items: seq<Notification>): (n: nat)
    ensures n <= |items|
    ensures n == 0 <==> forall i :: 0 <= i < |items| ==> items[i].read
  {
    if |items| == 0 then 0
    else
      var rest := CountUnread(items[1..]);
      assert forall i :: 1 <= i < |items| ==> items[i] == items[1..][i - 1];
      (if items[0].read then 0 else 1) + rest
  }

  /** Ids run strictly downwards from the newest item, and all are below the counter. */
  ghost predicate IdsOrdered(items: seq<Notification>, nextId: int)
  {
    && (forall i :: 0 <= i < |items| ==> items[i].id < nextId)
    && (forall i, j :: 0 <= i < j < |items| ==> items[i].id > items[j].id)
  }

  /** Some unread item carries the id `id`. */
  ghost predicate HasUnread(items: seq<Notification>, id: int)
  {
    exists i :: 0 <= i < |items| && items[i].id == id && !items[i].read
  }

  lemma HasUnreadCons(items: seq<Notification>, id: int)
    requires |items| > 0
    ensures HasUnread(items, id) <==> (items[0].id == id && !items[0].read) || HasUnread(items[1..], id)
  {
    var tail := items[1..];
    if HasUnread(items, id) && !(items[0].id == id && !items[0].read) {
      var i :| 0 <= i < |items| && items[i].id == id && !items[i].read;
      assert tail[i - 1] == items[i];
    }
    if HasUnread(tail, id) {
      var i :| 0 <= i < |tail| && tail[i].id == id && !tail[i].read;
      assert items[i + 1] == tail[i];
    }
  }

  lemma IdsOrderedTail(items: seq<Notification>, nextId: int)
    requires |items| > 0 && IdsOrdered(items, nextId)
    ensures IdsOrdered(items[1..], nextId)
    ensures forall i :: 0 <= i < |items[1..]| ==> items[1..][i].id < items[0].id
  {
    var tail := items[1..];
    forall i, j | 0 <= i < j < |tail| ensures tail[i].id > tail[j].id {
      assert tail[i] == items[i + 1] && tail[j] == items[j + 1];
    }
    forall i | 0 <= i < |tail| ensures tail[i].id < nextId && tail[i].id < items[0].id {
      assert tail[i] == items[i + 1];
    }
  }

  /** No item below an id that all ids lie under is unread with that id. */
  lemma NoUnreadAbove(items: seq<Notification>, id: int)
    requires forall i :: 0 <= i < |items| ==> items[i].id < id
    ensures !HasUnread(items, id)
  {
  }

  lemma MarkReadTail(items: seq<Notification>, id: int)
    requires |items| > 0
    ensures MarkRead(items, id)[1..] == MarkRead(items[1..], id)
    ensures MarkRead(items, id)[0].read == (items[0].read || items[0].id == id)
  {
    var r := MarkRead(items, id);
    var t := MarkRead(items[1..], id);
    forall k | 0 <= k < |t| ensures r[1..][k] == t[k] {
      assert items[1..][k] == items[k + 1];
    }
  }

  /** Marking an id read removes at most one unread item when ids are distinct. */
  lemma {:induction false} MarkReadCount(items: seq<Notification>, id: int, nextId: int)
    requires IdsOrdered(items, nextId)
    ensures CountUnread(MarkRead(items, id)) == CountUnread(items) - (if HasUnread(items, id) then 1 else 0)
    decreases |items|
  {
    if |items| > 0 {
      var tail := items[1..];
      IdsOrderedTail(items, nextId);
      MarkReadCount(tail, id, nextId);
      MarkReadTail(items, id);
      HasUnreadCons(items, id);
      if items[0].id == id {
        NoUnreadAbove(tail, id);
      }
    }
  }

  class NotificationStore {
    /** The module counter `notificationId`; the next id to hand out. */
    var nextId: int
    var notifications: seq<Notification>
    var hasShownLogin: bool
    /** The stored value of `hasShownLoginNotification` in browser storage. */
    var storedFlag: Option<string>

    ghost predicate Valid()
      reads this
    {
      nextId >= 1 && IdsOrdered(notifications, nextId)
    }

    /** The store as the module creates it and `init` then sets it up. */
    constructor (stored: Option<string>)
      ensures Valid()
      ensures nextId == 1 && notifications == []
      ensures storedFlag == stored
      ensures hasShownLogin <==> stored == Some(LoginFlagValue)
    {
      nextId := 1;
      notifications := [];
      storedFlag := stored;
      hasShownLogin := stored == Some(LoginFlagValue);
    }

    /** `init`: the flag is set exactly when storage holds the string "true". */
    method Init()
      modifies this
      ensures hasShownLogin <==> storedFlag == Some(LoginFlagValue)
      ensures nextId == old(nextId) && notifications == old(notifications) && storedFlag == old(storedFlag)
    {
      hasShownLogin := storedFlag == Some(LoginFlagValue);
    }

    /**
     * `addNotification`: a second login notification is dropped; anything
     * else is put first with the next id, unread, stamped with `time`.
     */
    method Add(title: string, description: string, kind: Kind, time: string)
      requires Valid()
      modifies this
      ensures Valid()
      ensures kind == Login && old(hasShownLogin) ==>
        nextId == old(nextId) && notifications == old(notifications) && hasShownLogin && storedFlag == old(storedFlag)
      ensures !(kind == Login && old(hasShownLogin)) ==>
        && notifications == [Notification(old(nextId), title, description, time, false, kind)] + old(notifications)
        && nextId == old(nextId) + 1
        && (forall i :: 0 <= i < |old(notifications)| ==> old(notifications)[i].id < notifications[0].id)
        && hasShownLogin == (old(hasShownLogin) || kind == Login)
        && storedFlag == (if kind == Login then Some(LoginFlagValue) else old(storedFlag))
    {
      if kind == Login && hasShownLogin {
        return;
      }
      var n := Notification(nextId, title, description, time, false, kind);
      nextId := nextId + 1;
      if kind == Login {
        hasShownLogin := true;
        storedFlag := Some(LoginFlagValue);
      }
      notifications := [n] + notifications;
    }

    method MarkAsRead(id: int)
      requires Valid()
      modifies this
      ensures Valid()
      ensures notifications == MarkRead(old(notifications), id)
      ensures nextId == old(nextId) && hasShownLogin == old(hasShownLogin) && storedFlag == old(storedFlag)
    {
      notifications := MarkRead(notifications, id);
    }

    method MarkAllAsRead()
      requires Valid()
      modifies this
      ensures Valid()
      ensures notifications == MarkAllRead(old(notifications))
      ensures UnreadCount() == 0
      ensures nextId == old(nextId) && hasShownLogin == old(hasShownLogin) && storedFlag == old(storedFlag)
    {
      notifications := MarkAllRead(notifications);
    }

    /** `clearNotifications` empties the list; the login flag and the counter stay. */
    method Clear()
      requires Valid()
      modifies this
      ensures Valid()
      ensures notifications == []
      ensures nextId == old(nextId) && hasShownLogin == old(hasShownLogin) && storedFlag == old(storedFlag)
    {
      notifications := [];
    }

    /** The badge count of the bell menu. */
    function UnreadCount(): (n: nat)
      reads this
      ensures n <= |notifications|
      ensures n == 0 <==> forall i :: 0 <= i < |notifications| ==> notifications[i].read
    {
      CountUnread(notifications)
    }
  }
}
