/** The notifications page (src/pages/Notifications.tsx): marking one or all notifications
    as read, the card colours, and what a click shows. */
module Notifications {
  import opened Js
  import opened Seqs
  import opened Payloads

  /** A notification; `kind` is its `type`. */
  datatype Notification = Notification(id: Id, title: string, message: string, kind: string,
                                       date: string, read: bool)

  /** `n.id === id ? { ...n, read: true } : n` over the list. */
  function MarkAsRead(ns: seq<Notification>, id: Id): (r: seq<Notification>)
    ensures |r| == |ns|
    ensures forall i :: 0 <= i < |ns| && ns[i].id == id ==> r[i] == ns[i].(read := true)
    ensures forall i :: 0 <= i < |ns| && ns[i].id != id ==> r[i] == ns[i]
  {
    seq(|ns|, i requires 0 <= i < |ns| => if ns[i].id == id then ns[i].(read := true) else ns[i])
  }

  /** `{ ...n, read: true }` for every notification. */
  function MarkAllAsRead(ns: seq<Notification>): (r: seq<Notification>)
    ensures |r| == |ns|
    ensures forall i :: 0 <= i < |ns| ==> r[i] == ns[i].(read := true)
  {
    seq(|ns|, i requires 0 <= i < |ns| => ns[i].(read := true))
  }

  /** The number of unread notifications, as the navigation badge counts them. */
  function UnreadCount(ns: seq<Notification>): nat {
    if |ns| == 0 then 0 else UnreadCount(ns[..|ns| - 1]) + (if ns[|ns| - 1].read then 0 else 1)
  }

  /** The unread notifications with a given id. */
  function UnreadWithId(ns: seq<Notification>, id: Id): nat {
    if |ns| == 0 then 0
    else UnreadWithId(ns[..|ns| - 1], id) + (if !ns[|ns| - 1].read && ns[|ns| - 1].id == id then 1 else 0)
  }

  // ---------------------------------------------------------------- lemmas

  /** Marking as read twice is marking once, for one id and for all. */
  lemma MarkIdempotent(ns: seq<Notification>, id: Id)
    ensures MarkAsRead(MarkAsRead(ns, id), id) == MarkAsRead(ns, id)
    ensures MarkAllAsRead(MarkAllAsRead(ns)) == MarkAllAsRead(ns)
  {
  }

  /** Marking one id and then all is marking all; marking two ids commutes. */
  lemma MarkAsReadThenAll(ns: seq<Notification>, id: Id, other: Id)
    ensures MarkAllAsRead(MarkAsRead(ns, id)) == MarkAllAsRead(ns)
    ensures MarkAsRead(MarkAsRead(ns, id), other) == MarkAsRead(MarkAsRead(ns, other), id)
  {
  }

  /** Marking an id no notification carries changes nothing. */
  lemma MarkUnknownId(ns: seq<Notification>, id: Id)
    requires forall i :: 0 <= i < |ns| ==> ns[i].id != id
    ensures MarkAsRead(ns, id) == ns
  {
  }

  /** Marking an id lowers the unread count by exactly the unread notifications with that
      id, and marking all leaves none. */
  lemma {:induction false} UnreadAfterMark(ns: seq<Notification>, id: Id)
    ensures UnreadWithId(ns, id) <= UnreadCount(ns)
    ensures UnreadCount(MarkAsRead(ns, id)) == UnreadCount(ns) - UnreadWithId(ns, id)
    ensures UnreadCount(MarkAllAsRead(ns)) == 0
  {
    if |ns| > 0 {
      var init := ns[..|ns| - 1];
      UnreadAfterMark(init, id);
      assert MarkAsRead(ns, id)[..|ns| - 1] == MarkAsRead(init, id);
      assert MarkAllAsRead(ns)[..|ns| - 1] == MarkAllAsRead(init);
    }
  }

  // ---------------------------------------------------------------- getColor

  const Opacity60: string := "opacity-60"
  const Opacity100: string := "opacity-100"
  const SuccessClasses: string := "bg-green-100 text-green-800 dark:bg-green-700 dark:text-white "
  const ErrorClasses: string := "bg-red-100 text-red-800 dark:bg-red-700 dark:text-white "
  const InfoClasses: string := "bg-blue-100 text-blue-800 dark:bg-blue-700 dark:text-white "

  /** `getColor`: the type's colours, then the opacity for read or unread. */
  function GetColor(kind: string, read: bool): (r: string)
    ensures read ==> EndsWith(r, Opacity60)
    ensures !read ==> EndsWith(r, Opacity100)
    ensures kind == "success" ==> StartsWith(r, SuccessClasses)
    ensures kind == "error" ==> StartsWith(r, ErrorClasses)
    ensures kind != "success" && kind != "error" ==> StartsWith(r, InfoClasses)
  {
    var base := if read then Opacity60 else Opacity100;
    var colours := if kind == "success" then SuccessClasses
                   else if kind == "error" then ErrorClasses
                   else InfoClasses;
    assert (colours + base)[..|colours|] == colours;
    assert (colours + base)[|colours + base| - |base|..] == base;
    colours + base
  }

  /** Every type other than "success" and "error", known or not, looks like "info". */
  lemma OtherKindsLookLikeInfo(kind: string, read: bool)
    requires kind != "success" && kind != "error"
    ensures GetColor(kind, read) == GetColor("info", read)
  {
  }

  /** Read and unread cards of one type differ only in their opacity. */
  lemma ReadOnlyChangesOpacity(kind: string)
    ensures var a, b := GetColor(kind, true), GetColor(kind, false);
            a[..|a| - |Opacity60|] == b[..|b| - |Opacity100|]
  {
  }

  // ---------------------------------------------------------------- handleClick

  /** `n => n.id === id` */
  function HasId(id: Id): Notification -> bool {
    (n: Notification) => n.id == id
  }

  /** The alert a click shows: the title, a blank line and the message. */
  function ClickAlert(n: Notification): string {
    "\U{1F4EC} " + n.title + "\n\n" + n.message
  }

  /** `handleClick`: the list marked for the id, and the alert text of the first
      notification with that id in the list as it was, if there is one. */
  function HandleClick(ns: seq<Notification>, id: Id): (r: (seq<Notification>, Option<string>))
    ensures r.0 == MarkAsRead(ns, id)
    ensures r.1.Some? <==> exists i :: 0 <= i < |ns| && ns[i].id == id
    ensures r.1.Some? ==> exists i :: && 0 <= i < |ns| && ns[i].id == id
                                      && (forall j :: 0 <= j < i ==> ns[j].id != id)
                                      && r.1.value == ClickAlert(ns[i])
  {
    FindIsFirst(ns, HasId(id));
    var clicked := Find(ns, HasId(id));
    (MarkAsRead(ns, id),
     if clicked.Some? then Some(ClickAlert(clicked.value)) else None)
  }
}
