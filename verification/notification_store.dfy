/**
 * The notification store (`useNotificationStore`). As with the member
 * store, `fetchNotifications` installs the mock array itself, so a
 * notification's `unread` flag flipped by `markAsRead` is flipped in the
 * mock and survives `clearAll` and a refetch. `notifications` is either the
 * mock array or, initially and after `clearAll`, an empty one.
 */
module NotificationStore {
  import opened Base
  import JsArray

  datatype Sender = Sender(id: int, name: string)

  /**
   * `Notification`. `unread` is absent on most entries (`None`); `age` is
   * how many minutes before the current time the entry is dated.
   */
  datatype Notification = Notification(id: int, unread: Option<bool>, sender: Sender, body: string, age: nat)

  datatype State = State(mock: seq<Notification>, shown: bool, loading: bool, error: Option<string>)

  function Notifications(s: State): seq<Notification>
  {
    if s.shown then s.mock else []
  }

  /** Whether an entry is displayed as unread: only `unread: true` is truthy. */
  predicate IsUnread(n: Notification)
  {
    n.unread == Some(true)
  }

  /** `!notification.unread` under JavaScript truthiness: an absent flag becomes `true`. */
  function Toggle(u: Option<bool>): (r: Option<bool>)
    ensures r.Some? && (r == Some(true) <==> u != Some(true))
  {
    Some(!(u == Some(true)))
  }

  function Hours(n: nat): nat { 60 * n }
  function Days(n: nat): nat { 1440 * n }

  const Message := "sent you a message"
  const Subscribed := "subscribed to your email list"
  const Project := "added you to a project"
  const Cart := "abandonned cart"
  const Purchase := "purchased your product"
  const Refund := "requested a refund"

  const MockNotifications := [
    Notification(1, Some(true), Sender(2, "Jordan Brown"), Message, 7),
    Notification(2, None, Sender(100, "Lindsay Walton"), Subscribed, Hours(1)),
    Notification(3, Some(true), Sender(3, "Taylor Green"), Message, Hours(3)),
    Notification(4, None, Sender(101, "Courtney Henry"), Project, Hours(3)),
    Notification(5, None, Sender(102, "Tom Cook"), Cart, Hours(7)),
    Notification(6, None, Sender(103, "Casey Thomas"), Purchase, Days(1) + Hours(3)),
    Notification(7, Some(true), Sender(8, "Kelly Wilson"), Message, Days(2)),
    Notification(8, None, Sender(6, "Jamie Johnson"), Refund, Days(5) + Hours(4)),
    Notification(9, Some(true), Sender(11, "Morgan Anderson"), Message, Days(6)),
    Notification(10, None, Sender(104, "Drew Moore"), Subscribed, Days(6)),
    Notification(11, None, Sender(7, "Riley Davis"), Cart, Days(7)),
    Notification(12, None, Sender(10, "Jordan Taylor"), Subscribed, Days(9)),
    Notification(13, None, Sender(8, "Kelly Wilson"), Subscribed, Days(10)),
    Notification(14, None, Sender(6, "Jamie Johnson"), Subscribed, Days(11)),
    Notification(15, None, Sender(11, "Morgan Anderson"), Purchase, Days(12)),
    Notification(16, None, Sender(105, "Drew Moore"), Subscribed, Days(13)),
    Notification(17, None, Sender(7, "Riley Davis"), Subscribed, Days(14)),
    Notification(18, None, Sender(10, "Jordan Taylor"), Subscribed, Days(15)),
    Notification(19, None, Sender(8, "Kelly Wilson"), Subscribed, Days(16)),
    Notification(20, None, Sender(6, "Jamie Johnson"), Purchase, Days(17)),
    Notification(21, None, Sender(11, "Morgan Anderson"), Cart, Days(17)),
    Notification(22, None, Sender(106, "Drew Moore"), Subscribed, Days(18)),
    Notification(23, None, Sender(7, "Riley Davis"), Subscribed, Days(19)),
    Notification(24, None, Sender(107, "Jordan Taylor"), Subscribed, Days(20)),
    Notification(25, None, Sender(8, "Kelly Wilson"), Subscribed, Days(20)),
    Notification(26, None, Sender(6, "Jamie Johnson"), Cart, Days(21)),
    Notification(27, None, Sender(11, "Morgan Anderson"), Subscribed, Days(22))
  ]

  const Initial := State(MockNotifications, false, false, None)

  /** The synchronous part of `fetchNotifications`. */
  function BeginFetch(s: State): (r: State)
    ensures r.loading && r.error.None? && Notifications(r) == Notifications(s)
    ensures r.mock == s.mock && r.shown == s.shown
  {
    s.(loading := true, error := None)
  }

  /** After the simulated delay: the mock array is shown; the catch branch cannot run. */
  function FinishFetch(s: State): (r: State)
    ensures !r.loading && Notifications(r) == s.mock && r.mock == s.mock && r.error == s.error
  {
    s.(shown := true, loading := false)
  }

  function FetchNotifications(s: State): (r: State)
    ensures !r.loading && r.error.None? && Notifications(r) == s.mock
  {
    FinishFetch(BeginFetch(s))
  }

  /** `clearAll`: `notifications` becomes a new empty array; the mock is untouched. */
  function ClearAll(s: State): (r: State)
    ensures Notifications(r) == [] && r.mock == s.mock
    ensures r.loading == s.loading && r.error == s.error
  {
    s.(shown := false)
  }

  /**
   * `markAsRead`: flips `unread` on the first shown notification with that
   * id; an unknown id, or nothing shown, changes nothing.
   */
  function MarkAsRead(s: State, id: int): (r: State)
    ensures |Notifications(r)| == |Notifications(s)| && r.shown == s.shown
    ensures r.loading == s.loading && r.error == s.error
    ensures (forall k :: 0 <= k < |Notifications(s)| ==> Notifications(s)[k].id != id) ==> r == s
    ensures forall k :: 0 <= k < |Notifications(s)| ==>
      var before := Notifications(s)[k];
      var after := Notifications(r)[k];
      && after == before.(unread := after.unread)
      && (after.unread != before.unread ==> before.id == id)
    ensures forall k ::
      (0 <= k < |Notifications(s)| && Notifications(s)[k].id == id
       && (forall j :: 0 <= j < k ==> Notifications(s)[j].id != id))
      ==> (IsUnread(Notifications(r)[k]) <==> !IsUnread(Notifications(s)[k]))
    ensures forall j, k :: 0 <= j < k < |Notifications(s)| && Notifications(s)[j].id == id ==>
      Notifications(r)[k] == Notifications(s)[k]
  {
    var ns := Notifications(s);
    var i := JsArray.FindIndex(ns, (n: Notification) => n.id == id);
    if i == -1 then s
    else s.(mock := s.mock[i := ns[i].(unread := Toggle(ns[i].unread))])
  }

  /** Marking the same notification twice restores how every entry is displayed. */
  lemma MarkTwiceRestoresDisplay(s: State, id: int)
    ensures var r := MarkAsRead(MarkAsRead(s, id), id);
      forall k :: 0 <= k < |Notifications(s)| ==> (IsUnread(Notifications(r)[k]) <==> IsUnread(Notifications(s)[k]))
  {
    var ns := Notifications(s);
    var i := JsArray.FindIndex(ns, (n: Notification) => n.id == id);
    if i != -1 {
      var ns1 := Notifications(MarkAsRead(s, id));
      assert JsArray.FindIndex(ns1, (n: Notification) => n.id == id) == i by {
        assert ns1[i].id == id;
        assert forall k :: 0 <= k < i ==> ns1[k].id == ns[k].id;
        var j := JsArray.FindIndex(ns1, (n: Notification) => n.id == id);
        assert j <= i;
        assert j != -1;
      }
    }
  }

  /** `markAsRead` on an entry shown as read marks it unread: it is a toggle. */
  lemma MarkAsReadOnReadEntryMarksUnread(s: State)
    requires s.shown && s.mock == MockNotifications
    ensures !IsUnread(Notifications(s)[1]) && IsUnread(Notifications(MarkAsRead(s, 2))[1])
  {
    assert JsArray.FindIndex(MockNotifications, (n: Notification) => n.id == 2) == 1;
  }

  /** A flag flipped before `clearAll` is still flipped after the next fetch. */
  lemma RefetchKeepsMarks(s: State, id: int)
    requires s.shown
    ensures Notifications(FetchNotifications(ClearAll(MarkAsRead(s, id)))) == Notifications(MarkAsRead(s, id))
  {
  }

  /** The mock data: ids 1 to 27 in order, dated newest first. */
  lemma MockShape()
    ensures |MockNotifications| == 27
    ensures forall k :: 0 <= k < 27 ==> MockNotifications[k].id == k + 1
    ensures forall k :: 0 <= k < 26 ==> MockNotifications[k].age <= MockNotifications[k + 1].age
  {
  }

  /** Of the 27 mock entries, exactly ids 1, 3, 7 and 9 are unread. */
  lemma MockUnread()
    ensures forall k :: 0 <= k < |MockNotifications| ==>
      (IsUnread(MockNotifications[k]) <==> MockNotifications[k].id in {1, 3, 7, 9})
  {
  }
}
