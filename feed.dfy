/** The notification feed of the navigation bar: a list of notifications,
    each read or unread, the "mark read" and "mark all read" updates, the
    unread badge and the bell dot. */
module Feed {

  datatype Kind = Travel | Social

  datatype Notification = Notification(
    id: int,
    kind: Kind,
    title: string,
    message: string,
    time: string,
    unread: bool)

  /** The feed the page starts with. */
  const InitialNotifications: seq<Notification> := [
    Notification(1, Travel, "New Trip Match!",
      "A traveller is going from New Delhi to London on your requested date.", "2 mins ago", true),
    Notification(2, Social, "LinkedIn Verified",
      "Your social profile has been successfully linked and verified.", "1 hour ago", true)
  ]

  /** Clicking a notification: clear the flag of every item with that id. */
  function MarkRead(ns: seq<Notification>, id: int): (r: seq<Notification>)
    ensures |r| == |ns|
    ensures forall i :: 0 <= i < |ns| ==>
              r[i].unread == (ns[i].unread && ns[i].id != id) && r[i].(unread := ns[i].unread) == ns[i]
  {
    seq(|ns|, i requires 0 <= i < |ns| => if ns[i].id == id then ns[i].(unread := false) else ns[i])
  }

  /** "Mark all read": every flag cleared, nothing else touched. */
  function MarkAllRead(ns: seq<Notification>): (r: seq<Notification>)
    ensures |r| == |ns|
    ensures forall i :: 0 <= i < |ns| ==> !r[i].unread && r[i].(unread := ns[i].unread) == ns[i]
  {
    seq(|ns|, i requires 0 <= i < |ns| => ns[i].(unread := false))
  }

  /** `notifications.filter(n => n.unread).length`. */
  function UnreadCount(ns: seq<Notification>): (n: nat)
    ensures n <= |ns|
  {
    if ns == [] then 0 else (if ns[0].unread then 1 else 0) + UnreadCount(ns[1..])
  }

  /** `notifications.some(n => n.unread)`: whether the bell shows its dot. */
  predicate HasUnread(ns: seq<Notification>) {
    exists i :: 0 <= i < |ns| && ns[i].unread
  }

  // ---------------------------------------------------------------------
  // Properties

  /** The bell dot shows exactly when the unread badge is positive. */
  lemma {:induction false} BellIffUnread(ns: seq<Notification>)
    ensures HasUnread(ns) <==> UnreadCount(ns) > 0
  {
    if ns != [] {
      BellIffUnread(ns[1..]);
      if HasUnread(ns[1..]) {
        var i :| 0 <= i < |ns[1..]| && ns[1..][i].unread;
        assert ns[i + 1].unread;
      }
      if HasUnread(ns) && !ns[0].unread {
        var i :| 0 <= i < |ns| && ns[i].unread;
        assert ns[1..][i - 1].unread;
      }
    }
  }

  /** Marking an id that no notification carries changes nothing. */
  lemma MarkReadUnknownId(ns: seq<Notification>, id: int)
    requires forall i :: 0 <= i < |ns| ==> ns[i].id != id
    ensures MarkRead(ns, id) == ns
  {
  }

  /** Marking twice is marking once. */
  lemma MarkReadIdempotent(ns: seq<Notification>, id: int)
    ensures MarkRead(MarkRead(ns, id), id) == MarkRead(ns, id)
  {
  }

  /** Clicks on different notifications can be applied in either order. */
  lemma MarkReadCommutes(ns: seq<Notification>, a: int, b: int)
    ensures MarkRead(MarkRead(ns, a), b) == MarkRead(MarkRead(ns, b), a)
  {
  }

  lemma MarkReadTail(ns: seq<Notification>, id: int)
    requires ns != []
    ensures MarkRead(ns, id)[1..] == MarkRead(ns[1..], id)
  {
  }

  /** Marking never raises the badge, and lowers it exactly when an unread
      notification carries the id. */
  lemma {:induction false} MarkReadCount(ns: seq<Notification>, id: int)
    ensures UnreadCount(MarkRead(ns, id)) <= UnreadCount(ns)
    ensures UnreadCount(MarkRead(ns, id)) < UnreadCount(ns)
            <==> exists i :: 0 <= i < |ns| && ns[i].id == id && ns[i].unread
  {
    if ns != [] {
      MarkReadTail(ns, id);
      MarkReadCount(ns[1..], id);
      var r := MarkRead(ns, id);
      assert UnreadCount(r) == (if r[0].unread then 1 else 0) + UnreadCount(MarkRead(ns[1..], id));
      if exists i :: 0 <= i < |ns[1..]| && ns[1..][i].id == id && ns[1..][i].unread {
        var i :| 0 <= i < |ns[1..]| && ns[1..][i].id == id && ns[1..][i].unread;
        assert ns[i + 1].id == id && ns[i + 1].unread;
      }
      if exists i :: 0 <= i < |ns| && ns[i].id == id && ns[i].unread {
        var i :| 0 <= i < |ns| && ns[i].id == id && ns[i].unread;
        if i > 0 {
          assert ns[1..][i - 1].id == id && ns[1..][i - 1].unread;
        }
      }
    }
  }

  /** After "mark all read" the badge is zero and the bell dot is off. */
  lemma {:induction false} MarkAllReadClears(ns: seq<Notification>)
    ensures UnreadCount(MarkAllRead(ns)) == 0
    ensures !HasUnread(MarkAllRead(ns))
  {
    if ns != [] {
      assert MarkAllRead(ns)[1..] == MarkAllRead(ns[1..]);
      MarkAllReadClears(ns[1..]);
    }
  }

  /** Clicking the notifications with the ids `ids`, one after another. */
  function MarkEach(ns: seq<Notification>, ids: seq<int>): seq<Notification>
    decreases |ids|
  {
    if ids == [] then ns else MarkEach(MarkRead(ns, ids[0]), ids[1..])
  }

  function Ids(ns: seq<Notification>): (r: seq<int>)
    ensures |r| == |ns| && forall i :: 0 <= i < |ns| ==> r[i] == ns[i].id
  {
    seq(|ns|, i requires 0 <= i < |ns| => ns[i].id)
  }

  lemma {:induction false} MarkEachKeepsIds(ns: seq<Notification>, ids: seq<int>)
    ensures |MarkEach(ns, ids)| == |ns|
    ensures forall i :: 0 <= i < |ns| ==>
              MarkEach(ns, ids)[i].(unread := ns[i].unread) == ns[i]
    ensures forall i :: 0 <= i < |ns| ==>
              MarkEach(ns, ids)[i].unread == (ns[i].unread && ns[i].id !in ids)
    decreases |ids|
  {
    if ids != [] {
      var m := MarkRead(ns, ids[0]);
      MarkEachKeepsIds(m, ids[1..]);
      forall i | 0 <= i < |ns|
        ensures MarkEach(ns, ids)[i].unread == (ns[i].unread && ns[i].id !in ids)
      {
        assert ids == [ids[0]] + ids[1..];
        assert ns[i].id in ids <==> ns[i].id == ids[0] || ns[i].id in ids[1..];
      }
    }
  }

  /** Clicking every notification of the feed once clears it like "mark all read". */
  lemma MarkEachIsMarkAll(ns: seq<Notification>)
    ensures MarkEach(ns, Ids(ns)) == MarkAllRead(ns)
  {
    MarkEachKeepsIds(ns, Ids(ns));
    var a, b := MarkEach(ns, Ids(ns)), MarkAllRead(ns);
    forall i | 0 <= i < |ns| ensures a[i] == b[i] {
      assert ns[i].id in Ids(ns) by {
        assert Ids(ns)[i] == ns[i].id;
      }
    }
  }

  /** A feed of two unread and one read notification: "mark all read" leaves
      no unread item and keeps the three in their order. */
  lemma MarkAllReadExample(a: Notification, b: Notification, c: Notification)
    requires a.unread && b.unread && !c.unread
    ensures UnreadCount([a, b, c]) == 2
    ensures UnreadCount(MarkAllRead([a, b, c])) == 0
    ensures MarkAllRead([a, b, c]) == [a.(unread := false), b.(unread := false), c]
  {
    assert [a, b, c][1..] == [b, c];
    assert [b, c][1..] == [c];
    assert [c][1..] == [];
    assert UnreadCount([c]) == 0;
    assert UnreadCount([b, c]) == 1;
    MarkAllReadClears([a, b, c]);
  }

  /** The initial feed shows a badge of two and the bell dot. */
  lemma InitialFeed()
    ensures UnreadCount(InitialNotifications) == 2
    ensures HasUnread(InitialNotifications)
  {
    assert InitialNotifications[0].unread;
  }
}
