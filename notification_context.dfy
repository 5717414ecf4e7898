/**
 * frontend/src/context/NotificationContext.tsx: the client's notification
 * list and its two counters, the unread total and the unread notifications
 * meant for the user ("mine": every type but `sprint_created`).
 *
 * Each handler first asks the server; `ok` says whether that request
 * succeeded. A failed request is caught and leaves the state unchanged.
 */
module NotificationContext {
  import opened Common

  /** A notification as the client holds it; `content` stands for title, message, dates and links. */
  datatype Notice = Notice(id: string, tipo: string, lida: bool, content: string)

  /** The one general notification type; every other type counts as the user's own. */
  const GeneralType := "sprint_created"

  predicate IsMine(n: Notice)
  {
    n.tipo != GeneralType
  }

  function Ids(list: seq<Notice>): (r: seq<string>)
    ensures |r| == |list| && forall i :: 0 <= i < |list| ==> r[i] == list[i].id
  {
    seq(|list|, i requires 0 <= i < |list| => list[i].id)
  }

  /** `notifications.find((n) => n.id === id)`. */
  function FindNotice(list: seq<Notice>, id: string): (r: Option<Notice>)
    ensures r.Some? ==> r.value in list && r.value.id == id
    ensures r.None? ==> id !in Ids(list)
  {
    if |list| == 0 then None
    else if list[0].id == id then Some(list[0])
    else
      assert forall i :: 0 <= i < |list| - 1 ==> Ids(list[1..])[i] == Ids(list)[i + 1];
      FindNotice(list[1..], id)
  }

  /** `Math.max(0, prev - 1)`. */
  function Dec(n: nat): nat
  {
    if n == 0 then 0 else n - 1
  }

  // ------------------------------------------------------------------
  // The list updates
  // ------------------------------------------------------------------

  /** `handleNotification`'s list update: replace in place when the id is present, else prepend. */
  function Pushed(list: seq<Notice>, n: Notice): seq<Notice>
  {
    if n.id in Ids(list) then seq(|list|, i requires 0 <= i < |list| => if list[i].id == n.id then n else list[i])
    else [n] + list
  }

  /** `markAsRead`'s list update. */
  function MarkedRead(list: seq<Notice>, id: string): seq<Notice>
  {
    seq(|list|, i requires 0 <= i < |list| => if list[i].id == id then list[i].(lida := true) else list[i])
  }

  /** `markAllAsRead`'s list update. */
  function AllRead(list: seq<Notice>): seq<Notice>
  {
    seq(|list|, i requires 0 <= i < |list| => list[i].(lida := true))
  }

  /** `deleteNotification`'s list update. */
  function Removed(list: seq<Notice>, id: string): seq<Notice>
  {
    FilterSeq(list, (n: Notice) => n.id != id)
  }

  /** A pushed notification counts once as unread, and once as the user's own unless it is general. */
  function PushCounts(unread: nat, mine: nat, n: Notice): (nat, nat)
  {
    if n.lida then (unread, mine)
    else (unread + 1, if IsMine(n) then mine + 1 else mine)
  }

  /**
   * Marking as read always lowers the unread count (floored at 0), and
   * lowers "mine" when the notification is listed and not general, whether
   * or not it was unread.
   */
  function MarkCounts(list: seq<Notice>, unread: nat, mine: nat, id: string): (nat, nat)
  {
    var found := FindNotice(list, id);
    (Dec(unread), if found.Some? && IsMine(found.value) then Dec(mine) else mine)
  }

  /** Deleting lowers the counters only for a listed unread notification. */
  function DeleteCounts(list: seq<Notice>, unread: nat, mine: nat, id: string): (nat, nat)
  {
    var found := FindNotice(list, id);
    if found.Some? && !found.value.lida then (Dec(unread), if IsMine(found.value) then Dec(mine) else mine)
    else (unread, mine)
  }

  // ------------------------------------------------------------------
  // The provider's state
  // ------------------------------------------------------------------

  class NotificationState {
    var notifications: seq<Notice>
    var unreadCount: nat
    var mineCount: nat

    /** No two listed notifications share an id. */
    ghost predicate Valid()
      reads this
    {
      Distinct(Ids(notifications))
    }

    constructor()
      ensures Valid()
      ensures notifications == [] && unreadCount == 0 && mineCount == 0
    {
      notifications, unreadCount, mineCount := [], 0, 0;
    }

    /** `handleNotification`. */
    method HandleNotification(n: Notice)
      requires Valid()
      modifies this
      ensures Valid()
      ensures notifications == Pushed(old(notifications), n)
      ensures (unreadCount, mineCount) == PushCounts(old(unreadCount), old(mineCount), n)
    {
      PushedDistinct(notifications, n);
      notifications := Pushed(notifications, n);
      if !n.lida {
        unreadCount := unreadCount + 1;
        if n.tipo != GeneralType {
          mineCount := mineCount + 1;
        }
      }
    }

    /** `markAsRead`. */
    method MarkAsRead(id: string, ok: bool)
      requires Valid()
      modifies this
      ensures Valid()
      ensures !ok ==> notifications == old(notifications) && unreadCount == old(unreadCount) && mineCount == old(mineCount)
      ensures ok ==> notifications == MarkedRead(old(notifications), id)
                     && (unreadCount, mineCount) == MarkCounts(old(notifications), old(unreadCount), old(mineCount), id)
    {
      if !ok {
        return;
      }
      var found := FindNotice(notifications, id);
      MarkedReadIds(notifications, id);
      notifications := MarkedRead(notifications, id);
      unreadCount := Dec(unreadCount);
      if found.Some? && found.value.tipo != GeneralType {
        mineCount := Dec(mineCount);
      }
    }

    /** `markAllAsRead`. */
    method MarkAllAsRead(ok: bool)
      requires Valid()
      modifies this
      ensures Valid()
      ensures !ok ==> notifications == old(notifications) && unreadCount == old(unreadCount) && mineCount == old(mineCount)
      ensures ok ==> notifications == AllRead(old(notifications)) && unreadCount == 0 && mineCount == 0
    {
      if ok {
        AllReadMeaning(notifications);
        notifications := AllRead(notifications);
        unreadCount, mineCount := 0, 0;
      }
    }

    /** `deleteNotification`. */
    method DeleteNotification(id: string, ok: bool)
      requires Valid()
      modifies this
      ensures Valid()
      ensures !ok ==> notifications == old(notifications) && unreadCount == old(unreadCount) && mineCount == old(mineCount)
      ensures ok ==> notifications == Removed(old(notifications), id)
                     && (unreadCount, mineCount) == DeleteCounts(old(notifications), old(unreadCount), old(mineCount), id)
    {
      if !ok {
        return;
      }
      var deleted := FindNotice(notifications, id);
      RemovedMeaning(notifications, id);
      notifications := Removed(notifications, id);
      if deleted.Some? && !deleted.value.lida {
        unreadCount := Dec(unreadCount);
        if deleted.value.tipo != GeneralType {
          mineCount := Dec(mineCount);
        }
      }
    }
  }

  // ------------------------------------------------------------------
  // What the updates promise
  // ------------------------------------------------------------------

  /**
   * A pushed notification is listed afterwards. A known id is replaced at
   * its place and the length stays; a new one goes first. Every other
   * notification stays, and ids stay unique.
   */
  lemma PushedDistinct(list: seq<Notice>, n: Notice)
    requires Distinct(Ids(list))
    ensures var r := Pushed(list, n);
            Distinct(Ids(r)) && n in r
            && (n.id in Ids(list) ==> |r| == |list| && forall i :: 0 <= i < |list| ==>
                  r[i] == if list[i].id == n.id then n else list[i])
            && (n.id !in Ids(list) ==> r == [n] + list)
            && forall m :: m in list && m.id != n.id ==> m in r
  {
    var r := Pushed(list, n);
    if n.id in Ids(list) {
      var k :| 0 <= k < |list| && Ids(list)[k] == n.id;
      assert r[k] == n;
      assert Ids(r) == Ids(list);
    } else {
      forall i, j | 0 <= i < j < |r|
        ensures Ids(r)[i] != Ids(r)[j]
      {
        if i == 0 {
          assert Ids(r)[j] == Ids(list)[j - 1];
        } else {
          assert Ids(r)[i] == Ids(list)[i - 1] && Ids(r)[j] == Ids(list)[j - 1];
        }
      }
    }
  }

  /** Marking one notification read keeps the ids, sets `lida` on that id only, and changes nothing else. */
  lemma MarkedReadIds(list: seq<Notice>, id: string)
    ensures var r := MarkedRead(list, id);
            Ids(r) == Ids(list)
            && (forall i :: 0 <= i < |r| && r[i].id == id ==> r[i].lida && r[i].tipo == list[i].tipo && r[i].content == list[i].content)
            && (forall i :: 0 <= i < |r| && r[i].id != id ==> r[i] == list[i])
  {
  }

  /** Marking all keeps the ids and leaves nothing unread. */
  lemma AllReadMeaning(list: seq<Notice>)
    ensures var r := AllRead(list);
            Ids(r) == Ids(list) && forall n :: n in r ==> n.lida
  {
  }

  /**
   * Deleting removes every notification with that id and keeps the rest
   * in order; with unique ids, exactly one goes when the id is listed.
   */
  lemma RemovedMeaning(list: seq<Notice>, id: string)
    ensures var r := Removed(list, id);
            id !in Ids(r)
            && (forall n :: n in r <==> n in list && n.id != id)
            && (Distinct(Ids(list)) ==> Distinct(Ids(r)))
  {
    var r := Removed(list, id);
    forall k | 0 <= k < |r|
      ensures r[k].id != id
    {
      assert r[k] in r;
    }
    if Distinct(Ids(list)) {
      RemovedDistinct(list, id);
    }
  }

  lemma {:induction false} RemovedDistinct(list: seq<Notice>, id: string)
    requires Distinct(Ids(list))
    ensures Distinct(Ids(Removed(list, id)))
  {
    if |list| > 0 {
      var front, last := list[..|list| - 1], list[|list| - 1];
      assert Distinct(Ids(front)) by {
        forall i, j | 0 <= i < j < |front|
          ensures Ids(front)[i] != Ids(front)[j]
        {
          assert Ids(front)[i] == Ids(list)[i] && Ids(front)[j] == Ids(list)[j];
        }
      }
      RemovedDistinct(front, id);
      var r0 := Removed(front, id);
      forall m | m in r0
        ensures m.id != last.id
      {
        var k :| 0 <= k < |front| && front[k] == m;
        assert Ids(list)[k] == m.id && Ids(list)[|list| - 1] == last.id;
      }
      var r := Removed(list, id);
      assert r == r0 + if last.id != id then [last] else [];
      forall i, j | 0 <= i < j < |r|
        ensures Ids(r)[i] != Ids(r)[j]
      {
        assert r[i] == r0[i];
        if j < |r0| {
          assert r[j] == r0[j];
        } else {
          assert r0[i] in r0;
        }
      }
    }
  }

  /**
   * A duplicate push of an unread notification leaves the list as it was
   * but raises the unread count again, so the count can exceed the unread
   * notifications listed.
   */
  lemma DuplicatePushCountsTwice(list: seq<Notice>, n: Notice, unread: nat, mine: nat)
    requires Distinct(Ids(list)) && !n.lida
    ensures var once := Pushed(list, n);
            var (u1, m1) := PushCounts(unread, mine, n);
            Pushed(once, n) == once && PushCounts(u1, m1, n).0 == unread + 2
  {
    PushedDistinct(list, n);
    var once := Pushed(list, n);
    PushedDistinct(once, n);
    var twice := Pushed(once, n);
    forall i | 0 <= i < |once|
      ensures twice[i] == once[i]
    {
    }
  }

  /**
   * Marking the same notification read twice lowers the counters
   * twice; the counters never go below 0.
   */
  lemma MarkTwiceDecrementsTwice(list: seq<Notice>, unread: nat, mine: nat, id: string)
    requires unread >= 2
    ensures var (u1, m1) := MarkCounts(list, unread, mine, id);
            var (u2, m2) := MarkCounts(MarkedRead(list, id), u1, m1, id);
            u2 == unread - 2 && m2 <= mine
    ensures MarkCounts(list, 0, 0, id) == (0, 0)
  {
    var found := FindNotice(list, id);
    var again := FindNotice(MarkedRead(list, id), id);
    if found.Some? {
      var k :| 0 <= k < |list| && list[k] == found.value;
      assert MarkedRead(list, id)[k].id == id;
      assert again.Some?;
    }
  }

  /**
   * Deleting a read or unlisted notification leaves the counters alone;
   * deleting a listed unread one lowers "unread" by one, floored, and
   * "mine" too unless it is general.
   */
  lemma DeleteCountsMeaning(list: seq<Notice>, unread: nat, mine: nat, n: Notice)
    requires Distinct(Ids(list)) && n in list
    ensures DeleteCounts(list, unread, mine, n.id)
              == if n.lida then (unread, mine) else (Dec(unread), if IsMine(n) then Dec(mine) else mine)
    ensures forall id :: id !in Ids(list) ==> DeleteCounts(list, unread, mine, id) == (unread, mine)
  {
    var f := FindNotice(list, n.id).value;
    var i :| 0 <= i < |list| && list[i] == n;
    var k :| 0 <= k < |list| && list[k] == f;
    assert Ids(list)[i] == Ids(list)[k];
  }
}
