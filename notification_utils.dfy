/**
 * backend/apps/projects/notification_utils.py: one notification is a row
 * in the notification table plus a best-effort push to the recipient's
 * channel group; the fan-out sends one per listed user, in order.
 *
 * The user table is the set of existing user ids. The push transport is
 * a log of the messages that reached the channel layer; whether a push
 * gets through is a nondeterministic choice, because a missing channel
 * layer or an exception in `group_send` only skips the push.
 */
module NotificationUtils {
  import opened Common
  import opened Models

  /** The channel group of a user: `user_<id>`. */
  function GroupName(u: UserId): string
  {
    "user_" + NatToString(u)
  }

  /** Two users share a channel group only when they are the same user. */
  lemma GroupNameInjective(a: UserId, b: UserId)
    ensures GroupName(a) == GroupName(b) <==> a == b
  {
    if GroupName(a) == GroupName(b) {
      var p := "user_";
      assert NatToString(a) == GroupName(a)[|p|..];
      assert NatToString(b) == GroupName(b)[|p|..];
      NatToStringValue(a);
      NatToStringValue(b);
    }
  }

  /** The arguments of `send_notification` other than the recipient. */
  datatype Message = Message(
    tipo: NotificationType,
    titulo: string,
    mensagem: string,
    cardId: Option<nat>,
    sprintId: Option<nat>,
    projectId: Option<nat>,
    metadata: Option<map<string, Json>>)

  /** The row `Notification.objects.create` stores: unread, `metadata or {}`, created `now`. */
  function NewNotification(u: UserId, m: Message, now: int): Notification
  {
    Notification(u, m.tipo, m.titulo, m.mensagem, false, now, m.cardId, m.sprintId, m.projectId,
                 if m.metadata.Some? then m.metadata.value else map[])
  }

  /** A pushed payload: the group it went to, the row id and the row. */
  datatype Push = Push(group: string, id: nat, notification: Notification)

  /** The rows `send_notification_to_multiple_users` creates: one per known id, in order. */
  function Sent(users: set<UserId>, ids: seq<UserId>, m: Message, now: int): seq<Notification>
  {
    if |ids| == 0 then []
    else
      Sent(users, ids[..|ids| - 1], m, now)
        + (if ids[|ids| - 1] in users then [NewNotification(ids[|ids| - 1], m, now)] else [])
  }

  /** How many times `u` occurs in a list of ids. */
  function Occurrences(ids: seq<UserId>, u: UserId): nat
  {
    if |ids| == 0 then 0
    else Occurrences(ids[..|ids| - 1], u) + (if ids[|ids| - 1] == u then 1 else 0)
  }

  /** How many of the rows are addressed to `u`. */
  function CountFor(ns: seq<Notification>, u: UserId): nat
  {
    if |ns| == 0 then 0
    else CountFor(ns[..|ns| - 1], u) + (if ns[|ns| - 1].usuario == u then 1 else 0)
  }

  lemma {:induction false} CountForConcat(a: seq<Notification>, b: seq<Notification>, u: UserId)
    ensures CountFor(a + b, u) == CountFor(a, u) + CountFor(b, u)
    decreases |b|
  {
    if |b| > 0 {
      assert (a + b)[..|a + b| - 1] == a + b[..|b| - 1];
      CountForConcat(a, b[..|b| - 1], u);
    } else {
      assert a + b == a;
    }
  }

  /**
   * The fan-out never returns more rows than ids, and every row is the
   * message addressed to a known user from the list.
   */
  lemma {:induction false} SentShape(users: set<UserId>, ids: seq<UserId>, m: Message, now: int)
    ensures |Sent(users, ids, m, now)| <= |ids|
    ensures forall k :: 0 <= k < |Sent(users, ids, m, now)| ==>
              var n := Sent(users, ids, m, now)[k];
              n == NewNotification(n.usuario, m, now) && n.usuario in users && n.usuario in ids
  {
    if |ids| > 0 {
      var init := ids[..|ids| - 1];
      SentShape(users, init, m, now);
      var prev := Sent(users, init, m, now);
      var r := Sent(users, ids, m, now);
      forall k | 0 <= k < |r|
        ensures r[k] == NewNotification(r[k].usuario, m, now) && r[k].usuario in users && r[k].usuario in ids
      {
        if k < |prev| {
          assert r[k] == prev[k];
          assert prev[k].usuario in init;
        }
      }
    }
  }

  /**
   * No de-duplication: a known user listed `n` times gets `n` rows, and an
   * unknown one none.
   */
  lemma {:induction false} SentCount(users: set<UserId>, ids: seq<UserId>, m: Message, now: int, u: UserId)
    ensures CountFor(Sent(users, ids, m, now), u) == if u in users then Occurrences(ids, u) else 0
  {
    if |ids| > 0 {
      var init := ids[..|ids| - 1];
      var last := ids[|ids| - 1];
      SentCount(users, init, m, now, u);
      var tail := if last in users then [NewNotification(last, m, now)] else [];
      CountForConcat(Sent(users, init, m, now), tail, u);
      if last in users {
        assert tail[..0] == [];
      }
    }
  }

  /** One step of `Sent`, unfolded. */
  lemma SentSnoc(users: set<UserId>, ids: seq<UserId>, u: UserId, m: Message, now: int)
    ensures Sent(users, ids + [u], m, now)
            == Sent(users, ids, m, now) + (if u in users then [NewNotification(u, m, now)] else [])
  {
    assert (ids + [u])[..|ids|] == ids;
  }

  /**
   * The notification table, the user table it points into and the pushes
   * that reached the channel layer.
   */
  class NotificationCenter {
    var users: set<UserId>
    var rows: seq<Notification>
    var pushed: seq<Push>

    /** Every push carries a stored row and went to its recipient's group. */
    predicate Valid()
      reads this
    {
      forall k :: 0 <= k < |pushed| ==>
        pushed[k].id < |rows| && rows[pushed[k].id] == pushed[k].notification
        && pushed[k].group == GroupName(pushed[k].notification.usuario)
    }

    constructor(users0: set<UserId>)
      ensures users == users0 && rows == [] && pushed == [] && Valid()
    {
      users := users0;
      rows := [];
      pushed := [];
    }

    /**
     * `send_notification`: an unknown user gives `None` and nothing is
     * written; otherwise one row is stored and returned, and the push may
     * or may not get through without changing the result.
     */
    method Send(u: UserId, m: Message, now: int) returns (r: Option<Notification>)
      requires Valid()
      modifies this
      ensures Valid() && users == old(users)
      ensures u !in users ==> r.None? && rows == old(rows) && pushed == old(pushed)
      ensures u in users ==>
                r == Some(NewNotification(u, m, now)) && rows == old(rows) + [r.value]
                && (pushed == old(pushed) || pushed == old(pushed) + [Push(GroupName(u), |old(rows)|, r.value)])
    {
      if u !in users {
        return None;
      }
      var n := NewNotification(u, m, now);
      var id := |rows|;
      rows := rows + [n];
      var delivered: bool :| true;
      if delivered {
        pushed := pushed + [Push(GroupName(u), id, n)];
      }
      return Some(n);
    }

    /**
     * `send_notification_to_multiple_users`: one `send_notification` per
     * id, keeping the rows that were created.
     */
    method SendToMany(ids: seq<UserId>, m: Message, now: int) returns (ns: seq<Notification>)
      requires Valid()
      modifies this
      ensures Valid() && users == old(users)
      ensures ns == Sent(old(users), ids, m, now)
      ensures rows == old(rows) + ns
      ensures old(pushed) <= pushed
    {
      ns := [];
      var i := 0;
      while i < |ids|
        invariant 0 <= i <= |ids|
        invariant Valid() && users == old(users)
        invariant ns == Sent(users, ids[..i], m, now)
        invariant rows == old(rows) + ns
        invariant old(pushed) <= pushed
      {
        SentSnoc(users, ids[..i], ids[i], m, now);
        assert ids[..i + 1] == ids[..i] + [ids[i]];
        var r := Send(ids[i], m, now);
        if r.Some? {
          ns := ns + [r.value];
        }
        i := i + 1;
      }
      assert ids[..i] == ids;
    }
  }
}
