/**
 * The notifications button of
 * frontend/src/pages/dashboard/components/NotificationsButton.tsx: which
 * tasks are notifications (urgent, pending and due within a window around
 * now), their order (latest due date first), the unread ones counted on
 * the badge, and the click that opens the popper or closes it and marks
 * every unread notification as reminded.
 */
module Notifications {
  import opened TaskModel
  import opened ClientTasks

  const DAY_MS: int := 24 * 60 * 60 * 1000

  /** `date.isBefore(today.add(3, "day")) && date.isAfter(today.subtract(1, "day"))`: strict at both ends. */
  predicate InWindow(dueDate: int, nowMs: int)
  {
    nowMs - DAY_MS < dueDate < nowMs + 3 * DAY_MS
  }

  predicate IsNotification(t: ClientTask, nowMs: int)
  {
    InWindow(t.dueDate, nowMs) && t.urgency == Urgent && t.status == Pending
  }

  /** The `filter` step: the notification tasks, in list order. */
  function Due(tasks: seq<ClientTask>, nowMs: int): (r: seq<ClientTask>)
    ensures forall t :: t in r <==> t in tasks && IsNotification(t, nowMs)
    ensures |r| <= |tasks|
  {
    if tasks == [] then []
    else (if IsNotification(tasks[0], nowMs) then [tasks[0]] else []) + Due(tasks[1..], nowMs)
  }

  /** Latest due date first. */
  predicate SortedByDueDesc(s: seq<ClientTask>)
  {
    forall i, j :: 0 <= i < j < |s| ==> s[i].dueDate >= s[j].dueDate
  }

  /** Inserts t before the first task not due after it, keeping a descending list descending. */
  function Insert(t: ClientTask, s: seq<ClientTask>): (r: seq<ClientTask>)
    requires SortedByDueDesc(s)
    ensures SortedByDueDesc(r)
    ensures multiset(r) == multiset(s) + multiset{t}
    ensures forall u :: u in r ==> u == t || u in s
  {
    if s == [] || s[0].dueDate <= t.dueDate then [t] + s
    else
      var rest := Insert(t, s[1..]);
      assert s == [s[0]] + s[1..];
      InsertBelowHead(t, s, rest);
      [s[0]] + rest
  }

  /** Every task of the insertion into the tail is due no later than the head. */
  lemma InsertBelowHead(t: ClientTask, s: seq<ClientTask>, rest: seq<ClientTask>)
    requires SortedByDueDesc(s) && s != [] && t.dueDate < s[0].dueDate
    requires forall u :: u in rest ==> u == t || u in s[1..]
    ensures forall j :: 0 <= j < |rest| ==> rest[j].dueDate <= s[0].dueDate
  {
    forall j | 0 <= j < |rest|
      ensures rest[j].dueDate <= s[0].dueDate
    {
      assert rest[j] in rest;
      if rest[j] != t {
        var k :| 0 <= k < |s[1..]| && s[1..][k] == rest[j];
        assert s[k + 1] == rest[j];
      }
    }
  }

  /** The `sort((d1, d2) => dayjs(d2.dueDate).diff(dayjs(d1.dueDate)))` step: a descending permutation. */
  function SortByDueDesc(s: seq<ClientTask>): (r: seq<ClientTask>)
    ensures SortedByDueDesc(r)
    ensures multiset(r) == multiset(s)
  {
    if s == [] then []
    else
      assert s == [s[0]] + s[1..];
      Insert(s[0], SortByDueDesc(s[1..]))
  }

  /** `notifications`. */
  function NotificationList(tasks: seq<ClientTask>, nowMs: int): (r: seq<ClientTask>)
    ensures SortedByDueDesc(r)
    ensures forall t :: t in r <==> t in tasks && IsNotification(t, nowMs)
  {
    var due := Due(tasks, nowMs);
    var r := SortByDueDesc(due);
    assert forall t :: t in r <==> t in multiset(due);
    r
  }

  /** `unreadNotifications`: the notifications not yet reminded, in their order. */
  function Unread(ns: seq<ClientTask>): (r: seq<ClientTask>)
    ensures forall t :: t in r <==> t in ns && !t.userReminded
    ensures |r| <= |ns|
  {
    if ns == [] then []
    else (if !ns[0].userReminded then [ns[0]] else []) + Unread(ns[1..])
  }

  /** The badge's content: the number of unread notifications, zero exactly when every notification is reminded. */
  function BadgeCount(tasks: seq<ClientTask>, nowMs: int): (n: nat)
    ensures n == |Unread(NotificationList(tasks, nowMs))|
    ensures n == 0 <==> forall t :: t in tasks && IsNotification(t, nowMs) ==> t.userReminded
  {
    var unread := Unread(NotificationList(tasks, nowMs));
    assert unread != [] ==> unread[0] in unread;
    |unread|
  }

  function IdsOf(s: seq<ClientTask>): set<TaskId>
  {
    set t | t in s :: t.id
  }

  /** The click marks these tasks: those with the id of an unread notification. */
  function Marked(tasks: seq<ClientTask>, ids: set<TaskId>): (r: seq<ClientTask>)
    ensures |r| == |tasks|
    ensures forall i :: 0 <= i < |tasks| ==> r[i] == (if tasks[i].id in ids then tasks[i].(userReminded := true) else tasks[i])
  {
    seq(|tasks|, i requires 0 <= i < |tasks| => if tasks[i].id in ids then tasks[i].(userReminded := true) else tasks[i])
  }

  /** The bodies of the requests the closing click sends: each unread notification, reminded. */
  function Reminded(s: seq<ClientTask>): (r: seq<ClientTask>)
    ensures |r| == |s|
    ensures forall k :: 0 <= k < |s| ==> r[k] == s[k].(userReminded := true)
  {
    seq(|s|, k requires 0 <= k < |s| => s[k].(userReminded := true))
  }

  /** The prefix of the unread list grows by one notification. */
  lemma PrefixStep(unread: seq<ClientTask>, k: nat)
    requires k < |unread|
    ensures Reminded(unread[..k + 1]) == Reminded(unread[..k]) + [unread[k].(userReminded := true)]
    ensures IdsOf(unread[..k + 1]) == IdsOf(unread[..k]) + {unread[k].id}
  {
    assert unread[..k + 1] == unread[..k] + [unread[k]];
  }

  /** Marking one more id is marking the larger set. */
  lemma MarkedAgain(tasks: seq<ClientTask>, ids: set<TaskId>, id: TaskId)
    ensures Marked(Marked(tasks, ids), {id}) == Marked(tasks, ids + {id})
  {
  }

  /** After a closing click no notification is unread, so the badge shows nothing. */
  lemma ClosingClickClearsBadge(tasks: seq<ClientTask>, nowMs: int)
    ensures BadgeCount(Marked(tasks, IdsOf(Unread(NotificationList(tasks, nowMs)))), nowMs) == 0
  {
    var ids := IdsOf(Unread(NotificationList(tasks, nowMs)));
    var after := Marked(tasks, ids);
    forall t | t in after && IsNotification(t, nowMs)
      ensures t.userReminded
    {
      var i :| 0 <= i < |after| && after[i] == t;
      if tasks[i].id !in ids {
        assert tasks[i] == t;
        assert tasks[i] in tasks;
        assert !t.userReminded ==> t in Unread(NotificationList(tasks, nowMs));
      }
    }
  }

  /** With distinct ids, a closing click changes exactly the unread notifications, setting `userReminded` and nothing else. */
  lemma {:induction false} ClosingClickTouchesOnlyUnread(tasks: seq<ClientTask>, nowMs: int, i: nat)
    requires UniqueIds(tasks) && i < |tasks|
    ensures var after := Marked(tasks, IdsOf(Unread(NotificationList(tasks, nowMs))));
      after[i] == (if IsNotification(tasks[i], nowMs) && !tasks[i].userReminded then tasks[i].(userReminded := true) else tasks[i])
  {
    var unread := Unread(NotificationList(tasks, nowMs));
    if tasks[i].id in IdsOf(unread) {
      var u :| u in unread && u.id == tasks[i].id;
      assert u in tasks;
      var j :| 0 <= j < |tasks| && tasks[j] == u;
      assert j == i;
    } else {
      assert !(tasks[i] in unread);
    }
  }

  /** The unread notification tasks of the list, as a set. */
  function UnreadTasks(tasks: seq<ClientTask>, nowMs: int): set<ClientTask>
  {
    set t | t in tasks && IsNotification(t, nowMs) && !t.userReminded
  }

  /** With distinct ids, the badge counts the unread notification tasks of the list, each once. */
  lemma BadgeCountsUnreadTasks(tasks: seq<ClientTask>, nowMs: int)
    requires UniqueIds(tasks)
    ensures BadgeCount(tasks, nowMs) == |UnreadTasks(tasks, nowMs)|
  {
    var due := Due(tasks, nowMs);
    SortKeepsUnreadCount(due);
    UnreadDueCount(tasks, nowMs);
  }

  /** One task in front adds one to the unread count exactly when it is unread. */
  lemma UnreadCons(t: ClientTask, rest: seq<ClientTask>)
    ensures |Unread([t] + rest)| == (if t.userReminded then 0 else 1) + |Unread(rest)|
  {
    assert ([t] + rest)[0] == t && ([t] + rest)[1..] == rest;
  }

  /** Inserting a task adds one to the unread count exactly when it is unread. */
  lemma {:induction false} InsertUnreadCount(t: ClientTask, s: seq<ClientTask>)
    requires SortedByDueDesc(s)
    ensures |Unread(Insert(t, s))| == (if t.userReminded then 0 else 1) + |Unread(s)|
    decreases |s|
  {
    if s == [] || s[0].dueDate <= t.dueDate {
      UnreadCons(t, s);
    } else {
      assert s == [s[0]] + s[1..];
      InsertUnreadCount(t, s[1..]);
      UnreadCons(s[0], Insert(t, s[1..]));
      UnreadCons(s[0], s[1..]);
    }
  }

  /** Sorting keeps the number of unread tasks. */
  lemma {:induction false} SortKeepsUnreadCount(s: seq<ClientTask>)
    ensures |Unread(SortByDueDesc(s))| == |Unread(s)|
    decreases |s|
  {
    if s != [] {
      assert s == [s[0]] + s[1..];
      SortKeepsUnreadCount(s[1..]);
      InsertUnreadCount(s[0], SortByDueDesc(s[1..]));
      UnreadCons(s[0], s[1..]);
    }
  }

  /** With distinct ids, the unread notifications in list order are as many as the unread notification tasks. */
  lemma {:induction false} UnreadDueCount(tasks: seq<ClientTask>, nowMs: int)
    requires UniqueIds(tasks)
    ensures |Unread(Due(tasks, nowMs))| == |UnreadTasks(tasks, nowMs)|
    decreases |tasks|
  {
    if tasks == [] {
      assert UnreadTasks(tasks, nowMs) == {};
    } else {
      UniqueTail(tasks);
      UnreadDueCount(tasks[1..], nowMs);
      DueUnreadStep(tasks, nowMs);
      UnreadTasksStep(tasks, nowMs);
    }
  }

  /** A list of distinct ids stays so without its head, and its head does not recur. */
  lemma UniqueTail(tasks: seq<ClientTask>)
    requires tasks != [] && UniqueIds(tasks)
    ensures UniqueIds(tasks[1..]) && tasks[0] !in tasks[1..]
  {
    var rest := tasks[1..];
    forall i, j | 0 <= i < j < |rest|
      ensures rest[i].id != rest[j].id
    {
      assert rest[i] == tasks[i + 1] && rest[j] == tasks[j + 1];
    }
    forall k | 0 <= k < |rest|
      ensures rest[k] != tasks[0]
    {
      assert rest[k] == tasks[k + 1];
    }
  }

  /** The head of the list adds one unread notification exactly when it is one. */
  lemma DueUnreadStep(tasks: seq<ClientTask>, nowMs: int)
    requires tasks != []
    ensures |Unread(Due(tasks, nowMs))|
      == (if IsNotification(tasks[0], nowMs) && !tasks[0].userReminded then 1 else 0) + |Unread(Due(tasks[1..], nowMs))|
  {
    var t, rest := tasks[0], Due(tasks[1..], nowMs);
    if IsNotification(t, nowMs) {
      assert Due(tasks, nowMs) == [t] + rest;
      UnreadCons(t, rest);
    } else {
      assert Due(tasks, nowMs) == [] + rest;
      assert [] + rest == rest;
    }
  }

  /** The head of a list whose head does not recur adds one unread notification task exactly when it is one. */
  lemma UnreadTasksStep(tasks: seq<ClientTask>, nowMs: int)
    requires tasks != [] && tasks[0] !in tasks[1..]
    ensures |UnreadTasks(tasks, nowMs)|
      == (if IsNotification(tasks[0], nowMs) && !tasks[0].userReminded then 1 else 0) + |UnreadTasks(tasks[1..], nowMs)|
  {
    var t, rest := tasks[0], tasks[1..];
    assert forall u :: u in tasks <==> u == t || u in rest by {
      assert tasks == [t] + rest;
    }
    if IsNotification(t, nowMs) && !t.userReminded {
      assert UnreadTasks(tasks, nowMs) == {t} + UnreadTasks(rest, nowMs);
    } else {
      assert UnreadTasks(tasks, nowMs) == UnreadTasks(rest, nowMs);
    }
  }

  class NotificationsButton {
    /** The `tasks` of the dashboard's context. */
    var tasks: seq<ClientTask>
    /** `!!anchorEl`. */
    var popperOpen: bool
    /** The bodies of the `PUT tasks/:id` requests sent, in order. */
    var sent: seq<ClientTask>

    constructor (tasks: seq<ClientTask>)
      ensures this.tasks == tasks && !popperOpen && sent == []
    {
      this.tasks := tasks;
      popperOpen := false;
      sent := [];
    }

    /**
     * `handleClick`: when closed it opens and changes no task; when open it
     * closes and, for each unread notification in turn, sets its
     * `userReminded` and sends it.
     */
    method HandleClick(nowMs: int)
      modifies this
      ensures popperOpen == !old(popperOpen)
      ensures !old(popperOpen) ==> tasks == old(tasks) && sent == old(sent)
      ensures old(popperOpen) ==>
        var unread := Unread(NotificationList(old(tasks), nowMs));
        && tasks == Marked(old(tasks), IdsOf(unread))
        && sent == old(sent) + Reminded(unread)
    {
      if popperOpen {
        popperOpen := false;
        var unread := Unread(NotificationList(tasks, nowMs));
        ghost var tasks0 := tasks;
        ghost var sent0 := sent;
        var k := 0;
        while k < |unread|
          invariant 0 <= k <= |unread|
          invariant !popperOpen
          invariant tasks == Marked(tasks0, IdsOf(unread[..k]))
          invariant sent == sent0 + Reminded(unread[..k])
        {
          var n := unread[k];
          MarkedAgain(tasks0, IdsOf(unread[..k]), n.id);
          tasks := Marked(tasks, {n.id});
          sent := sent + [n.(userReminded := true)];
          PrefixStep(unread, k);
          k := k + 1;
        }
        assert unread[..k] == unread;
      } else {
        popperOpen := true;
      }
    }
  }
}
