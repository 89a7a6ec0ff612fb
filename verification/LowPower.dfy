/** Waking a low-power device: callbacks wait in lists until a result is dispatched, and a task
    repeats the wake-up message until its deadline. A list lives on in the results posted for it
    when the registry forgets it, so lists are kept by number. A handler may run what is posted to it
    at once or later; both kinds are covered. */
module LowPower {
  import opened Options

  const UNSUPPORT := 1
  const SUCCESS := 2
  const AWAKE_TIMEOUT := 3
  const DEFAULT_TIMEOUT := 10000
  const WAKE_INTERVAL := 1000

  /** A registered callback; every registration gets a ticket of its own. */
  datatype Entry = Entry(callback: int, ticket: nat)

  /** Callbacks waiting for a result about one device. */
  datatype Waiting = Waiting(device: string, entries: seq<Entry>)

  /** A result on its way to a list of callbacks. */
  datatype Post = Post(list: Option<nat>, device: string, result: int)

  datatype Delivery = Delivery(ticket: nat, device: string, result: int)

  /** A wake task: how often it published, the largest deadline it published under, and when it runs
      again. */
  datatype Task = Task(
    device: string, start: int, published: nat, allowed: int, due: int, pending: bool)

  /** What the cloud says about a device, with the time of its last change when it is awake. */
  datatype Check = Failed | NoResult | AlreadyAwake(since: int) | StillAsleep | Raises

  /** What the device cache says about the device of a call; a call through a node is about the
      node. */
  datatype Lookup =
    | NoDevice | NoResponse | NoNode | NoProduct | Virtual | NotLowPower
    | Wakes(device: string, cloudOnline: bool, lastUpdate: int)

  datatype Reply = Success(result: int) | Error(code: string)

  /** An answer given within the call itself. */
  datatype Direct = Direct(callback: int, reply: Reply)

  datatype Manager = Manager(
    callbacks: map<string, nat>, lists: seq<Waiting>, posts: seq<Post>, delivered: seq<Delivery>,
    issued: nat, answered: seq<Direct>, timeout: int, largest: int, deadlines: map<string, int>,
    tasks: seq<Task>, wakeTasks: map<string, nat>, awakeSince: map<string, int>, sent: seq<string>)

  const FRESH := Manager(
    map[], [], [], [], 0, [], DEFAULT_TIMEOUT, DEFAULT_TIMEOUT, map[], [], map[], map[], [])

  // ------------------------------------------------------------------------------------------
  // Tickets
  // ------------------------------------------------------------------------------------------

  function Tickets(entries: seq<Entry>): multiset<nat> {
    if entries == [] then multiset{}
    else Tickets(entries[..|entries| - 1]) + multiset{entries[|entries| - 1].ticket}
  }

  function AllWaiting(lists: seq<Waiting>): multiset<nat> {
    if lists == [] then multiset{}
    else AllWaiting(lists[..|lists| - 1]) + Tickets(lists[|lists| - 1].entries)
  }

  function AllDelivered(delivered: seq<Delivery>): multiset<nat> {
    if delivered == [] then multiset{}
    else AllDelivered(delivered[..|delivered| - 1]) + multiset{delivered[|delivered| - 1].ticket}
  }

  function Issued(n: nat): multiset<nat> {
    if n == 0 then multiset{} else Issued(n - 1) + multiset{n - 1}
  }

  /** Every registration waits in one list or has had its one result. */
  ghost predicate Accounted(lists: seq<Waiting>, delivered: seq<Delivery>, issued: nat) {
    AllWaiting(lists) + AllDelivered(delivered) == Issued(issued)
  }

  lemma {:induction false} IssuedOnce(n: nat, t: nat)
    ensures Issued(n)[t] == if t < n then 1 else 0
  {
    if n > 0 {
      IssuedOnce(n - 1, t);
    }
  }

  function DeliveriesOf(delivered: seq<Delivery>, t: nat): nat {
    if delivered == [] then 0
    else DeliveriesOf(delivered[..|delivered| - 1], t)
         + if delivered[|delivered| - 1].ticket == t then 1 else 0
  }

  lemma {:induction false} DeliveriesCounted(delivered: seq<Delivery>, t: nat)
    ensures DeliveriesOf(delivered, t) == AllDelivered(delivered)[t]
  {
    if delivered != [] {
      DeliveriesCounted(delivered[..|delivered| - 1], t);
    }
  }

  /** Where the books balance, no registration has more than one result, and one without a result
      still waits. */
  lemma AtMostOneResult(lists: seq<Waiting>, delivered: seq<Delivery>, issued: nat, t: nat)
    requires Accounted(lists, delivered, issued)
    ensures DeliveriesOf(delivered, t) <= 1
    ensures DeliveriesOf(delivered, t) == 1 ==> t < issued && t !in AllWaiting(lists)
    ensures t < issued && DeliveriesOf(delivered, t) == 0 ==> t in AllWaiting(lists)
  {
    IssuedOnce(issued, t);
    DeliveriesCounted(delivered, t);
    assert (AllWaiting(lists) + AllDelivered(delivered))[t]
        == AllWaiting(lists)[t] + AllDelivered(delivered)[t];
  }

  lemma BothMore(
    a: multiset<nat>, b: multiset<nat>, c: multiset<nat>, d: multiset<nat>, e: multiset<nat>)
    requires a + b == c + d
    ensures (a + e) + b == (c + e) + d
  {
    assert (a + e) + b == (a + b) + e;
    assert (c + e) + d == (c + d) + e;
  }

  lemma {:induction false} Replaced(lists: seq<Waiting>, i: nat, w: Waiting)
    requires i < |lists|
    ensures AllWaiting(lists[i := w]) + Tickets(lists[i].entries)
         == AllWaiting(lists) + Tickets(w.entries)
  {
    hide Tickets;
    var n := |lists| - 1;
    var changed := lists[i := w];
    if i == n {
      assert changed[..n] == lists[..n];
    } else {
      Replaced(lists[..n], i, w);
      assert changed[..n] == lists[..n][i := w] && changed[n] == lists[n];
      BothMore(AllWaiting(changed[..n]), Tickets(lists[i].entries), AllWaiting(lists[..n]),
               Tickets(w.entries), Tickets(lists[n].entries));
    }
  }

  lemma AddedTicket(entries: seq<Entry>, e: Entry)
    ensures Tickets(entries + [e]) == Tickets(entries) + multiset{e.ticket}
  {
    assert (entries + [e])[..|entries|] == entries;
  }

  lemma {:induction false} FirstTicket(entries: seq<Entry>)
    requires entries != []
    ensures Tickets(entries) == multiset{entries[0].ticket} + Tickets(entries[1..])
  {
    var n := |entries| - 1;
    if n > 0 {
      FirstTicket(entries[..n]);
      var rest := entries[1..];
      assert entries[..n][1..] == rest[..n - 1];
      assert Tickets(rest) == Tickets(rest[..n - 1]) + multiset{entries[n].ticket};
    } else {
      assert entries[..0] == [] == entries[1..];
    }
  }

  /** A new registration joins a list. */
  lemma JoinKeeps(
    lists: seq<Waiting>, delivered: seq<Delivery>, issued: nat, i: nat, callback: int)
    requires i < |lists| && Accounted(lists, delivered, issued)
    ensures var w := lists[i].(entries := lists[i].entries + [Entry(callback, issued)]);
            Accounted(lists[i := w], delivered, issued + 1)
  {
    var w := lists[i].(entries := lists[i].entries + [Entry(callback, issued)]);
    Replaced(lists, i, w);
    AddedTicket(lists[i].entries, Entry(callback, issued));
    Shift(AllWaiting(lists[i := w]), AllWaiting(lists), Tickets(lists[i].entries), multiset{issued});
  }

  lemma Shift(a: multiset<nat>, b: multiset<nat>, t: multiset<nat>, one: multiset<nat>)
    requires a + t == b + (t + one)
    ensures a == b + one
  {
    assert a == (a + t) - t;
    assert b + one == (b + (t + one)) - t;
  }

  /** The first callback of a list gets its result. */
  lemma DeliverKeeps(lists: seq<Waiting>, delivered: seq<Delivery>, issued: nat, i: nat, d: Delivery)
    requires i < |lists| && lists[i].entries != [] && d.ticket == lists[i].entries[0].ticket
    requires Accounted(lists, delivered, issued)
    ensures Accounted(lists[i := lists[i].(entries := lists[i].entries[1..])], delivered + [d], issued)
  {
    hide Tickets, AllWaiting;
    var w := lists[i].(entries := lists[i].entries[1..]);
    Replaced(lists, i, w);
    FirstTicket(lists[i].entries);
    Shift(AllWaiting(lists), AllWaiting(lists[i := w]), Tickets(w.entries), multiset{d.ticket});
    assert (delivered + [d])[..|delivered|] == delivered;
  }

  lemma NewListKeeps(lists: seq<Waiting>, delivered: seq<Delivery>, issued: nat, device: string)
    requires Accounted(lists, delivered, issued)
    ensures Accounted(lists + [Waiting(device, [])], delivered, issued)
  {
    var more := lists + [Waiting(device, [])];
    assert more[..|lists|] == lists;
  }

  lemma UpdatedTwice(lists: seq<Waiting>, i: nat, a: Waiting, b: Waiting)
    requires i < |lists|
    ensures lists[i := a][i := b] == lists[i := b]
  {
  }

  /** All callbacks of a list get a result, one after the other. */
  lemma {:induction false} DeliverAllKeeps(
    lists: seq<Waiting>, delivered: seq<Delivery>, issued: nat, i: nat, post: Post)
    requires i < |lists| && Accounted(lists, delivered, issued)
    ensures Accounted(lists[i := lists[i].(entries := [])],
                      delivered + Deliveries(lists[i].entries, post), issued)
    decreases |lists[i].entries|
  {
    var entries := lists[i].entries;
    hide Accounted, Deliveries;
    if entries == [] {
      assert lists[i := lists[i].(entries := [])] == lists;
      NoDeliveries(post);
      assert delivered + [] == delivered;
    } else {
      var d := Delivery(entries[0].ticket, post.device, post.result);
      var fewer := lists[i := lists[i].(entries := entries[1..])];
      DeliverKeeps(lists, delivered, issued, i, d);
      DeliverAllKeeps(fewer, delivered + [d], issued, i, post);
      UpdatedTwice(lists, i, fewer[i], lists[i].(entries := []));
      FirstDelivery(entries, post);
      assert delivered + [d] + Deliveries(entries[1..], post)
          == delivered + ([d] + Deliveries(entries[1..], post));
    }
  }

  function Deliveries(entries: seq<Entry>, post: Post): seq<Delivery> {
    seq(|entries|, i requires 0 <= i < |entries| =>
      Delivery(entries[i].ticket, post.device, post.result))
  }

  lemma NoDeliveries(post: Post)
    ensures Deliveries([], post) == []
  {
  }

  lemma FirstDelivery(entries: seq<Entry>, post: Post)
    requires entries != []
    ensures Deliveries(entries, post)
         == [Delivery(entries[0].ticket, post.device, post.result)] + Deliveries(entries[1..], post)
  {
  }

  lemma NextDelivery(entries: seq<Entry>, post: Post, n: nat)
    requires n < |entries|
    ensures Deliveries(entries[..n + 1], post)
         == Deliveries(entries[..n], post) + [Delivery(entries[n].ticket, post.device, post.result)]
  {
  }

  // ------------------------------------------------------------------------------------------
  // One wake task
  // ------------------------------------------------------------------------------------------

  /** How many messages fit before a deadline: a thousandth of it, rounded up. */
  function MostMessages(timeout: int): int {
    if timeout <= 0 then 0 else (timeout + WAKE_INTERVAL - 1) / WAKE_INTERVAL
  }

  /** One run of a task: before its deadline it publishes and comes back after the interval, and
      otherwise it is over. */
  function Ran(t: Task, now: int, deadline: int): Task {
    if now - t.start < deadline then
      t.(published := t.published + 1, due := now + WAKE_INTERVAL,
         allowed := if deadline > t.allowed then deadline else t.allowed)
    else t.(pending := false)
  }

  /** The n-th repetition comes at least n intervals after the start, and no more messages went out
      than fit before the largest deadline that the task published under. */
  predicate InTime(t: Task) {
    && t.due >= t.start + WAKE_INTERVAL * t.published
    && t.published <= MostMessages(t.allowed)
  }

  lemma RanInTime(t: Task, now: int, deadline: int)
    requires InTime(t) && t.due <= now
    ensures InTime(Ran(t, now, deadline))
  {
  }

  function NewTask(device: string, start: int): Task {
    Task(device, start, 0, 0, start, true)
  }

  /** The runs of one task, each at a time and under the deadline found then; none comes before it is
      due, and none after the last. */
  ghost predicate AreRuns(t: Task, times: seq<int>, deadlines: seq<int>)
    requires |times| == |deadlines|
    decreases |times|
  {
    times == []
    || (t.pending && t.due <= times[0]
        && AreRuns(Ran(t, times[0], deadlines[0]), times[1..], deadlines[1..]))
  }

  function AfterRuns(t: Task, times: seq<int>, deadlines: seq<int>): Task
    requires |times| == |deadlines|
    decreases |times|
  {
    if times == [] then t
    else AfterRuns(Ran(t, times[0], deadlines[0]), times[1..], deadlines[1..])
  }

  lemma {:induction false} RunsInTime(t: Task, times: seq<int>, deadlines: seq<int>, most: int)
    requires |times| == |deadlines| && AreRuns(t, times, deadlines) && InTime(t)
    requires t.allowed <= most && forall i :: 0 <= i < |deadlines| ==> deadlines[i] <= most
    ensures InTime(AfterRuns(t, times, deadlines)) && AfterRuns(t, times, deadlines).allowed <= most
    decreases |times|
  {
    if times != [] {
      RanInTime(t, times[0], deadlines[0]);
      RunsInTime(Ran(t, times[0], deadlines[0]), times[1..], deadlines[1..], most);
    }
  }

  lemma MoreTimeMoreMessages(timeout: int, larger: int)
    requires timeout <= larger
    ensures MostMessages(timeout) <= MostMessages(larger)
  {
  }

  /** A task whose deadline never exceeds T milliseconds publishes at most T/1000 times, rounded up,
      however its runs are delayed. */
  lemma MessagesBounded(device: string, start: int, times: seq<int>, deadlines: seq<int>, most: int)
    requires |times| == |deadlines| && AreRuns(NewTask(device, start), times, deadlines)
    requires 0 <= most && forall i :: 0 <= i < |deadlines| ==> deadlines[i] <= most
    ensures AfterRuns(NewTask(device, start), times, deadlines).published <= MostMessages(most)
  {
    RunsInTime(NewTask(device, start), times, deadlines, most);
    MoreTimeMoreMessages(AfterRuns(NewTask(device, start), times, deadlines).allowed, most);
  }

  /** And exactly so many when its runs are on time and the deadline is T throughout. */
  lemma {:induction false} MessagesOnTime(t: Task, timeout: int, times: seq<int>, deadlines: seq<int>)
    requires |times| == |deadlines| && t.published <= MostMessages(timeout)
    requires forall i :: 0 <= i < |deadlines| ==> deadlines[i] == timeout
    requires forall i :: 0 <= i < |times| ==>
               times[i] == t.start + WAKE_INTERVAL * (t.published + i)
    requires |times| == MostMessages(timeout) - t.published + 1
    ensures AfterRuns(t, times, deadlines).published == MostMessages(timeout)
    ensures !AfterRuns(t, times, deadlines).pending
    decreases |times|
  {
    assert times[0] == t.start + WAKE_INTERVAL * t.published;
    if t.published < MostMessages(timeout) {
      var next := Ran(t, times[0], timeout);
      assert forall i :: 0 <= i < |times| - 1 ==> times[1..][i] == times[i + 1];
      MessagesOnTime(next, timeout, times[1..], deadlines[1..]);
    } else {
      assert times[1..] == [];
    }
  }

  // ------------------------------------------------------------------------------------------
  // The manager as a function
  // ------------------------------------------------------------------------------------------

  /** Lists, posted results and tasks are there, and stay with their device. */
  ghost predicate Linked(m: Manager) {
    && (forall device :: device in m.callbacks ==>
          m.callbacks[device] < |m.lists| && m.lists[m.callbacks[device]].device == device)
    && (forall k :: 0 <= k < |m.posts| && m.posts[k].list.Some? ==>
          m.posts[k].list.value < |m.lists|
          && m.lists[m.posts[k].list.value].device == m.posts[k].device)
    && (forall device :: device in m.wakeTasks ==> m.wakeTasks[device] < |m.tasks|)
  }

  /** No task has published more than fits before its deadline, nor is that larger than what was ever
      asked for. */
  ghost predicate Punctual(m: Manager) {
    && m.timeout <= m.largest && 0 <= m.largest
    && (forall device :: device in m.deadlines ==> m.deadlines[device] <= m.largest)
    && (forall k :: 0 <= k < |m.tasks| ==> InTime(m.tasks[k]) && m.tasks[k].allowed <= m.largest)
  }

  ghost predicate Sound(m: Manager) {
    Linked(m) && Punctual(m) && Accounted(m.lists, m.delivered, m.issued)
  }

  predicate Waits(entries: seq<Entry>, callback: int) {
    exists e :: e in entries && e.callback == callback
  }

  ghost function Registered(m: Manager, device: string, callback: int): Manager
    requires Linked(m)
  {
    var e := Entry(callback, m.issued);
    if device !in m.callbacks then
      m.(callbacks := m.callbacks[device := |m.lists|], issued := m.issued + 1,
         lists := m.lists + [Waiting(device, [e])])
    else
      var i := m.callbacks[device];
      if Waits(m.lists[i].entries, callback) then m
      else m.(lists := m.lists[i := Waiting(device, m.lists[i].entries + [e])],
              issued := m.issued + 1)
  }

  /** The task of the device is called off. */
  ghost function Cancelled(m: Manager, device: string): Manager
    requires Linked(m)
  {
    var tasks :=
      if device in m.wakeTasks
      then m.tasks[m.wakeTasks[device] := m.tasks[m.wakeTasks[device]].(pending := false)]
      else m.tasks;
    m.(tasks := tasks, wakeTasks := m.wakeTasks - {device}, deadlines := m.deadlines - {device})
  }

  /** Everyone in the list of a posted result gets it and leaves the list. */
  ghost function FannedOut(m: Manager, post: Post): Manager
    requires post.list.Some? ==> post.list.value < |m.lists|
  {
    match post.list
    case None => m
    case Some(i) =>
      m.(lists := m.lists[i := m.lists[i].(entries := [])],
         delivered := m.delivered + Deliveries(m.lists[i].entries, post))
  }

  function Addressed(m: Manager, device: string, result: int): Post {
    Post(if device in m.callbacks then Some(m.callbacks[device]) else None, device, result)
  }

  ghost function Dispatched(m: Manager, device: string, result: int, atOnce: bool): Manager
    requires Linked(m)
  {
    var post := Addressed(m, device, result);
    if atOnce then FannedOut(Cancelled(m, device), post)
    else
      var c := Cancelled(m, device);
      c.(posts := c.posts + [post])
  }

  /** Posted result k is run, whichever comes next. */
  ghost function Arrived(m: Manager, k: nat): Manager
    requires Linked(m) && k < |m.posts|
  {
    FannedOut(m.(posts := m.posts[..k] + m.posts[k + 1..]), m.posts[k])
  }

  function Deadline(m: Manager, device: string): int {
    if device in m.deadlines then m.deadlines[device] else 0
  }

  ghost function TaskRun(m: Manager, id: nat, now: int, atOnce: bool): Manager
    requires Linked(m) && id < |m.tasks|
  {
    var device := m.tasks[id].device;
    var ran := m.(tasks := m.tasks[id := Ran(m.tasks[id], now, Deadline(m, device))]);
    if now - m.tasks[id].start < Deadline(m, device)
    then ran.(sent := m.sent + [device])
    else Dispatched(ran, device, AWAKE_TIMEOUT, atOnce)
  }

  /** A deadline for the device, and a task that has not run yet. */
  ghost function Ready(m: Manager, device: string, start: int): Manager {
    m.(deadlines := if device in m.deadlines then m.deadlines else m.deadlines[device := m.timeout],
       tasks := m.tasks + [NewTask(device, start)])
  }

  ghost function Launched(m: Manager, device: string, start: int, now: int, atOnce: bool): Manager
    requires Linked(m)
  {
    var ready, id := Ready(m, device, start), |m.tasks|;
    var run := if atOnce then TaskRun(ready, id, now, atOnce) else ready;
    run.(wakeTasks := run.wakeTasks[device := id])
  }

  ghost function Checked(m: Manager, device: string, check: Check, atOnce: bool): Manager
    requires Linked(m)
  {
    match check
    case NoResult => Dispatched(m, device, UNSUPPORT, atOnce)
    case AlreadyAwake(since) =>
      Dispatched(m.(awakeSince := m.awakeSince[device := since]), device, SUCCESS, atOnce)
    case _ => m
  }

  ghost function WakeStarted(
    m: Manager, device: string, check: Check, start: int, now: int, atOnce: bool): Manager
    requires Linked(m)
  {
    if check.Raises? then Dispatched(m, device, UNSUPPORT, atOnce)
    else
      Launched(Checked(m, device, check, atOnce), device, start, now, atOnce)
  }

  /** The device is on record as awake, and nothing has changed since. */
  predicate KnownAwake(m: Manager, found: Lookup) {
    found.Wakes? && found.device in m.awakeSince && found.cloudOnline
    && found.lastUpdate >= m.awakeSince[found.device]
  }

  /** The answer that a call gets at once, if any. */
  function AtOnce(m: Manager, found: Lookup): Option<Reply> {
    match found
    case NoDevice => Some(Error("1001"))
    case NoResponse => Some(Error("1002"))
    case NoNode => Some(Success(UNSUPPORT))
    case NoProduct => Some(Error("1003"))
    case Virtual => Some(Success(SUCCESS))
    case NotLowPower => Some(Success(UNSUPPORT))
    case Wakes(_, _, _) => if KnownAwake(m, found) then Some(Success(SUCCESS)) else None
  }

  function Asked(m: Manager, asked: int): Manager {
    if asked > 0 then m.(timeout := asked, largest := if asked > m.largest then asked else m.largest)
    else m
  }

  /** A call for a device that can be woken. */
  ghost function Woken(
    m: Manager, device: string, callback: int, check: Check, start: int, now: int, atOnce: bool)
    : Manager
    requires Linked(m)
  {
    var r := Registered(m, device, callback);
    if device in m.wakeTasks then r else WakeStarted(r, device, check, start, now, atOnce)
  }

  ghost function Called(
    m: Manager, found: Lookup, callback: int, asked: int, check: Check, start: int, now: int,
    atOnce: bool): Manager
    requires Linked(m)
  {
    var n := if found.Wakes? then Asked(m, asked) else m;
    match AtOnce(m, found)
    case Some(reply) =>
      n.(answered := m.answered + [Direct(callback, reply)],
         sent := if found.Wakes? then m.sent + [found.device] else m.sent)
    case None => Woken(n, found.device, callback, check, start, now, atOnce)
  }

  function Released(m: Manager, destroy: bool): Manager {
    m.(wakeTasks := map[], deadlines := map[], awakeSince := map[],
       callbacks := if destroy then map[] else m.callbacks)
  }

  // ------------------------------------------------------------------------------------------
  // Every step keeps the manager sound
  // ------------------------------------------------------------------------------------------

  lemma FreshIsSound()
    ensures Sound(FRESH)
  {
  }

  lemma RegisteredSound(m: Manager, device: string, callback: int)
    requires Sound(m)
    ensures Sound(Registered(m, device, callback))
  {
    hide Accounted, InTime;
    if device !in m.callbacks {
      var e := Entry(callback, m.issued);
      var extended := m.lists + [Waiting(device, [])];
      NewListKeeps(m.lists, m.delivered, m.issued, device);
      JoinKeeps(extended, m.delivered, m.issued, |m.lists|, callback);
      assert extended[|m.lists|].entries + [e] == [e];
      assert extended[|m.lists| := Waiting(device, [e])] == m.lists + [Waiting(device, [e])];
    } else if !Waits(m.lists[m.callbacks[device]].entries, callback) {
      JoinKeeps(m.lists, m.delivered, m.issued, m.callbacks[device], callback);
    }
  }

  lemma CancelledSound(m: Manager, device: string)
    requires Sound(m)
    ensures Sound(Cancelled(m, device))
  {
    hide Accounted;
  }

  lemma FannedOutSound(m: Manager, post: Post)
    requires Sound(m) && (post.list.Some? ==> post.list.value < |m.lists|)
    ensures Sound(FannedOut(m, post))
  {
    hide Accounted, InTime;
    if post.list.Some? {
      DeliverAllKeeps(m.lists, m.delivered, m.issued, post.list.value, post);
    }
  }

  lemma DispatchedSound(m: Manager, device: string, result: int, atOnce: bool)
    requires Sound(m)
    ensures Sound(Dispatched(m, device, result, atOnce))
  {
    hide Accounted, InTime;
    CancelledSound(m, device);
    if atOnce {
      FannedOutSound(Cancelled(m, device), Addressed(m, device, result));
    }
  }

  lemma ArrivedSound(m: Manager, k: nat)
    requires Sound(m) && k < |m.posts|
    ensures Sound(Arrived(m, k))
  {
    hide Accounted, InTime, FannedOut;
    FannedOutSound(m.(posts := m.posts[..k] + m.posts[k + 1..]), m.posts[k]);
  }

  lemma RanSound(m: Manager, id: nat, now: int)
    requires Sound(m) && id < |m.tasks| && m.tasks[id].due <= now
    ensures var task := Ran(m.tasks[id], now, Deadline(m, m.tasks[id].device));
            Sound(m.(tasks := m.tasks[id := task]))
  {
    hide Accounted, InTime;
    RanInTime(m.tasks[id], now, Deadline(m, m.tasks[id].device));
  }

  lemma TaskRunSound(m: Manager, id: nat, now: int, atOnce: bool)
    requires Sound(m) && id < |m.tasks| && m.tasks[id].due <= now
    ensures Sound(TaskRun(m, id, now, atOnce))
  {
    var device := m.tasks[id].device;
    var ran := m.(tasks := m.tasks[id := Ran(m.tasks[id], now, Deadline(m, device))]);
    RanSound(m, id, now);
    hide Accounted, InTime, Dispatched, Ran;
    DispatchedSound(ran, device, AWAKE_TIMEOUT, atOnce);
  }

  lemma ReadySound(m: Manager, device: string, start: int)
    requires Sound(m)
    ensures Sound(Ready(m, device, start))
  {
    ReadyLinked(m, device, start);
    ReadyPunctual(m, device, start);
    hide Accounted, Linked, Punctual;
  }

  lemma ReadyLinked(m: Manager, device: string, start: int)
    requires Linked(m)
    ensures Linked(Ready(m, device, start))
  {
  }

  lemma ReadyPunctual(m: Manager, device: string, start: int)
    requires Punctual(m)
    ensures Punctual(Ready(m, device, start))
  {
    assert InTime(NewTask(device, start));
    assert NewTask(device, start).allowed <= m.largest;
    hide InTime, NewTask;
  }

  lemma OnRecordSound(m: Manager, device: string, id: nat)
    requires Sound(m) && id < |m.tasks|
    ensures Sound(m.(wakeTasks := m.wakeTasks[device := id]))
  {
    hide Accounted, InTime;
  }

  lemma LaunchedSound(m: Manager, device: string, start: int, now: int, atOnce: bool)
    requires Sound(m) && start <= now
    ensures Sound(Launched(m, device, start, now, atOnce))
  {
    var ready, id := Ready(m, device, start), |m.tasks|;
    assert ready.tasks[id].due == start && id < |ready.tasks|;
    ReadySound(m, device, start);
    if atOnce {
      TaskRunSound(ready, id, now, atOnce);
      TaskRunTasks(ready, id, now, atOnce);
      hide TaskRun, Accounted, Linked, Punctual, Ready;
      OnRecordSound(TaskRun(ready, id, now, atOnce), device, id);
    } else {
      hide TaskRun, Accounted, Linked, Punctual, Ready;
      OnRecordSound(ready, device, id);
    }
  }

  /** What a run does to the tasks: the one that runs takes its step, and another task of the device
      can only be called off. */
  lemma TaskRunTasks(m: Manager, id: nat, now: int, atOnce: bool)
    requires Linked(m) && id < |m.tasks|
    ensures var tasks := TaskRun(m, id, now, atOnce).tasks;
            && |tasks| == |m.tasks|
            && tasks[id] == Ran(m.tasks[id], now, Deadline(m, m.tasks[id].device))
            && forall k :: 0 <= k < |tasks| && k != id ==>
                 tasks[k] == m.tasks[k] || tasks[k] == m.tasks[k].(pending := false)
  {
  }

  lemma CheckedSound(m: Manager, device: string, check: Check, atOnce: bool)
    requires Sound(m)
    ensures Sound(Checked(m, device, check, atOnce))
  {
    hide Accounted, InTime, Dispatched;
    DispatchedSound(m, device, UNSUPPORT, atOnce);
    if check.AlreadyAwake? {
      DispatchedSound(m.(awakeSince := m.awakeSince[device := check.since]), device, SUCCESS, atOnce);
    }
  }

  lemma WakeStartedSound(
    m: Manager, device: string, check: Check, start: int, now: int, atOnce: bool)
    requires Sound(m) && start <= now
    ensures Sound(WakeStarted(m, device, check, start, now, atOnce))
  {
    hide Accounted, Linked, Punctual, Dispatched, Launched, Checked;
    if check.Raises? {
      DispatchedSound(m, device, UNSUPPORT, atOnce);
    } else {
      CheckedSound(m, device, check, atOnce);
      LaunchedSound(Checked(m, device, check, atOnce), device, start, now, atOnce);
    }
  }

  lemma CalledSound(
    m: Manager, found: Lookup, callback: int, asked: int, check: Check, start: int, now: int,
    atOnce: bool)
    requires Sound(m) && start <= now
    ensures Sound(Called(m, found, callback, asked, check, start, now, atOnce))
  {
    hide Accounted, InTime, Registered, WakeStarted;
    var n := if found.Wakes? then Asked(m, asked) else m;
    assert Sound(n);
    if AtOnce(m, found).None? {
      RegisteredSound(n, found.device, callback);
      WakeStartedSound(Registered(n, found.device, callback), found.device, check, start, now, atOnce);
    }
  }

  lemma ReleasedSound(m: Manager, destroy: bool)
    requires Sound(m)
    ensures Sound(Released(m, destroy))
  {
  }

  // ------------------------------------------------------------------------------------------
  // Whole runs
  // ------------------------------------------------------------------------------------------

  /** What happens to the manager: a call, the arrival of a posted result, a run of a task that is
      due, or a release. */
  datatype Event =
    | Call(found: Lookup, callback: int, asked: int, check: Check, start: int, now: int)
    | Arrival(k: nat)
    | Tick(id: nat, now: int)
    | Release(destroy: bool)

  ghost predicate Enabled(m: Manager, e: Event) {
    match e
    case Call(_, _, _, _, start, now) => start <= now
    case Arrival(k) => k < |m.posts|
    case Tick(id, now) => id < |m.tasks| && m.tasks[id].pending && m.tasks[id].due <= now
    case Release(_) => true
  }

  ghost function Step(m: Manager, e: Event, atOnce: bool): Manager
    requires Linked(m) && Enabled(m, e)
  {
    match e
    case Call(found, callback, asked, check, start, now) =>
      Called(m, found, callback, asked, check, start, now, atOnce)
    case Arrival(k) => Arrived(m, k)
    case Tick(id, now) => TaskRun(m, id, now, atOnce)
    case Release(destroy) => Released(m, destroy)
  }

  lemma StepSound(m: Manager, e: Event, atOnce: bool)
    requires Sound(m) && Enabled(m, e)
    ensures Sound(Step(m, e, atOnce))
  {
    hide Called, Arrived, TaskRun, Released, Linked, Punctual, Accounted;
    match e
    case Call(found, callback, asked, check, start, now) =>
      CalledSound(m, found, callback, asked, check, start, now, atOnce);
    case Arrival(k) => ArrivedSound(m, k);
    case Tick(id, now) => TaskRunSound(m, id, now, atOnce);
    case Release(destroy) => ReleasedSound(m, destroy);
  }

  /** The states of a run: each is what a step makes of the one before it. */
  ghost predicate IsRun(states: seq<Manager>, events: seq<Event>, atOnce: bool) {
    && |states| == |events| + 1 && states[0] == FRESH
    && forall i :: 0 <= i < |events| ==> Follows(states[i], events[i], states[i + 1], atOnce)
  }

  ghost predicate Follows(m: Manager, e: Event, next: Manager, atOnce: bool) {
    Linked(m) && Enabled(m, e) && next == Step(m, e, atOnce)
  }

  lemma {:induction false} RunSound(states: seq<Manager>, events: seq<Event>, atOnce: bool, i: nat)
    requires IsRun(states, events, atOnce) && i < |states|
    ensures Sound(states[i])
  {
    if i == 0 {
      FreshIsSound();
    } else {
      RunSound(states, events, atOnce, i - 1);
      hide Step, Sound, Enabled, Linked;
      assert Follows(states[i - 1], events[i - 1], states[i - 1 + 1], atOnce);
      StepSound(states[i - 1], events[i - 1], atOnce);
    }
  }

  /** Over every run, with either kind of handler: no registration gets more than one result, one
      without a result still waits, and no task publishes more often than fits before its largest
      deadline. */
  lemma RunKeepsPromises(states: seq<Manager>, events: seq<Event>, atOnce: bool, i: nat)
    requires IsRun(states, events, atOnce) && i < |states|
    ensures var m := states[i];
            && (forall t: nat :: DeliveriesOf(m.delivered, t) <= 1)
            && (forall t: nat :: t < m.issued && DeliveriesOf(m.delivered, t) == 0 ==>
                  t in AllWaiting(m.lists))
            && (forall k :: 0 <= k < |m.tasks| ==>
                  m.tasks[k].published <= MostMessages(m.tasks[k].allowed)
                  && m.tasks[k].allowed <= m.largest)
  {
    RunSound(states, events, atOnce, i);
    var m := states[i];
    forall t: nat ensures DeliveriesOf(m.delivered, t) <= 1
                  && (t < m.issued && DeliveriesOf(m.delivered, t) == 0 ==>
                        t in AllWaiting(m.lists))
    {
      AtMostOneResult(m.lists, m.delivered, m.issued, t);
    }
  }

  // ------------------------------------------------------------------------------------------
  // What calls come to
  // ------------------------------------------------------------------------------------------

  /** A call is answered at once or its callback waits, never both, and it waits once only. */
  lemma CallAnsweredOrWaits(
    m: Manager, found: Lookup, callback: int, asked: int, check: Check, start: int, now: int,
    atOnce: bool)
    requires Sound(m)
    ensures var after := Called(m, found, callback, asked, check, start, now, atOnce);
            if AtOnce(m, found).Some?
            then after.answered == m.answered + [Direct(callback, AtOnce(m, found).value)]
                 && after.issued == m.issued && after.lists == m.lists
            else after.answered == m.answered
                 && after.issued ==
                      if found.device in m.callbacks
                         && Waits(m.lists[m.callbacks[found.device]].entries, callback)
                      then m.issued else m.issued + 1
  {
    hide Accounted, Punctual, Linked, Asked, Registered, WakeStarted, Waits;
    AskedLeaves(m, asked);
    if AtOnce(m, found).None? {
      RegisteredCounts(Asked(m, asked), found.device, callback);
      StartLeavesAnswers(Registered(Asked(m, asked), found.device, callback), found.device, check,
                         start, now, atOnce);
    }
  }

  lemma AskedLeaves(m: Manager, asked: int)
    ensures Asked(m, asked) == m.(timeout := Asked(m, asked).timeout,
                                  largest := Asked(m, asked).largest)
    ensures Linked(m) ==> Linked(Asked(m, asked))
  {
  }

  lemma RegisteredCounts(m: Manager, device: string, callback: int)
    requires Linked(m)
    ensures var after := Registered(m, device, callback);
            && Linked(after) && after.answered == m.answered
            && after.issued ==
                 if device in m.callbacks && Waits(m.lists[m.callbacks[device]].entries, callback)
                 then m.issued else m.issued + 1
  {
    hide Waits;
  }

  lemma RegisteredWaits(m: Manager, device: string, callback: int)
    requires Linked(m)
    ensures var after := Registered(m, device, callback);
            && Linked(after) && device in after.callbacks
            && Waits(after.lists[after.callbacks[device]].entries, callback)
            && after.tasks == m.tasks && after.posts == m.posts && after.delivered == m.delivered
            && after.wakeTasks == m.wakeTasks
  {
    RegisteredCounts(m, device, callback);
    var after := Registered(m, device, callback);
    var entries := after.lists[after.callbacks[device]].entries;
    hide Linked;
    if after != m {
      assert entries[|entries| - 1].callback == callback;
    }
  }

  lemma StartLeavesAnswers(
    m: Manager, device: string, check: Check, start: int, now: int, atOnce: bool)
    requires Linked(m)
    ensures var after := WakeStarted(m, device, check, start, now, atOnce);
            after.answered == m.answered && after.issued == m.issued
  {
    hide Dispatched, TaskRun, Checked;
    DispatchedLeavesAnswers(m, device, UNSUPPORT, atOnce);
    if !check.Raises? {
      CheckedLeavesAnswers(m, device, check, atOnce);
      var c := Checked(m, device, check, atOnce);
      if atOnce {
        RunLeavesAnswers(Ready(c, device, start), |c.tasks|, now, atOnce);
      }
    }
  }

  lemma DispatchedLeavesAnswers(m: Manager, device: string, result: int, atOnce: bool)
    requires Linked(m)
    ensures var after := Dispatched(m, device, result, atOnce);
            Linked(after) && after.answered == m.answered && after.issued == m.issued
  {
  }

  lemma CheckedLeavesAnswers(m: Manager, device: string, check: Check, atOnce: bool)
    requires Linked(m)
    ensures var after := Checked(m, device, check, atOnce);
            Linked(after) && after.answered == m.answered && after.issued == m.issued
  {
    hide Dispatched;
    DispatchedLeavesAnswers(m, device, UNSUPPORT, atOnce);
    if check.AlreadyAwake? {
      DispatchedLeavesAnswers(
        m.(awakeSince := m.awakeSince[device := check.since]), device, SUCCESS, atOnce);
    }
  }

  lemma RunLeavesAnswers(m: Manager, id: nat, now: int, atOnce: bool)
    requires Linked(m) && id < |m.tasks|
    ensures var after := TaskRun(m, id, now, atOnce);
            after.answered == m.answered && after.issued == m.issued
  {
    hide Dispatched, Ran;
    var device := m.tasks[id].device;
    DispatchedLeavesAnswers(m.(tasks := m.tasks[id := Ran(m.tasks[id], now, Deadline(m, device))]),
                            device, AWAKE_TIMEOUT, atOnce);
  }

  /** A task goes on record when it is launched. It is still alive then, unless a handler that runs
      it at once finds its deadline over. */
  lemma LaunchedAliveIff(m: Manager, device: string, start: int, now: int, atOnce: bool)
    requires Linked(m)
    ensures var after := Launched(m, device, start, now, atOnce);
            && device in after.wakeTasks && after.wakeTasks[device] == |m.tasks| < |after.tasks|
            && after.tasks[|m.tasks|].device == device
            && (after.tasks[|m.tasks|].pending <==>
                  !atOnce || now - start < if device in m.deadlines then m.deadlines[device]
                                           else m.timeout)
  {
    if atOnce {
      TaskRunTasks(Ready(m, device, start), |m.tasks|, now, atOnce);
    }
  }

  /** With a task on record, alive or not, a call that is not answered at once starts nothing. */
  lemma WaitsForRecord(
    m: Manager, found: Lookup, callback: int, asked: int, check: Check, start: int, now: int,
    atOnce: bool)
    requires Linked(m) && AtOnce(m, found).None? && found.device in m.wakeTasks
    ensures var after := Called(m, found, callback, asked, check, start, now, atOnce);
            && after.tasks == m.tasks && after.posts == m.posts && after.delivered == m.delivered
            && found.device in after.callbacks
            && Waits(after.lists[after.callbacks[found.device]].entries, callback)
  {
    hide Linked, Asked, Registered, Waits, WakeStarted;
    AskedLeaves(m, asked);
    RegisteredWaits(Asked(m, asked), found.device, callback);
  }

  // ------------------------------------------------------------------------------------------
  // The manager as the program keeps it
  // ------------------------------------------------------------------------------------------

  /** The list without the first entry of a callback. */
  function RemoveFirst(entries: seq<Entry>, callback: int): (r: seq<Entry>)
    ensures entries != [] && entries[0].callback == callback ==> r == entries[1..]
  {
    if entries == [] then []
    else if entries[0].callback == callback then entries[1..]
    else [entries[0]] + RemoveFirst(entries[1..], callback)
  }

  class LowPowerDeviceManager {
    /** Whether the handler runs what is posted to it at once. */
    const atOnce: bool
    var callbacks: map<string, nat>
    var lists: seq<Waiting>
    var posts: seq<Post>
    var delivered: seq<Delivery>
    var issued: nat
    var answered: seq<Direct>
    var timeout: int
    ghost var largest: int
    var deadlines: map<string, int>
    var tasks: seq<Task>
    var wakeTasks: map<string, nat>
    var awakeSince: map<string, int>
    var sent: seq<string>

    ghost function State(): Manager
      reads this
    {
      Manager(callbacks, lists, posts, delivered, issued, answered, timeout, largest, deadlines,
              tasks, wakeTasks, awakeSince, sent)
    }

    ghost predicate Valid()
      reads this
    {
      Sound(State())
    }

    constructor (atOnce: bool)
      ensures Valid() && State() == FRESH && this.atOnce == atOnce
    {
      this.atOnce := atOnce;
      callbacks, lists, posts, delivered, issued, answered := map[], [], [], [], 0, [];
      timeout, largest, deadlines := DEFAULT_TIMEOUT, DEFAULT_TIMEOUT, map[];
      tasks, wakeTasks, awakeSince, sent := [], map[], map[], [];
    }

    /** A callback that already waits is not registered again. */
    method RegisterCallback(device: string, callback: int)
      requires Valid()
      modifies this
      ensures Valid() && State() == Registered(old(State()), device, callback)
    {
      hide Accounted, Punctual, Waits;
      if device in callbacks {
        var waits := Waits(lists[callbacks[device]].entries, callback);
        if !waits {
          JoinList(device, callback);
        }
      } else {
        NewList(device, callback);
      }
    }

    method JoinList(device: string, callback: int)
      requires Valid() && device in callbacks
      requires !Waits(lists[callbacks[device]].entries, callback)
      modifies this`lists, this`issued
      ensures Valid() && State() == Registered(old(State()), device, callback)
    {
      RegisteredSound(State(), device, callback);
      hide Sound, Waits;
      var i := callbacks[device];
      lists := lists[i := Waiting(device, lists[i].entries + [Entry(callback, issued)])];
      issued := issued + 1;
    }

    method NewList(device: string, callback: int)
      requires Valid() && device !in callbacks
      modifies this`callbacks, this`lists, this`issued
      ensures Valid() && State() == Registered(old(State()), device, callback)
    {
      RegisteredSound(State(), device, callback);
      NewlyRegistered(State(), device, callback);
      hide Sound, Linked, Waits, Registered;
      callbacks := callbacks[device := |lists|];
      lists := lists + [Waiting(device, [Entry(callback, issued)])];
      issued := issued + 1;
    }

    /** Everyone in the list gets the result, one after the other, and leaves the list. */
    method FanOut(post: Post)
      requires post.list.Some? ==> post.list.value < |lists|
      modifies this`lists, this`delivered
      ensures State() == FannedOut(old(State()), post)
    {
      if post.list.None? {
        return;
      }
      var i := post.list.value;
      var snapshot := lists[i].entries;
      ghost var before, told := lists, delivered;
      assert before[i := before[i].(entries := snapshot[0..])] == before;
      assert told + Deliveries(snapshot[..0], post) == told;
      for n := 0 to |snapshot|
        invariant lists == before[i := before[i].(entries := snapshot[n..])]
        invariant delivered == told + Deliveries(snapshot[..n], post)
      {
        var e := snapshot[n];
        assert lists[i].entries[0] == e && snapshot[n..][1..] == snapshot[n + 1..];
        NextDelivery(snapshot, post, n);
        delivered := delivered + [Delivery(e.ticket, post.device, post.result)];
        lists := lists[i := lists[i].(entries := RemoveFirst(lists[i].entries, e.callback))];
      }
      assert snapshot[..|snapshot|] == snapshot && snapshot[|snapshot|..] == [];
    }

    /** Calls the task of the device off. */
    method Cancel(device: string)
      requires Valid()
      modifies this
      ensures Valid() && State() == Cancelled(old(State()), device)
    {
      CancelledSound(State(), device);
      hide Accounted, Punctual;
      if device in wakeTasks {
        var id := wakeTasks[device];
        tasks := tasks[id := tasks[id].(pending := false)];
      }
      wakeTasks := wakeTasks - {device};
      deadlines := deadlines - {device};
    }

    method DispatchResult(device: string, result: int)
      requires Valid()
      modifies this
      ensures Valid() && State() == Dispatched(old(State()), device, result, atOnce)
    {
      DispatchedSound(State(), device, result, atOnce);
      CancelledSound(State(), device);
      AddressedThere(State(), device, result);
      hide Accounted, Punctual, Linked, Cancelled, FannedOut;
      Cancel(device);
      var list := if device in callbacks then Some(callbacks[device]) else None;
      var post := Post(list, device, result);
      if atOnce {
        FanOut(post);
      } else {
        posts := posts + [post];
      }
    }

    /** A posted result comes up; with a slow handler this may be any of those that wait. */
    method Arrive(k: nat)
      requires Valid() && k < |posts|
      modifies this
      ensures Valid() && State() == Arrived(old(State()), k)
    {
      ArrivedSound(State(), k);
      hide Accounted, Punctual, Deliveries;
      var post := posts[k];
      posts := posts[..k] + posts[k + 1..];
      FanOut(post);
    }

    method RunTask(id: nat, now: int)
      requires Valid() && id < |tasks| && tasks[id].pending && tasks[id].due <= now
      modifies this
      ensures Valid() && State() == TaskRun(old(State()), id, now, atOnce)
    {
      TaskRunSound(State(), id, now, atOnce);
      RanSound(State(), id, now);
      hide Accounted, Punctual, Dispatched, Ran, Linked;
      var t := tasks[id];
      var deadline := if t.device in deadlines then deadlines[t.device] else 0;
      if now - t.start < deadline {
        sent := sent + [t.device];
        tasks := tasks[id := Ran(t, now, deadline)];
        return;
      }
      tasks := tasks[id := Ran(t, now, deadline)];
      DispatchResult(t.device, AWAKE_TIMEOUT);
    }

    method CheckAwakeStatus(device: string, check: Check)
      requires Valid() && !check.Raises?
      modifies this
      ensures Valid() && State() == Checked(old(State()), device, check, atOnce)
    {
      hide Accounted, Linked, Punctual, Dispatched;
      match check {
        case NoResult => DispatchResult(device, UNSUPPORT);
        case AlreadyAwake(since) =>
          NewsSound(State(), device, since);
          awakeSince := awakeSince[device := since];
          DispatchResult(device, SUCCESS);
        case _ =>
      }
    }

    method LaunchTask(device: string, start: int, now: int)
      requires Valid() && start <= now
      modifies this
      ensures Valid() && State() == Launched(old(State()), device, start, now, atOnce)
    {
      LaunchedSound(State(), device, start, now, atOnce);
      ReadySound(State(), device, start);
      hide Accounted, Punctual, TaskRun;
      if device !in deadlines {
        deadlines := deadlines[device := timeout];
      }
      var id := |tasks|;
      tasks := tasks + [NewTask(device, start)];
      if atOnce {
        RunTask(id, now);
      }
      wakeTasks := wakeTasks[device := id];
    }

    method StartWakeTask(device: string, check: Check, start: int, now: int)
      requires Valid() && start <= now
      modifies this
      ensures Valid() && State() == WakeStarted(old(State()), device, check, start, now, atOnce)
    {
      hide Accounted, Linked, Punctual, Dispatched, Checked, Launched;
      if check.Raises? {
        DispatchResult(device, UNSUPPORT);
        return;
      }
      CheckAwakeStatus(device, check);
      LaunchTask(device, start, now);
    }

    /** The entry: a call is answered at once, or its callback is registered and a task started
        unless one is on record. */
    method Awake(found: Lookup, callback: int, asked: int, check: Check, start: int, now: int)
      requires Valid() && start <= now
      modifies this
      ensures Valid()
      ensures State() == Called(old(State()), found, callback, asked, check, start, now, atOnce)
    {
      hide Accounted, Linked, Punctual, Woken, Asked;
      match found {
        case NoDevice => Answer(callback, Error("1001"));
        case NoResponse => Answer(callback, Error("1002"));
        case NoNode => Answer(callback, Success(UNSUPPORT));
        case NoProduct => Answer(callback, Error("1003"));
        case Virtual => Answer(callback, Success(SUCCESS));
        case NotLowPower => Answer(callback, Success(UNSUPPORT));
        case Wakes(device, cloudOnline, lastUpdate) =>
          SetTimeout(asked);
          if device in awakeSince && cloudOnline && lastUpdate >= awakeSince[device] {
            AnswerKnownAwake(device, callback);
          } else {
            Wake(device, callback, check, start, now);
          }
      }
    }

    /** The device is awake already: it gets one more message, and the caller its answer. */
    method AnswerKnownAwake(device: string, callback: int)
      requires Valid()
      modifies this`sent, this`answered
      ensures Valid()
      ensures State() == old(State()).(sent := old(sent) + [device],
                                       answered := old(answered) + [Direct(callback, Success(SUCCESS))])
    {
      hide Accounted, Linked, Punctual;
      LogsSound(State(), sent + [device], answered + [Direct(callback, Success(SUCCESS))]);
      sent := sent + [device];
      answered := answered + [Direct(callback, Success(SUCCESS))];
    }

    method Answer(callback: int, reply: Reply)
      requires Valid()
      modifies this`answered
      ensures Valid()
      ensures State() == old(State()).(answered := old(answered) + [Direct(callback, reply)])
    {
      hide Accounted, Linked, Punctual;
      LogsSound(State(), sent, answered + [Direct(callback, reply)]);
      answered := answered + [Direct(callback, reply)];
    }

    method SetTimeout(asked: int)
      requires Valid()
      modifies this`timeout, this`largest
      ensures Valid() && State() == Asked(old(State()), asked)
    {
      AskedSound(State(), asked);
      hide Accounted, Linked, Punctual;
      if asked > 0 {
        timeout := asked;
        largest := if asked > largest then asked else largest;
      }
    }

    method Wake(device: string, callback: int, check: Check, start: int, now: int)
      requires Valid() && start <= now
      modifies this
      ensures Valid()
      ensures State() == Woken(old(State()), device, callback, check, start, now, atOnce)
    {
      RegisteredWaits(State(), device, callback);
      hide Accounted, Linked, Punctual, WakeStarted, Registered;
      RegisterCallback(device, callback);
      if device in wakeTasks {
        return;
      }
      StartWakeTask(device, check, start, now);
    }

    method ReleaseAll(destroy: bool)
      requires Valid()
      modifies this
      ensures Valid() && State() == Released(old(State()), destroy)
    {
      ReleasedSound(State(), destroy);
      hide Accounted, Linked, Punctual;
      wakeTasks := map[];
      if destroy {
        callbacks := map[];
      }
      awakeSince, deadlines := map[], map[];
    }
  }

  lemma NewlyRegistered(m: Manager, device: string, callback: int)
    requires Linked(m) && device !in m.callbacks
    ensures Registered(m, device, callback) ==
      m.(callbacks := m.callbacks[device := |m.lists|], issued := m.issued + 1,
         lists := m.lists + [Waiting(device, [Entry(callback, m.issued)])])
  {
  }

  lemma AddressedThere(m: Manager, device: string, result: int)
    requires Linked(m)
    ensures var post, c := Addressed(m, device, result), Cancelled(m, device);
            && c.callbacks == m.callbacks && |c.lists| == |m.lists|
            && (post.list.Some? ==> post.list.value < |m.lists|)
  {
  }

  lemma NewsSound(m: Manager, device: string, since: int)
    requires Sound(m)
    ensures Sound(m.(awakeSince := m.awakeSince[device := since]))
  {
    hide Accounted;
  }

  lemma AskedSound(m: Manager, asked: int)
    requires Sound(m)
    ensures Sound(Asked(m, asked))
  {
    hide Accounted;
  }

  lemma LogsSound(m: Manager, sent: seq<string>, answered: seq<Direct>)
    requires Sound(m)
    ensures Sound(m.(sent := sent, answered := answered))
  {
    hide Accounted;
  }

  // ------------------------------------------------------------------------------------------
  // Steps, part by part
  // ------------------------------------------------------------------------------------------

  /** Whether a callback stands in the list that a device has, if it has one. */
  ghost predicate IsWaiting(m: Manager, device: string, callback: int)
    requires Linked(m)
  {
    device in m.callbacks
    && exists i :: 0 <= i < |m.lists[m.callbacks[device]].entries|
                   && m.lists[m.callbacks[device]].entries[i].callback == callback
  }

  /** A callback joins the list of its device at the end, unless it stands there; a device without a
      list gets a new one. */
  lemma RegistrationIs(m: Manager, device: string, callback: int)
    requires Linked(m)
    ensures var after := Registered(m, device, callback);
            && (IsWaiting(m, device, callback) ==> after == m)
            && (!IsWaiting(m, device, callback) && device in m.callbacks ==>
                  var i := m.callbacks[device];
                  && after == m.(lists := after.lists, issued := m.issued + 1)
                  && |after.lists| == |m.lists|
                  && after.lists[i].device == device
                  && after.lists[i].entries == m.lists[i].entries + [Entry(callback, m.issued)]
                  && forall j :: 0 <= j < |m.lists| && j != i ==> after.lists[j] == m.lists[j])
            && (device !in m.callbacks ==>
                  && after == m.(callbacks := m.callbacks[device := |m.lists|],
                                 lists := after.lists, issued := m.issued + 1)
                  && after.lists == m.lists + [Waiting(device, [Entry(callback, m.issued)])])
  {
  }

  /** A result for a device calls its task off, forgets its deadline, and goes to the list it has at
      that time: to everyone in it at once and in order, or on its way. */
  lemma DispatchIs(m: Manager, device: string, result: int, atOnce: bool)
    requires Linked(m)
    ensures var after := Dispatched(m, device, result, atOnce);
            && after == m.(wakeTasks := m.wakeTasks - {device}, deadlines := m.deadlines - {device},
                           tasks := after.tasks, lists := after.lists, posts := after.posts,
                           delivered := after.delivered)
            && |after.tasks| == |m.tasks|
            && (forall k :: 0 <= k < |m.tasks| ==>
                  after.tasks[k] == if device in m.wakeTasks && m.wakeTasks[device] == k
                                    then m.tasks[k].(pending := false) else m.tasks[k])
            && (!atOnce ==>
                  && after.lists == m.lists && after.delivered == m.delivered
                  && |after.posts| == |m.posts| + 1 && after.posts[..|m.posts|] == m.posts
                  && after.posts[|m.posts|].device == device
                  && after.posts[|m.posts|].result == result
                  && after.posts[|m.posts|].list
                     == (if device in m.callbacks then Some(m.callbacks[device]) else None))
            && (atOnce && device !in m.callbacks ==>
                  after.posts == m.posts && after.lists == m.lists && after.delivered == m.delivered)
            && (atOnce && device in m.callbacks ==>
                  && after.posts == m.posts
                  && Told(m, after, m.callbacks[device], device, result))
  {
    hide Deliveries;
    if atOnce && device in m.callbacks {
      ToldAll(m, m.callbacks[device], device, result);
    }
  }

  /** Everyone in list i has been told, in order, and the list is empty; other lists are as they
      were. */
  ghost predicate Told(m: Manager, after: Manager, i: nat, device: string, result: int)
    requires i < |m.lists|
  {
    var entries := m.lists[i].entries;
    && |after.lists| == |m.lists| && after.lists[i] == Waiting(m.lists[i].device, [])
    && (forall j :: 0 <= j < |m.lists| && j != i ==> after.lists[j] == m.lists[j])
    && |after.delivered| == |m.delivered| + |entries|
    && after.delivered[..|m.delivered|] == m.delivered
    && forall n :: 0 <= n < |entries| ==>
         after.delivered[|m.delivered| + n] == Delivery(entries[n].ticket, device, result)
  }

  lemma ToldAll(m: Manager, i: nat, device: string, result: int)
    requires i < |m.lists|
    ensures forall after: Manager ::
              && after.lists == m.lists[i := m.lists[i].(entries := [])]
              && after.delivered
                 == m.delivered + Deliveries(m.lists[i].entries, Post(Some(i), device, result))
              ==> Told(m, after, i, device, result)
  {
  }

  /** A result that comes up reaches those who stand in its list by then, whatever has become of the
      registry since it was posted. */
  lemma ArrivalIs(m: Manager, k: nat)
    requires Linked(m) && k < |m.posts|
    ensures var after, post := Arrived(m, k), m.posts[k];
            && after == m.(posts := m.posts[..k] + m.posts[k + 1..], lists := after.lists,
                           delivered := after.delivered)
            && (post.list.None? ==> after.lists == m.lists && after.delivered == m.delivered)
            && (post.list.Some? ==> Told(m, after, post.list.value, post.device, post.result))
  {
    hide Deliveries, Told;
    var post := m.posts[k];
    if post.list.Some? {
      ToldAll(m, post.list.value, post.device, post.result);
    }
  }

  /** A task that runs before its deadline sends one message and is due a second later; one without a
      deadline, or past it, is over, and a time-out is dispatched. */
  lemma RunIs(m: Manager, id: nat, now: int, atOnce: bool)
    requires Linked(m) && id < |m.tasks|
    ensures var t := m.tasks[id];
            var after := TaskRun(m, id, now, atOnce);
            if (t.device in m.deadlines && now < t.start + m.deadlines[t.device])
               || (t.device !in m.deadlines && now < t.start)
            then
              && after == m.(sent := m.sent + [t.device], tasks := after.tasks)
              && |after.tasks| == |m.tasks|
              && after.tasks[id] == Task(t.device, t.start, t.published + 1, after.tasks[id].allowed,
                                         now + 1000, t.pending)
              && forall k :: 0 <= k < |m.tasks| && k != id ==> after.tasks[k] == m.tasks[k]
            else
              after == Dispatched(m.(tasks := m.tasks[id := t.(pending := false)]), t.device, 3, atOnce)
  {
    hide Dispatched;
  }

  /** A launched task gets the time-out in force as its deadline, unless its device has one; a handler
      that does not wait runs it before it goes on record. */
  lemma LaunchIs(m: Manager, device: string, start: int, now: int, atOnce: bool)
    requires Linked(m)
    ensures var deadline := if device in m.deadlines then m.deadlines[device] else m.timeout;
            var ready := m.(deadlines := m.deadlines[device := deadline],
                            tasks := m.tasks + [Task(device, start, 0, 0, start, true)]);
            var after := Launched(m, device, start, now, atOnce);
            && (!atOnce ==> after == ready.(wakeTasks := m.wakeTasks[device := |m.tasks|]))
            && (atOnce ==> Linked(ready)
                           && var ran := TaskRun(ready, |m.tasks|, now, true);
                              after == ran.(wakeTasks := ran.wakeTasks[device := |m.tasks|]))
  {
    hide TaskRun;
    var deadline := if device in m.deadlines then m.deadlines[device] else m.timeout;
    assert device in m.deadlines ==> m.deadlines[device := deadline] == m.deadlines;
  }

  /** What is known of the device without asking settles a call, each case with its own answer; a call
      for a sleeping device is not answered. */
  lemma SettledCall(
    m: Manager, found: Lookup, callback: int, asked: int, check: Check, start: int, now: int,
    atOnce: bool)
    requires Linked(m) && !found.Wakes?
    ensures var after := Called(m, found, callback, asked, check, start, now, atOnce);
            && |after.answered| == |m.answered| + 1
            && after == m.(answered := after.answered)
            && after.answered[..|m.answered|] == m.answered
            && var reply := after.answered[|m.answered|].reply;
               && after.answered[|m.answered|].callback == callback
               && (reply == Error("1001") <==> found == NoDevice)
               && (reply == Error("1002") <==> found == NoResponse)
               && (reply == Error("1003") <==> found == NoProduct)
               && (reply == Success(2) <==> found == Virtual)
               && (reply == Success(1) <==> found == NoNode || found == NotLowPower)
  {
  }

  /** The device is on record as awake, and what the cloud last heard of it is no older. */
  predicate OnRecord(m: Manager, found: Lookup)
    requires found.Wakes?
  {
    found.device in m.awakeSince && found.cloudOnline && m.awakeSince[found.device] <= found.lastUpdate
  }

  /** What a call asks for as its time-out stays in force. */
  function Timed(m: Manager, asked: int): Manager {
    m.(timeout := if asked > 0 then asked else m.timeout,
       largest := if asked > 0 && asked > m.largest then asked else m.largest)
  }

  /** A call for a device of low power that is on record as awake: it gets a message, and the caller
      success. */
  lemma AwakeCall(
    m: Manager, found: Lookup, callback: int, asked: int, check: Check, start: int, now: int,
    atOnce: bool)
    requires Linked(m) && found.Wakes? && OnRecord(m, found)
    ensures Called(m, found, callback, asked, check, start, now, atOnce)
         == Timed(m, asked).(sent := m.sent + [found.device],
                             answered := m.answered + [Direct(callback, Success(2))])
  {
  }

  /** For any other device of low power the callback waits, and a task is started if none is on
      record. */
  lemma WakingCall(
    m: Manager, found: Lookup, callback: int, asked: int, check: Check, start: int, now: int,
    atOnce: bool)
    requires Linked(m) && found.Wakes? && !OnRecord(m, found)
    ensures Linked(Timed(m, asked))
    ensures var r := Registered(Timed(m, asked), found.device, callback);
            && Linked(r)
            && Called(m, found, callback, asked, check, start, now, atOnce)
               == if found.device in m.wakeTasks then r
                  else WakeStarted(r, found.device, check, start, now, atOnce)
  {
    hide Linked, Registered, WakeStarted, Waits;
    assert Asked(m, asked) == Timed(m, asked);
    AskedLeaves(m, asked);
    RegisteredWaits(Asked(m, asked), found.device, callback);
    hide Asked, Timed;
  }

  /** To start a task the cloud is asked: no answer and a failure to ask are told as unsupported, awake
      as success. A task is launched whatever the answer, unless asking failed. */
  lemma StartIs(m: Manager, device: string, check: Check, start: int, now: int, atOnce: bool)
    requires Linked(m)
    ensures Linked(Dispatched(m, device, 1, atOnce))
    ensures check.Raises? ==>
              WakeStarted(m, device, check, start, now, atOnce) == Dispatched(m, device, 1, atOnce)
    ensures check.NoResult? ==>
              WakeStarted(m, device, check, start, now, atOnce)
              == Launched(Dispatched(m, device, 1, atOnce), device, start, now, atOnce)
    ensures check.AlreadyAwake? ==>
              var known := m.(awakeSince := m.awakeSince[device := check.since]);
              && Linked(known) && Linked(Dispatched(known, device, 2, atOnce))
              && WakeStarted(m, device, check, start, now, atOnce)
                 == Launched(Dispatched(known, device, 2, atOnce), device, start, now, atOnce)
    ensures check.Failed? || check.StillAsleep? ==>
              WakeStarted(m, device, check, start, now, atOnce)
              == Launched(m, device, start, now, atOnce)
  {
    hide Linked, Dispatched, Launched;
    DispatchedLeavesAnswers(m, device, 1, atOnce);
    if check.AlreadyAwake? {
      var known := m.(awakeSince := m.awakeSince[device := check.since]);
      StillLinked(m, known.awakeSince);
      DispatchedLeavesAnswers(known, device, 2, atOnce);
    }
  }

  lemma StillLinked(m: Manager, awakeSince: map<string, int>)
    requires Linked(m)
    ensures Linked(m.(awakeSince := awakeSince))
  {
  }

  /** A release forgets tasks, deadlines and who is awake, but calls no task off; the registry goes
      only at the end, and callbacks in the lists stay there. */
  lemma ReleaseIs(m: Manager, destroy: bool)
    ensures var after := Released(m, destroy);
            && (forall device :: device !in after.wakeTasks && device !in after.deadlines
                                 && device !in after.awakeSince)
            && (forall device :: device in after.callbacks <==> !destroy && device in m.callbacks)
            && (!destroy ==> after.callbacks == m.callbacks)
            && after.lists == m.lists && after.tasks == m.tasks && after.posts == m.posts
            && after.delivered == m.delivered && after.timeout == m.timeout && after.sent == m.sent
  {
  }
}
