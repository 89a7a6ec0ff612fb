/** The read-modify-write operations of the client on the packed data points, alone and interleaved
    under the client's mutation lock. The transport is a register for each data point. */
module ClientUpdates {
  import opened Options
  import opened Bytes
  import opened Dp102
  import Dp102Updates
  import opened Dp104
  import opened Dp105

  datatype Registers = Registers(
    system: Option<bytes>, dustbin: Option<bytes>, keys: Option<bytes>)

  datatype Operation =
    | MutateSystem(mutate: SystemSettings -> SystemSettings)
    | UpdateDustbin(change: DustbinSettings -> DustbinSettings)
    | SetKeyLock(key: int, locked: bool)
    | SetAllKeysLocked(all: bool)

  /** The registers after the operation, or nothing where the client refuses to overwrite settings
      it could not read. */
  function Perform(op: Operation, r: Registers): Option<Registers> {
    match op
    case MutateSystem(mutate) =>
      (match Decode(r.system)
       case None => None
       case Some(current) => Some(r.(system := Some(Encoded(mutate(current))))))
    case UpdateDustbin(change) =>
      (match DecodeDustbin(r.dustbin)
       case None => None
       case Some(current) => Some(r.(dustbin := Some(EncodedDustbin(change(current))))))
    case SetKeyLock(key, locked) =>
      (match DecodeKeys(r.keys)
       case None => None
       case Some(current) => Some(r.(keys := Some(EncodedKeys(WithKeyLock(current, key, locked))))))
    case SetAllKeysLocked(all) =>
      (match DecodeKeys(r.keys)
       case None => None
       case Some(current) => Some(r.(keys := Some(EncodedKeys(AllKeysLocked(current, all))))))
  }

  /** The client as one caller at a time sees it. */
  class Client {
    var registers: Registers

    constructor (registers: Registers)
      ensures this.registers == registers
    {
      this.registers := registers;
    }

    method MutateSystemSettings(mutate: SystemSettings -> SystemSettings)
      returns (updated: Option<SystemSettings>)
      modifies this
      ensures updated == match Decode(old(registers).system)
                         case None => None
                         case Some(current) => Some(mutate(current))
      ensures registers == Or(Perform(MutateSystem(mutate), old(registers)), old(registers))
    {
      var current := Decode(registers.system);
      if current.None? {
        return None;
      }
      var settings := mutate(current.value);
      var payload := EncodeDp102(settings);
      registers := registers.(system := Some(payload));
      return Some(settings);
    }

    method UpdateDustbinSettings(change: DustbinSettings -> DustbinSettings)
      returns (updated: Option<DustbinSettings>)
      modifies this
      ensures updated == match DecodeDustbin(old(registers).dustbin)
                         case None => None
                         case Some(current) => Some(change(current))
      ensures registers == Or(Perform(UpdateDustbin(change), old(registers)), old(registers))
    {
      var current := DecodeDustbin(registers.dustbin);
      if current.None? {
        return None;
      }
      var settings := change(current.value);
      var payload := EncodeDp104(settings);
      registers := registers.(dustbin := Some(payload));
      return Some(settings);
    }

    method SetKeyLocked(key: int, locked: bool) returns (updated: Option<KeySettings>)
      modifies this
      ensures updated == match DecodeKeys(old(registers).keys)
                         case None => None
                         case Some(current) => Some(WithKeyLock(current, key, locked))
      ensures registers == Or(Perform(SetKeyLock(key, locked), old(registers)), old(registers))
    {
      var current := DecodeKeys(registers.keys);
      if current.None? {
        return None;
      }
      var settings := WithKeyLock(current.value, key, locked);
      registers := registers.(keys := Some(EncodedKeys(settings)));
      return Some(settings);
    }

    method SetAllLocked(all: bool) returns (updated: Option<KeySettings>)
      modifies this
      ensures updated == match DecodeKeys(old(registers).keys)
                         case None => None
                         case Some(current) => Some(AllKeysLocked(current, all))
      ensures registers == Or(Perform(SetAllKeysLocked(all), old(registers)), old(registers))
    {
      var current := DecodeKeys(registers.keys);
      if current.None? {
        return None;
      }
      var settings := AllKeysLocked(current.value, all);
      registers := registers.(keys := Some(EncodedKeys(settings)));
      return Some(settings);
    }
  }

  // ------------------------------------------------------------------------------------------
  // Many callers at once
  // ------------------------------------------------------------------------------------------

  /** How far a caller has come. It read the payloads kept in Loaded; it may fail, by a refused
      payload or a transport error, at any await, and an error of the write leaves open whether the
      write arrived. */
  datatype Phase =
    | Waiting
    | Holding
    | Loaded(seen: Registers)
    | Written
    | Done
    | Failed(landed: bool)

  datatype Task = Task(op: Operation, phase: Phase)

  datatype Event =
    | Acquire(id: nat)
    | ReadRegisters(id: nat)
    | Write(id: nat)
    | Release(id: nat)
    | ReadError(id: nat)
    | WriteError(id: nat, arrived: bool)

  /** The registers, the lock, the callers, and the order in which they got the lock. */
  datatype World = World(
    registers: Registers, lock: Option<nat>, tasks: seq<Task>, acquired: seq<nat>)

  function Start(registers: Registers, ops: seq<Operation>): World {
    World(registers, None,
          seq(|ops|, i requires 0 <= i < |ops| => Task(ops[i], Waiting)), [])
  }

  predicate HoldsLock(phase: Phase) {
    phase.Holding? || phase.Loaded? || phase.Written?
  }

  predicate Landed(task: Task) {
    task.phase.Written? || task.phase.Done? || (task.phase.Failed? && task.phase.landed)
  }

  predicate Enabled(w: World, e: Event) {
    && e.id < |w.tasks|
    && var phase := w.tasks[e.id].phase;
       match e
       case Acquire(_) => w.lock.None? && phase.Waiting?
       case ReadRegisters(_) => phase.Holding?
       case Write(_) => phase.Loaded?
       case Release(_) => phase.Written?
       case ReadError(_) => phase.Holding?
       case WriteError(_, _) => phase.Loaded?
  }

  function SetPhase(w: World, id: nat, phase: Phase): seq<Task>
    requires id < |w.tasks|
  {
    w.tasks[id := w.tasks[id].(phase := phase)]
  }

  /** One step. A write stores what the caller computed from the payloads it read earlier, whatever
      the registers hold by now. */
  function Step(w: World, e: Event): World
    requires Enabled(w, e)
  {
    var task := w.tasks[e.id];
    match e
    case Acquire(id) =>
      w.(lock := Some(id), tasks := SetPhase(w, id, Holding), acquired := w.acquired + [id])
    case ReadRegisters(id) =>
      if Perform(task.op, w.registers).None? then
        w.(lock := None, tasks := SetPhase(w, id, Failed(false)))
      else w.(tasks := SetPhase(w, id, Loaded(w.registers)))
    case Write(id) =>
      w.(registers := Stored(task.op, task.phase.seen, w.registers),
         tasks := SetPhase(w, id, Written))
    case Release(id) => w.(lock := None, tasks := SetPhase(w, id, Done))
    case ReadError(id) => w.(lock := None, tasks := SetPhase(w, id, Failed(false)))
    case WriteError(id, arrived) =>
      w.(lock := None, tasks := SetPhase(w, id, Failed(arrived)),
         registers := if arrived then Stored(task.op, task.phase.seen, w.registers)
                      else w.registers)
  }

  /** Only the operation's own data point is written, with the value computed from what was read. */
  function Stored(op: Operation, seen: Registers, now: Registers): Registers {
    match Perform(op, seen)
    case None => now
    case Some(computed) =>
      if op.MutateSystem? then now.(system := computed.system)
      else if op.UpdateDustbin? then now.(dustbin := computed.dustbin)
      else now.(keys := computed.keys)
  }

  predicate IsRun(w: World, events: seq<Event>)
    decreases |events|
  {
    events == [] || (Enabled(w, events[0]) && IsRun(Step(w, events[0]), events[1..]))
  }

  function Outcome(w: World, events: seq<Event>): World
    requires IsRun(w, events)
    decreases |events|
  {
    if events == [] then w else Outcome(Step(w, events[0]), events[1..])
  }

  /** The operations whose write landed, one after the other in the order of the lock. */
  function Replay(registers: Registers, tasks: seq<Task>, order: seq<nat>): Registers
    requires forall i :: 0 <= i < |order| ==> order[i] < |tasks|
  {
    if order == [] then registers
    else
      var before := Replay(registers, tasks, order[..|order| - 1]);
      var task := tasks[order[|order| - 1]];
      if Landed(task) then Or(Perform(task.op, before), before) else before
  }

  lemma {:induction false} ReplaySame(
    registers: Registers, tasks: seq<Task>, tasks': seq<Task>, order: seq<nat>)
    requires |tasks| == |tasks'|
    requires forall i :: 0 <= i < |order| ==> order[i] < |tasks|
    requires forall i :: 0 <= i < |order| ==>
               tasks[order[i]].op == tasks'[order[i]].op
               && Landed(tasks[order[i]]) == Landed(tasks'[order[i]])
    ensures Replay(registers, tasks, order) == Replay(registers, tasks', order)
  {
    hide Perform;
    if order != [] {
      ReplaySame(registers, tasks, tasks', order[..|order| - 1]);
    }
  }

  /** The lock is held by exactly the one caller that is between acquiring and releasing, which got
      it last; what that caller has read is what the registers still hold; and the registers are the
      replay of the landed operations in lock order. */
  ghost predicate Inv(start: Registers, w: World) {
    && (forall i :: 0 <= i < |w.acquired| ==> w.acquired[i] < |w.tasks|)
    && (forall i, j :: 0 <= i < j < |w.acquired| ==> w.acquired[i] != w.acquired[j])
    && (forall id :: 0 <= id < |w.tasks| ==>
          (HoldsLock(w.tasks[id].phase) <==> w.lock == Some(id)))
    && (w.lock.Some? ==> w.acquired != [] && w.lock.value == w.acquired[|w.acquired| - 1])
    && (forall id :: 0 <= id < |w.tasks| && w.tasks[id].phase.Waiting? ==> id !in w.acquired)
    && (forall id :: 0 <= id < |w.tasks| && Landed(w.tasks[id]) ==> id in w.acquired)
    && (forall id :: 0 <= id < |w.tasks| && w.tasks[id].phase.Loaded? ==>
          w.tasks[id].phase.seen == w.registers
          && Perform(w.tasks[id].op, w.registers).Some?)
    && w.registers == Replay(start, w.tasks, w.acquired)
  }

  lemma StoredNow(op: Operation, r: Registers)
    requires Perform(op, r).Some?
    ensures Stored(op, r, r) == Perform(op, r).value
  {
  }

  lemma AcquireKeeps(start: Registers, w: World, e: Event)
    requires Inv(start, w) && Enabled(w, e) && e.Acquire?
    ensures Inv(start, Step(w, e))
  {
    hide Perform;
    var w' := Step(w, e);
    assert w'.acquired[..|w'.acquired| - 1] == w.acquired;
    ReplaySame(start, w.tasks, w'.tasks, w.acquired);
  }

  /** A step that lets no write land keeps the replay. */
  lemma QuietStepKeeps(start: Registers, w: World, e: Event)
    requires Inv(start, w) && Enabled(w, e)
    requires e.ReadRegisters? || e.Release? || e.ReadError? || (e.WriteError? && !e.arrived)
    ensures Inv(start, Step(w, e))
  {
    hide Perform, Stored;
    ReplaySame(start, w.tasks, Step(w, e).tasks, w.acquired);
  }

  /** A write that lands adds its own operation at the end of the replay. */
  lemma WriteStepKeeps(start: Registers, w: World, e: Event)
    requires Inv(start, w) && Enabled(w, e)
    requires e.Write? || (e.WriteError? && e.arrived)
    ensures Inv(start, Step(w, e))
  {
    hide Perform, Stored;
    var w' := Step(w, e);
    var last := |w.acquired| - 1;
    var earlier := w.acquired[..last];
    assert w.acquired[last] == e.id;
    StoredNow(w.tasks[e.id].op, w.registers);
    ReplaySame(start, w.tasks, w'.tasks, earlier);
    assert Replay(start, w.tasks, w.acquired) == Replay(start, w.tasks, earlier);
  }

  lemma StepKeeps(start: Registers, w: World, e: Event)
    requires Inv(start, w) && Enabled(w, e)
    ensures Inv(start, Step(w, e))
  {
    hide Inv, Step, Enabled;
    match e
    case Acquire(_) => AcquireKeeps(start, w, e);
    case Write(_) => WriteStepKeeps(start, w, e);
    case WriteError(_, arrived) =>
      if arrived {
        WriteStepKeeps(start, w, e);
      } else {
        QuietStepKeeps(start, w, e);
      }
    case ReadRegisters(_) => QuietStepKeeps(start, w, e);
    case Release(_) => QuietStepKeeps(start, w, e);
    case ReadError(_) => QuietStepKeeps(start, w, e);
  }

  lemma {:induction false} RunKeeps(start: Registers, w: World, events: seq<Event>)
    requires Inv(start, w) && IsRun(w, events)
    ensures Inv(start, Outcome(w, events))
    decreases |events|
  {
    hide Inv, Step, Enabled;
    if events != [] {
      StepKeeps(start, w, events[0]);
      RunKeeps(start, Step(w, events[0]), events[1..]);
    }
  }

  lemma {:induction false} RunKeepsOperations(w: World, events: seq<Event>)
    requires IsRun(w, events)
    ensures var w' := Outcome(w, events);
            && |w'.tasks| == |w.tasks|
            && forall id :: 0 <= id < |w.tasks| ==> w'.tasks[id].op == w.tasks[id].op
    decreases |events|
  {
    hide Perform, Stored;
    if events != [] {
      RunKeepsOperations(Step(w, events[0]), events[1..]);
    }
  }

  /** No lost updates: after any interleaving of any number of callers, failures included, the
      registers are the landed operations applied one after the other in the order in which the
      callers got the lock, each caller at most once, and every finished caller among them. */
  lemma NoLostUpdates(registers: Registers, ops: seq<Operation>, events: seq<Event>)
    requires IsRun(Start(registers, ops), events)
    ensures var w := Outcome(Start(registers, ops), events);
            && |w.tasks| == |ops|
            && (forall id :: 0 <= id < |ops| ==> w.tasks[id].op == ops[id])
            && (forall i :: 0 <= i < |w.acquired| ==> w.acquired[i] < |w.tasks|)
            && (forall i, j :: 0 <= i < j < |w.acquired| ==> w.acquired[i] != w.acquired[j])
            && (forall id :: 0 <= id < |w.tasks| && w.tasks[id].phase.Done? ==> id in w.acquired)
            && w.registers == Fold(registers, LandedOps(w.tasks, w.acquired))
  {
    hide Perform, Stored;
    var w := Start(registers, ops);
    RunKeeps(registers, w, events);
    RunKeepsOperations(w, events);
    var w' := Outcome(w, events);
    ReplayIsFold(registers, w'.tasks, w'.acquired);
  }

  // ------------------------------------------------------------------------------------------
  // The fold of operations
  // ------------------------------------------------------------------------------------------

  /** The registers after an operation that may be refused. */
  function Then(op: Operation, r: Registers): Registers {
    Or(Perform(op, r), r)
  }

  function Fold(r: Registers, ops: seq<Operation>): Registers {
    if ops == [] then r else Then(ops[|ops| - 1], Fold(r, ops[..|ops| - 1]))
  }

  function LandedOps(tasks: seq<Task>, order: seq<nat>): seq<Operation>
    requires forall i :: 0 <= i < |order| ==> order[i] < |tasks|
  {
    if order == [] then []
    else
      var task := tasks[order[|order| - 1]];
      LandedOps(tasks, order[..|order| - 1]) + if Landed(task) then [task.op] else []
  }

  lemma {:induction false} ReplayIsFold(r: Registers, tasks: seq<Task>, order: seq<nat>)
    requires forall i :: 0 <= i < |order| ==> order[i] < |tasks|
    ensures Replay(r, tasks, order) == Fold(r, LandedOps(tasks, order))
  {
    hide Perform;
    if order != [] {
      var before := LandedOps(tasks, order[..|order| - 1]);
      var task := tasks[order[|order| - 1]];
      ReplayIsFold(r, tasks, order[..|order| - 1]);
      if Landed(task) {
        assert (before + [task.op])[..|before|] == before;
      } else {
        assert before + [] == before;
      }
    }
  }

  ghost predicate Commute(a: Operation, b: Operation) {
    forall r: Registers :: Then(a, Then(b, r)) == Then(b, Then(a, r))
  }

  ghost predicate AllCommute(ops: seq<Operation>) {
    forall i, j :: 0 <= i < |ops| && 0 <= j < |ops| ==> Commute(ops[i], ops[j])
  }

  function Without(ops: seq<Operation>, i: nat): seq<Operation>
    requires i < |ops|
  {
    ops[..i] + ops[i + 1..]
  }

  lemma {:induction false} MoveToEnd(r: Registers, ops: seq<Operation>, i: nat)
    requires i < |ops| && AllCommute(ops)
    ensures Fold(r, ops) == Then(ops[i], Fold(r, Without(ops, i)))
    decreases |ops|
  {
    hide Then;
    var n := |ops| - 1;
    var init, last := ops[..n], ops[n];
    if i == n {
      assert Without(ops, i) == init;
    } else {
      MoveToEnd(r, init, i);
      var rest := Without(ops, i);
      assert rest[..|rest| - 1] == Without(init, i) && rest[|rest| - 1] == last;
      assert Commute(ops[i], last);
    }
  }

  lemma SameOperationsCommute(a: seq<Operation>, b: seq<Operation>)
    requires multiset(a) == multiset(b) && AllCommute(a)
    ensures AllCommute(b)
  {
    hide Commute;
    forall x, y | 0 <= x < |b| && 0 <= y < |b| ensures Commute(b[x], b[y]) {
      assert b[x] in multiset(a) && b[y] in multiset(a);
    }
  }

  /** The last of the one list is somewhere in the other; without it the same operations are left. */
  lemma LastElsewhere(a: seq<Operation>, b: seq<Operation>) returns (i: nat)
    requires multiset(a) == multiset(b) && a != []
    ensures i < |b| && b[i] == a[|a| - 1]
    ensures multiset(a[..|a| - 1]) == multiset(Without(b, i))
  {
    var n := |a| - 1;
    assert a == a[..n] + [a[n]];
    assert a[n] in multiset(b);
    i :| 0 <= i < |b| && b[i] == a[n];
    assert b == b[..i] + [b[i]] + b[i + 1..];
    assert multiset(b) == multiset(b[..i]) + multiset{b[i]} + multiset(b[i + 1..]);
    assert multiset(a) == multiset(a[..n]) + multiset{a[n]};
    assert multiset(Without(b, i)) == multiset(b[..i]) + multiset(b[i + 1..]);
    assert multiset(a[..n]) == multiset(a) - multiset{a[n]};
    assert multiset(Without(b, i)) == multiset(b) - multiset{b[i]};
  }

  /** Operations that commute pairwise give the same registers in every order. */
  lemma {:induction false} OrderIrrelevant(r: Registers, a: seq<Operation>, b: seq<Operation>)
    requires multiset(a) == multiset(b) && AllCommute(a)
    ensures Fold(r, a) == Fold(r, b)
    decreases |a|
  {
    hide Then, Commute, Without;
    if a == [] {
      assert |multiset(b)| == 0;
    } else {
      var i := LastElsewhere(a, b);
      SameOperationsCommute(a, b);
      MoveToEnd(r, b, i);
      OrderIrrelevant(r, a[..|a| - 1], Without(b, i));
    }
  }

  /** Two runs in which the same pairwise commuting operations landed end in the same registers, in
      whatever order the callers got the lock. */
  lemma RunsAgree(
    registers: Registers, ops: seq<Operation>, events: seq<Event>, events': seq<Event>)
    requires IsRun(Start(registers, ops), events) && IsRun(Start(registers, ops), events')
    requires AllCommute(ops)
    requires var w, w' := Outcome(Start(registers, ops), events),
                          Outcome(Start(registers, ops), events');
             && (forall i :: 0 <= i < |w.acquired| ==> w.acquired[i] < |w.tasks|)
             && (forall i :: 0 <= i < |w'.acquired| ==> w'.acquired[i] < |w'.tasks|)
             && multiset(LandedOps(w.tasks, w.acquired))
                == multiset(LandedOps(w'.tasks, w'.acquired))
    ensures Outcome(Start(registers, ops), events).registers
         == Outcome(Start(registers, ops), events').registers
  {
    hide Then, Perform, Step, Enabled;
    var w := Outcome(Start(registers, ops), events);
    var w' := Outcome(Start(registers, ops), events');
    NoLostUpdates(registers, ops, events);
    NoLostUpdates(registers, ops, events');
    LandedAreOps(w.tasks, w.acquired, ops);
    OrderIrrelevant(registers, LandedOps(w.tasks, w.acquired), LandedOps(w'.tasks, w'.acquired));
  }

  lemma {:induction false} LandedAreOps(tasks: seq<Task>, order: seq<nat>, ops: seq<Operation>)
    requires forall i :: 0 <= i < |order| ==> order[i] < |tasks|
    requires |tasks| == |ops| && forall id :: 0 <= id < |ops| ==> tasks[id].op == ops[id]
    requires AllCommute(ops)
    ensures forall op :: op in LandedOps(tasks, order) ==> op in ops
    ensures AllCommute(LandedOps(tasks, order))
  {
    hide Commute;
    LandedInOps(tasks, order, ops);
    var landed := LandedOps(tasks, order);
    forall i, j | 0 <= i < |landed| && 0 <= j < |landed| ensures Commute(landed[i], landed[j]) {
      assert landed[i] in ops && landed[j] in ops;
    }
  }

  lemma {:induction false} LandedInOps(tasks: seq<Task>, order: seq<nat>, ops: seq<Operation>)
    requires forall i :: 0 <= i < |order| ==> order[i] < |tasks|
    requires |tasks| == |ops| && forall id :: 0 <= id < |ops| ==> tasks[id].op == ops[id]
    ensures forall op :: op in LandedOps(tasks, order) ==> op in ops
  {
    if order != [] {
      LandedInOps(tasks, order[..|order| - 1], ops);
    }
  }

  // ------------------------------------------------------------------------------------------
  // Which operations commute, and what survives all of them
  // ------------------------------------------------------------------------------------------

  ghost predicate IsPatch(op: Operation, p: Dp102Updates.Patch) {
    op.MutateSystem? && forall s :: op.mutate(s) == Dp102Updates.Apply(p, s)
  }

  ghost predicate IsDustbinPatch(op: Operation, p: DustbinPatch) {
    op.UpdateDustbin? && forall s :: op.change(s) == ApplyDustbin(p, s)
  }

  /** Updates of disjoint system fields commute as operations on the registers. */
  lemma PatchesCommute(
    a: Operation, p: Dp102Updates.Patch, b: Operation, q: Dp102Updates.Patch)
    requires IsPatch(a, p) && IsPatch(b, q) && Dp102Updates.Disjoint(p, q)
    ensures Commute(a, b)
  {
    hide Encoded, DecodeRaw, Dp102Updates.Apply, Dp102Updates.Disjoint;
    forall r: Registers ensures Then(a, Then(b, r)) == Then(b, Then(a, r)) {
      if r.system.Some? {
        Dp102Updates.DisjointUpdatesCommute(p, q, r.system.value);
      }
    }
  }

  lemma DustbinPatchesCommute(a: Operation, p: DustbinPatch, b: Operation, q: DustbinPatch)
    requires IsDustbinPatch(a, p) && IsDustbinPatch(b, q) && DisjointDustbin(p, q)
    ensures Commute(a, b)
  {
    hide EncodedDustbin, DecodeDustbinRaw, ApplyDustbin, DisjointDustbin;
    forall r: Registers ensures Then(a, Then(b, r)) == Then(b, Then(a, r)) {
      if r.dustbin.Some? {
        DisjointDustbinUpdatesCommute(p, q, r.dustbin.value);
      }
    }
  }

  /** Locks of different keys commute. */
  lemma KeyLockOperationsCommute(key: int, locked: bool, key': int, locked': bool)
    requires key != key'
    ensures Commute(SetKeyLock(key, locked), SetKeyLock(key', locked'))
  {
    hide EncodedKeys, DecodeKeysRaw, WithKeyLock;
    var a, b := SetKeyLock(key, locked), SetKeyLock(key', locked');
    forall r: Registers ensures Then(a, Then(b, r)) == Then(b, Then(a, r)) {
      if r.keys.Some? {
        var s := DecodeKeysRaw(r.keys.value);
        LockedKeysReadBack(r.keys.value, key, locked);
        LockedKeysReadBack(r.keys.value, key', locked');
        KeyLocksCommute(s, key, locked, key', locked');
      }
    }
  }

  lemma LockedKeysReadBack(payload: bytes, key: int, locked: bool)
    ensures var s := WithKeyLock(DecodeKeysRaw(payload), key, locked);
            DecodeKeysRaw(EncodedKeys(s)) == s
  {
    var s := DecodeKeysRaw(payload);
    KeysGetBackIff(WithKeyLock(s, key, locked));
    if 0 <= key < 4 {
      MaskBound(s.lockMask, key, locked);
    }
  }

  lemma MaskBound(mask: int, key: nat, locked: bool)
    requires key < 4
    ensures 0 <= MaskWith(mask, key, locked) < 16
  {
    assert Two(4) == 16;
  }

  /** Operations on different data points commute. */
  lemma DifferentPointsCommute(a: Operation, b: Operation)
    requires a.MutateSystem? ==> !b.MutateSystem?
    requires a.UpdateDustbin? ==> !b.UpdateDustbin?
    requires a.SetKeyLock? || a.SetAllKeysLocked? ==> b.MutateSystem? || b.UpdateDustbin?
    ensures Commute(a, b)
  {
    hide EncodedKeys, DecodeKeysRaw, WithKeyLock, EncodedDustbin, DecodeDustbinRaw;
    hide Encoded, DecodeRaw, AllKeysLocked;
  }

  /** The operation leaves one bit of the system payload as it is, whatever the payload. */
  ghost predicate KeepsBit(op: Operation, i: nat, k: nat)
    requires i < LENGTH && k < 8
  {
    op.MutateSystem? ==> forall payload: bytes ::
      BitOf(Encoded(op.mutate(DecodeRaw(Normalized(payload, LENGTH))))[i], k)
      == BitOf(Normalized(payload, LENGTH)[i], k)
  }

  ghost predicate SameBit(a: Registers, b: Registers, i: nat, k: nat)
    requires i < LENGTH && k < 8
  {
    && (a.system.Some? <==> b.system.Some?)
    && (a.system.Some? ==>
          BitOf(Normalized(a.system.value, LENGTH)[i], k)
          == BitOf(Normalized(b.system.value, LENGTH)[i], k))
  }

  lemma OperationKeepsBit(r: Registers, op: Operation, i: nat, k: nat)
    requires i < LENGTH && k < 8 && KeepsBit(op, i, k)
    ensures SameBit(Then(op, r), r, i, k)
  {
    hide Encoded, DecodeRaw, BitOf, EncodedDustbin, DecodeDustbinRaw, EncodedKeys, DecodeKeysRaw;
    if op.MutateSystem? && r.system.Some? {
      var out := Encoded(op.mutate(DecodeRaw(Normalized(r.system.value, LENGTH))));
      assert Normalized(out, LENGTH) == out;
    }
  }

  /** A bit that no operation touches survives every run of any number of callers. */
  lemma {:induction false} UntouchedBitSurvives(
    r: Registers, ops: seq<Operation>, i: nat, k: nat)
    requires i < LENGTH && k < 8
    requires forall n :: 0 <= n < |ops| ==> KeepsBit(ops[n], i, k)
    ensures SameBit(Fold(r, ops), r, i, k)
  {
    hide Then, KeepsBit, BitOf, Normalized;
    if ops != [] {
      UntouchedBitSurvives(r, ops[..|ops| - 1], i, k);
      OperationKeepsBit(Fold(r, ops[..|ops| - 1]), ops[|ops| - 1], i, k);
    }
  }

  lemma PatchKeepsBit(op: Operation, p: Dp102Updates.Patch, i: nat, k: nat)
    requires i < LENGTH && k < 8 && IsPatch(op, p) && !Dp102Updates.Touches(p, i, k)
    ensures KeepsBit(op, i, k)
  {
    hide Encoded, DecodeRaw, BitOf, Dp102Updates.Apply, Dp102Updates.Touches;
    forall payload: bytes
      ensures BitOf(Encoded(op.mutate(DecodeRaw(Normalized(payload, LENGTH))))[i], k)
           == BitOf(Normalized(payload, LENGTH)[i], k)
    {
      Dp102Updates.UntouchedBitKept(p, payload, i, k);
    }
  }

  // ------------------------------------------------------------------------------------------
  // What an operation does to the device
  // ------------------------------------------------------------------------------------------

  /** An operation is refused exactly if there is no payload to start from; otherwise it leaves the
      other data points alone. */
  lemma RefusedIff(op: Operation, r: Registers)
    ensures Perform(op, r).None? <==>
              match op
              case MutateSystem(_) => r.system == None
              case UpdateDustbin(_) => r.dustbin == None
              case SetKeyLock(_, _) => r.keys == None
              case SetAllKeysLocked(_) => r.keys == None
    ensures var after := Or(Perform(op, r), r);
            && (!op.MutateSystem? ==> after.system == r.system)
            && (!op.UpdateDustbin? ==> after.dustbin == r.dustbin)
            && (op.MutateSystem? || op.UpdateDustbin? ==> after.keys == r.keys)
  {
    hide EncodedKeys, DecodeKeysRaw, WithKeyLock, EncodedDustbin, DecodeDustbinRaw;
    hide Encoded, DecodeRaw, AllKeysLocked;
  }

  /** Settings that are in range are on the device as they were asked for. */
  lemma SystemReadBack(mutate: SystemSettings -> SystemSettings, r: Registers)
    requires r.system.Some? && InRange(mutate(DecodeRaw(Normalized(r.system.value, LENGTH))))
    ensures var asked := mutate(DecodeRaw(Normalized(r.system.value, LENGTH)));
            var after := Perform(MutateSystem(mutate), r);
            && after.Some? && after.value.system.Some? && |after.value.system.value| == 29
            && Decode(after.value.system) == Some(asked.(raw := after.value.system.value))
  {
    hide Encoded, DecodeRaw, InRange;
    var asked := mutate(DecodeRaw(Normalized(r.system.value, LENGTH)));
    GetBackIff(asked);
    assert Normalized(Encoded(asked), LENGTH) == Encoded(asked);
  }

  lemma DustbinReadBack(change: DustbinSettings -> DustbinSettings, r: Registers)
    requires r.dustbin.Some?
    requires var asked := change(DecodeDustbinRaw(NormalizedDustbin(r.dustbin.value)));
             0 <= asked.calibration <= 3 && 1 <= asked.cycleCount <= 10
    ensures var asked := change(DecodeDustbinRaw(NormalizedDustbin(r.dustbin.value)));
            var after := Perform(UpdateDustbin(change), r);
            && after.Some? && after.value.dustbin.Some? && |after.value.dustbin.value| == 3
            && DecodeDustbin(after.value.dustbin)
               == Some(asked.(dustbinRaw := after.value.dustbin.value))
  {
    hide EncodedDustbin, DecodeDustbinRaw;
    var asked := change(DecodeDustbinRaw(NormalizedDustbin(r.dustbin.value)));
    DustbinGetBackIff(asked);
    assert NormalizedDustbin(EncodedDustbin(asked)) == EncodedDustbin(asked);
  }

  /** After a key was locked or unlocked, the device has that key so, and all else as before. */
  lemma KeyLockReadBack(key: int, locked: bool, r: Registers)
    requires r.keys.Some?
    ensures var before := DecodeKeysRaw(r.keys.value);
            var after := Perform(SetKeyLock(key, locked), r);
            && after.Some? && after.value.keys.Some?
            && var s := DecodeKeysRaw(after.value.keys.value);
               && s.press == before.press && s.hold3s == before.hold3s && s.hold7s == before.hold7s
               && forall other :: 0 <= other < 4 ==>
                    IsKeyLocked(s, other) == if other == key then locked else IsKeyLocked(before, other)
  {
    hide EncodedKeys, DecodeKeysRaw, WithKeyLock, IsKeyLocked;
    var before := DecodeKeysRaw(r.keys.value);
    LockedKeysReadBack(r.keys.value, key, locked);
    forall other | 0 <= other < 4
      ensures IsKeyLocked(WithKeyLock(before, key, locked), other)
           == if other == key then locked else IsKeyLocked(before, other)
    {
      KeyLockIsLocal(before, key, locked, other);
    }
    KeyLockIsLocal(before, key, locked, 0);
  }

  lemma AllLockedReadBack(all: bool, r: Registers)
    requires r.keys.Some?
    ensures var before := DecodeKeysRaw(r.keys.value);
            var after := Perform(SetAllKeysLocked(all), r);
            && after.Some? && after.value.keys.Some?
            && var s := DecodeKeysRaw(after.value.keys.value);
               && s.press == before.press && s.hold3s == before.hold3s && s.hold7s == before.hold7s
               && forall key :: IsKeyLocked(s, key) <==> all && 0 <= key < 4
  {
    hide EncodedKeys, IsKeyLocked;
    var before := DecodeKeysRaw(r.keys.value);
    KeysGetBackIff(AllKeysLocked(before, all));
    hide DecodeKeysRaw;
    forall key ensures IsKeyLocked(AllKeysLocked(before, all), key) <==> all && 0 <= key < 4 {
      AllKeysLockedMeans(before, all, key);
    }
  }

  /** Nobody waits for ever: as long as a caller has neither finished nor failed, some caller can take
      a step forward. */
  lemma NeverStuck(start: Registers, w: World, id: nat) returns (e: Event)
    requires Inv(start, w)
    requires id < |w.tasks| && !w.tasks[id].phase.Done? && !w.tasks[id].phase.Failed?
    ensures Enabled(w, e) && !e.ReadError? && !e.WriteError?
  {
    match w.lock
    case None => e := Acquire(id);
    case Some(holder) =>
      e := match w.tasks[holder].phase
           case Holding => ReadRegisters(holder)
           case Loaded(_) => Write(holder)
           case _ => Release(holder);
  }

  /** The lock is free again as soon as its holder has released it or failed, and other callers stay
      where they are. */
  lemma StepIsLocal(w: World, e: Event, id: nat)
    requires Enabled(w, e) && id < |w.tasks|
    ensures var after := Step(w, e);
            && |after.tasks| == |w.tasks|
            && (id != e.id ==> after.tasks[id] == w.tasks[id])
            && (e.Release? || e.ReadError? || e.WriteError? ==> after.lock == None)
            && (e.Write? ==> after.lock == w.lock && after.tasks[e.id].phase == Written)
            && (e.ReadRegisters? ==>
                  if Perform(w.tasks[e.id].op, w.registers).Some?
                  then after.lock == w.lock && after.tasks[e.id].phase == Loaded(w.registers)
                  else after.lock == None && after.tasks[e.id].phase == Failed(false))
            && (e.Acquire? ==> after.lock == Some(e.id) && after.acquired == w.acquired + [e.id])
  {
    hide Perform, Stored;
  }
}
