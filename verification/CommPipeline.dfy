/** The chain of channel handlers: how it is linked up for a list of modes, and which handler a
    message goes through. */
module CommPipeline {
  import opened Options

  datatype Kind = Mqtt | Http | Matter | Lan | Ble | SigMesh | ThingMesh | Yu | Beacon | Cloud

  datatype Mode =
    | MqttMode | HttpMode | MatterMode | LanMode | BleMode | SigMeshMode | ThingMeshMode
    | YuMqttMode | BeaconMode | CloudMode | UnknownMode

  /** One entry of a mode list, with its protocol version. */
  datatype Module = Module(mode: Mode, version: Option<string>)

  /** What is known of the gateway a device is behind: whether it has one, whether that is known, near
      and able to pass Bluetooth on, and whether its own modes begin with Bluetooth. */
  datatype Gateway = Gateway(
    hasParent: bool, parentKnown: bool, parentNear: bool, parentSupports: bool, prefersBle: bool)

  /** Which channels are up. A handler over HTTP or the cloud needs none of them. */
  type Channels = Kind -> bool

  datatype Outcome = SentThrough(handler: nat) | NoChannel | NothingToSendThrough | IllegalModes

  // ------------------------------------------------------------------------------------------
  // What the chain and its choice are
  // ------------------------------------------------------------------------------------------

  function Brought(mode: Mode): seq<Kind> {
    match mode
    case MqttMode => [Mqtt]
    case HttpMode => [Http]
    case MatterMode => [Matter]
    case LanMode => [Lan, Matter]
    case BleMode => [Ble]
    case SigMeshMode => [SigMesh]
    case ThingMeshMode => [ThingMesh]
    case YuMqttMode => [Ble, Yu]
    case BeaconMode => [Beacon]
    case CloudMode => [Cloud]
    case UnknownMode => []
  }

  function Kinds(modes: seq<Mode>): seq<Kind> {
    if modes == [] then [] else Kinds(modes[..|modes| - 1]) + Brought(modes[|modes| - 1])
  }

  function Modes(modules: seq<Module>): (r: seq<Mode>)
    ensures |r| == |modules|
  {
    seq(|modules|, i requires 0 <= i < |modules| => modules[i].mode)
  }

  /** A list that begins with Bluetooth ends with the Yu channel. */
  function Completed(modules: seq<Module>): seq<Module> {
    if modules != [] && modules[0].mode == BleMode && modules[|modules| - 1].mode != YuMqttMode
    then modules + [Module(YuMqttMode, None)] else modules
  }

  predicate Promotes(g: Gateway) {
    g.hasParent && g.parentKnown && g.parentNear && g.parentSupports
  }

  /** The last Bluetooth module. */
  function LastBle(modules: seq<Module>): (r: Option<Module>)
    ensures r.Some? ==> r.value in modules && r.value.mode == BleMode
    ensures r.None? ==> forall m :: m in modules ==> m.mode != BleMode
  {
    if modules == [] then None
    else if modules[|modules| - 1].mode == BleMode then Some(modules[|modules| - 1])
    else LastBle(modules[..|modules| - 1])
  }

  function RemoveFirst(modules: seq<Module>, m: Module): seq<Module> {
    if modules == [] then []
    else if modules[0] == m then modules[1..]
    else [modules[0]] + RemoveFirst(modules[1..], m)
  }

  /** For a device behind a gateway that is near and can pass Bluetooth on, Bluetooth is in the list,
      and in front when the gateway prefers it. */
  function Promoted(modules: seq<Module>, g: Gateway): seq<Module> {
    if !Promotes(g) then modules
    else
      match LastBle(modules)
      case Some(m) => if g.prefersBle then [m] + RemoveFirst(modules, m) else modules
      case None =>
        if g.prefersBle then [Module(BleMode, None)] + modules else modules + [Module(BleMode, None)]
  }

  /** The modes whose handlers make up the chain. The promotion comes after the completion. */
  function Sequence(modules: seq<Module>, g: Gateway): seq<Mode> {
    Modes(Promoted(Completed(modules), g))
  }

  predicate IsUp(kind: Kind, up: Channels) {
    kind == Http || kind == Cloud || up(kind)
  }

  /** A beacon counts as available wherever it is not last. */
  predicate Takes(kinds: seq<Kind>, i: nat, up: Channels)
    requires i < |kinds|
  {
    IsUp(kinds[i], up) || (kinds[i] == Beacon && i + 1 < |kinds|)
  }

  /** Handler i of the chain is the one that takes the message. */
  ghost predicate FirstTaker(kinds: seq<Kind>, i: nat, up: Channels) {
    i < |kinds| && Takes(kinds, i, up) && forall j :: 0 <= j < i ==> !Takes(kinds, j, up)
  }

  // ------------------------------------------------------------------------------------------
  // The linked handlers
  // ------------------------------------------------------------------------------------------

  class CommHandler {
    const kind: Kind
    var next: CommHandler?

    constructor (kind: Kind)
      ensures this.kind == kind && next == null
    {
      this.kind := kind;
      next := null;
    }

    method Available(up: Channels) returns (yes: bool)
      ensures yes == (IsUp(kind, up) || (kind == Beacon && next != null))
    {
      yes := if kind == Beacon then next != null || up(Beacon)
             else if kind == Http || kind == Cloud then true else up(kind);
    }
  }

  function KindsOf(nodes: seq<CommHandler>): (r: seq<Kind>)
    ensures |r| == |nodes|
  {
    seq(|nodes|, i requires 0 <= i < |nodes| => nodes[i].kind)
  }

  /** The handlers are different, each links to the one after it, and the last to none. */
  ghost predicate Linked(nodes: seq<CommHandler>)
    reads nodes
  {
    && (forall i, j :: 0 <= i < j < |nodes| ==> nodes[i] != nodes[j])
    && (forall i :: 0 <= i < |nodes| - 1 ==> nodes[i].next == nodes[i + 1])
    && (nodes != [] ==> nodes[|nodes| - 1].next == null)
  }

  lemma NoNodes()
    ensures Linked([]) && KindsOf([]) == Kinds([])
  {
  }

  lemma JoinedKinds(a: seq<CommHandler>, b: seq<CommHandler>)
    ensures KindsOf(a + b) == KindsOf(a) + KindsOf(b)
  {
  }

  lemma NextOf(nodes: seq<CommHandler>, k: nat)
    requires Linked(nodes) && k < |nodes|
    ensures nodes[k].next == if k + 1 < |nodes| then nodes[k + 1] else null
  {
  }

  function Head(nodes: seq<CommHandler>): CommHandler? {
    if nodes == [] then null else nodes[0]
  }

  method MakeHandler(mode: Mode) returns (head: CommHandler?, ghost nodes: seq<CommHandler>)
    ensures Linked(nodes) && KindsOf(nodes) == Brought(mode) && head == Head(nodes)
    ensures forall i :: 0 <= i < |nodes| ==> fresh(nodes[i])
  {
    nodes := [];
    match mode {
      case UnknownMode =>
        assert KindsOf(nodes) == Brought(mode);
        return null, nodes;
      case LanMode =>
        var first := new CommHandler(Lan);
        var second := new CommHandler(Matter);
        first.next := second;
        nodes := [first, second];
        assert KindsOf(nodes) == Brought(mode);
        return first, nodes;
      case YuMqttMode =>
        var first := new CommHandler(Ble);
        var second := new CommHandler(Yu);
        first.next := second;
        nodes := [first, second];
        assert KindsOf(nodes) == Brought(mode);
        return first, nodes;
      case _ =>
        var kind := Brought(mode)[0];
        head := new CommHandler(kind);
        nodes := [head];
        assert KindsOf(nodes) == Brought(mode);
    }
  }

  /** Walks to the end of the chain and links the other one there. */
  method Append(
    head: CommHandler, ghost nodes: seq<CommHandler>,
    other: CommHandler, ghost others: seq<CommHandler>)
    requires Linked(nodes) && Linked(others) && head == Head(nodes) && other == Head(others)
    requires forall i, j :: 0 <= i < |nodes| && 0 <= j < |others| ==> nodes[i] != others[j]
    modifies nodes
    ensures Linked(nodes + others)
  {
    var tail := head;
    ghost var k := 0;
    while tail.next != null
      invariant k < |nodes| && tail == nodes[k] && Linked(nodes) && Linked(others)
      decreases |nodes| - k
    {
      tail := tail.next;
      k := k + 1;
    }
    NextOf(nodes, k);
    tail.next := other;
    ghost var all := nodes + others;
    forall i | 0 <= i < |all| - 1 ensures all[i].next == all[i + 1] {
      if i >= |nodes| {
        assert all[i] == others[i - |nodes|];
      }
    }
    assert all[|all| - 1] == others[|others| - 1];
  }

  method Build(modes: seq<Mode>) returns (head: CommHandler?, ghost nodes: seq<CommHandler>)
    ensures Linked(nodes) && KindsOf(nodes) == Kinds(modes) && head == Head(nodes)
    ensures forall i :: 0 <= i < |nodes| ==> fresh(nodes[i])
  {
    head, nodes := null, [];
    NoNodes();
    hide KindsOf, Linked, Brought;
    for i := 0 to |modes|
      invariant Linked(nodes) && KindsOf(nodes) == Kinds(modes[..i]) && head == Head(nodes)
      invariant forall k :: 0 <= k < |nodes| ==> fresh(nodes[k])
    {
      assert modes[..i + 1][..i] == modes[..i];
      var handler;
      ghost var more;
      handler, more := MakeHandler(modes[i]);
      JoinedKinds(nodes, more);
      if handler == null {
        assert more == [] && nodes + more == nodes;
        continue;
      }
      if head == null {
        assert nodes == [] && nodes + more == more;
        head := handler;
      } else {
        Append(head, nodes, handler, more);
      }
      nodes := nodes + more;
    }
    assert modes[..|modes|] == modes;
  }

  /** Asks handler after handler, and sends through the first that takes the message. */
  method Handle(handler: CommHandler, ghost nodes: seq<CommHandler>, k: nat, up: Channels)
    returns (r: Outcome)
    requires Linked(nodes) && k < |nodes| && handler == nodes[k]
    requires forall j :: 0 <= j < k ==> !Takes(KindsOf(nodes), j, up)
    ensures r.SentThrough? || r.NoChannel?
    ensures r.SentThrough? ==> FirstTaker(KindsOf(nodes), r.handler, up)
    ensures r.NoChannel? ==> forall j :: 0 <= j < |nodes| ==> !Takes(KindsOf(nodes), j, up)
    decreases |nodes| - k
  {
    assert KindsOf(nodes)[k] == handler.kind;
    NextOf(nodes, k);
    var available := handler.Available(up);
    if available {
      return SentThrough(k);
    }
    if handler.next != null {
      r := Handle(handler.next, nodes, k + 1, up);
      return;
    }
    r := NoChannel;
  }

  /** Moves or adds the Bluetooth module for a device behind a gateway. */
  method CheckDirectGateway(modules: seq<Module>, g: Gateway) returns (r: seq<Module>)
    ensures r == Promoted(modules, g)
  {
    r := modules;
    if !g.hasParent || !g.parentKnown || !(g.parentNear && g.parentSupports) {
      return;
    }
    var ble := None;
    for i := 0 to |modules|
      invariant ble == LastBle(modules[..i])
    {
      assert modules[..i + 1][..i] == modules[..i];
      if modules[i].mode == BleMode {
        ble := Some(modules[i]);
      }
    }
    assert modules[..|modules|] == modules;
    if ble.Some? {
      if g.prefersBle {
        r := [ble.value] + RemoveFirst(modules, ble.value);
      }
      return;
    }
    var added := Module(BleMode, None);
    r := if g.prefersBle then [added] + modules else modules + [added];
  }

  /** Builds the chain for the modules and sends the message. */
  method Publish(modules: seq<Module>, g: Gateway, up: Channels) returns (r: Outcome)
    ensures r == Published(modules, g, up)
  {
    if modules == [] {
      return IllegalModes;
    }
    var all := modules;
    if modules[0].mode == BleMode && modules[|modules| - 1].mode != YuMqttMode {
      all := all + [Module(YuMqttMode, None)];
    }
    all := CheckDirectGateway(all, g);
    ghost var nodes;
    var head;
    head, nodes := Build(Modes(all));
    if head == null {
      return NothingToSendThrough;
    }
    r := Handle(head, nodes, 0, up);
    ChoiceIs(Kinds(Sequence(modules, g)), up, 0, r);
  }

  // ------------------------------------------------------------------------------------------
  // What comes of a message
  // ------------------------------------------------------------------------------------------

  function Choice(kinds: seq<Kind>, up: Channels, i: nat): Outcome
    requires i <= |kinds|
    decreases |kinds| - i
  {
    if i == |kinds| then NoChannel
    else if Takes(kinds, i, up) then SentThrough(i)
    else Choice(kinds, up, i + 1)
  }

  function Published(modules: seq<Module>, g: Gateway, up: Channels): Outcome {
    var kinds := Kinds(Sequence(modules, g));
    if modules == [] then IllegalModes
    else if kinds == [] then NothingToSendThrough
    else Choice(kinds, up, 0)
  }

  lemma {:induction false} ChoiceIs(kinds: seq<Kind>, up: Channels, i: nat, r: Outcome)
    requires i <= |kinds| && forall j :: 0 <= j < i ==> !Takes(kinds, j, up)
    requires r.SentThrough? ==> FirstTaker(kinds, r.handler, up)
    requires r.NoChannel? ==> forall j :: 0 <= j < |kinds| ==> !Takes(kinds, j, up)
    requires r.SentThrough? || r.NoChannel?
    ensures r == Choice(kinds, up, i)
    decreases |kinds| - i
  {
    if i < |kinds| && !Takes(kinds, i, up) {
      ChoiceIs(kinds, up, i + 1, r);
    }
  }

  lemma {:induction false} ChoiceMeans(kinds: seq<Kind>, up: Channels, i: nat)
    requires i <= |kinds|
    ensures var r := Choice(kinds, up, i);
            && (r.SentThrough? ==>
                  i <= r.handler < |kinds| && Takes(kinds, r.handler, up)
                  && forall j :: i <= j < r.handler ==> !Takes(kinds, j, up))
            && (!r.SentThrough? ==> r.NoChannel? && forall j :: i <= j < |kinds| ==> !Takes(kinds, j, up))
    decreases |kinds| - i
  {
    if i < |kinds| && !Takes(kinds, i, up) {
      ChoiceMeans(kinds, up, i + 1);
    }
  }

  /** "No channel" comes of a message exactly if there are handlers, all channels of theirs are down,
      and none but the last is a beacon. */
  lemma NoChannelIff(modules: seq<Module>, g: Gateway, up: Channels)
    requires modules != []
    ensures var kinds := Kinds(Sequence(modules, g));
            Published(modules, g, up) == NoChannel
            <==> kinds != []
                 && forall i :: 0 <= i < |kinds| ==>
                      !IsUp(kinds[i], up) && (kinds[i] == Beacon ==> i == |kinds| - 1)
  {
    hide Sequence;
    var kinds := Kinds(Sequence(modules, g));
    ChoiceMeans(kinds, up, 0);
    if Published(modules, g, up) == NoChannel {
      forall i | 0 <= i < |kinds|
        ensures !IsUp(kinds[i], up) && (kinds[i] == Beacon ==> i == |kinds| - 1)
      {
        assert !Takes(kinds, i, up);
      }
    }
  }

  /** No message gets past a beacon: what sends it has none before it. */
  lemma NothingPastBeacon(modules: seq<Module>, g: Gateway, up: Channels, i: nat)
    requires Published(modules, g, up) == SentThrough(i)
    ensures var kinds := Kinds(Sequence(modules, g));
            i < |kinds| && forall j :: 0 <= j < i ==> kinds[j] != Beacon && !IsUp(kinds[j], up)
  {
    hide Sequence;
    var kinds := Kinds(Sequence(modules, g));
    ChoiceMeans(kinds, up, 0);
    forall j | 0 <= j < i ensures kinds[j] != Beacon && !IsUp(kinds[j], up) {
      assert !Takes(kinds, j, up);
    }
  }

  lemma {:induction false} BroughtIn(modes: seq<Mode>, mode: Mode, kind: Kind)
    requires mode in modes && kind in Brought(mode)
    ensures kind in Kinds(modes)
  {
    var n := |modes| - 1;
    if mode != modes[n] {
      BroughtIn(modes[..n], mode, kind);
    }
  }

  lemma {:induction false} BroughtFrom(modes: seq<Mode>, kind: Kind) returns (mode: Mode)
    requires kind in Kinds(modes)
    ensures mode in modes && kind in Brought(mode)
  {
    var n := |modes| - 1;
    mode := modes[n];
    if kind !in Brought(mode) {
      mode := BroughtFrom(modes[..n], kind);
    }
  }

  lemma {:induction false} RemovedFirst(modules: seq<Module>, m: Module)
    requires m in modules
    ensures multiset([m] + RemoveFirst(modules, m)) == multiset(modules)
  {
    assert modules == [modules[0]] + modules[1..];
    if modules[0] != m {
      RemovedFirst(modules[1..], m);
      assert [m] + RemoveFirst(modules, m) == [m] + ([modules[0]] + RemoveFirst(modules[1..], m));
    }
  }

  /** The modules that are not Bluetooth, in order. */
  function Others(modules: seq<Module>): seq<Module> {
    if modules == [] then []
    else (if modules[0].mode == BleMode then [] else [modules[0]]) + Others(modules[1..])
  }

  lemma {:induction false} OthersWithoutFirst(modules: seq<Module>, m: Module)
    requires m.mode == BleMode
    ensures Others(RemoveFirst(modules, m)) == Others(modules)
  {
    if modules != [] && modules[0] != m {
      OthersWithoutFirst(modules[1..], m);
      assert ([modules[0]] + RemoveFirst(modules[1..], m))[1..] == RemoveFirst(modules[1..], m);
    }
  }

  lemma {:induction false} OthersWithLast(modules: seq<Module>, m: Module)
    requires m.mode == BleMode
    ensures Others(modules + [m]) == Others(modules)
  {
    if modules != [] {
      OthersWithLast(modules[1..], m);
      assert (modules + [m])[1..] == modules[1..] + [m];
    }
  }

  /** The promotion leaves the other modules as they are, in their order. */
  lemma PromotedKeepsOthers(modules: seq<Module>, g: Gateway)
    ensures Others(Promoted(modules, g)) == Others(modules)
  {
    OthersWithLast(modules, Module(BleMode, None));
    if LastBle(modules).Some? {
      OthersWithoutFirst(modules, LastBle(modules).value);
    }
    if Promotes(g) && g.prefersBle {
      assert Promoted(modules, g)[1..] ==
        if LastBle(modules).Some? then RemoveFirst(modules, LastBle(modules).value) else modules;
    }
  }

  /** The promotion loses no module: it moves Bluetooth to the front, or adds it when it is missing. */
  lemma PromotedKeeps(modules: seq<Module>, g: Gateway)
    ensures multiset(Promoted(modules, g)) == multiset(modules)
         || multiset(Promoted(modules, g)) == multiset(modules) + multiset{Module(BleMode, None)}
    ensures Promotes(g) ==> LastBle(Promoted(modules, g)).Some?
    ensures Promotes(g) && g.prefersBle ==> Promoted(modules, g)[0].mode == BleMode
  {
    var promoted := Promoted(modules, g);
    if LastBle(modules).Some? {
      RemovedFirst(modules, LastBle(modules).value);
    }
    if Promotes(g) {
      var m := if LastBle(modules).Some? then LastBle(modules).value else Module(BleMode, None);
      assert m in multiset(promoted);
    }
  }

  /** A mode other than Bluetooth is in the final list exactly if it was given, or if it is the Yu
      channel and the given list began with Bluetooth. A promoted Bluetooth does not bring it. */
  lemma InSequenceIff(modules: seq<Module>, g: Gateway, mode: Mode)
    requires mode != BleMode
    ensures mode in Sequence(modules, g)
        <==> mode in Modes(modules)
             || (mode == YuMqttMode && modules != [] && modules[0].mode == BleMode)
  {
    var all := Completed(modules);
    PromotedKeeps(all, g);
    SameModes(Promoted(all, g), all, mode);
    ModeIn(all, mode);
    ModeIn(modules, mode);
    if modules != [] {
      assert modules[|modules| - 1] in modules;
      assert all == modules || all[|modules|].mode == YuMqttMode;
    }
  }

  lemma ModeIn(modules: seq<Module>, mode: Mode)
    ensures mode in Modes(modules) <==> exists m :: m in modules && m.mode == mode
  {
    if m :| m in modules && m.mode == mode {
      var i :| 0 <= i < |modules| && modules[i] == m;
      assert Modes(modules)[i] == mode;
    }
  }

  lemma SameModes(a: seq<Module>, b: seq<Module>, mode: Mode)
    requires multiset(a) == multiset(b) || multiset(a) == multiset(b) + multiset{Module(BleMode, None)}
    requires mode != BleMode
    ensures mode in Modes(a) <==> mode in Modes(b)
  {
    ModeIn(a, mode);
    ModeIn(b, mode);
    forall m: Module | m.mode == mode ensures m in a <==> m in b {
      assert m in multiset(a) <==> m in multiset(b);
    }
  }

  /** Whether the chain has a handler of the Yu channel. */
  lemma YuInChainIff(modules: seq<Module>, g: Gateway)
    ensures Yu in Kinds(Sequence(modules, g))
        <==> YuMqttMode in Modes(modules) || (modules != [] && modules[0].mode == BleMode)
  {
    InSequenceIff(modules, g, YuMqttMode);
    hide Sequence;
    if Yu in Kinds(Sequence(modules, g)) {
      var mode := BroughtFrom(Sequence(modules, g), Yu);
    }
    if YuMqttMode in Sequence(modules, g) {
      BroughtIn(Sequence(modules, g), YuMqttMode, Yu);
    }
  }

  /** With a mode that goes over HTTP or the cloud a message is always sent. */
  lemma AlwaysSent(modules: seq<Module>, g: Gateway, up: Channels)
    requires HttpMode in Modes(modules) || CloudMode in Modes(modules)
    ensures Published(modules, g, up).SentThrough?
  {
    var mode := if HttpMode in Modes(modules) then HttpMode else CloudMode;
    var kind := if HttpMode in Modes(modules) then Http else Cloud;
    InSequenceIff(modules, g, mode);
    hide Sequence;
    var kinds := Kinds(Sequence(modules, g));
    BroughtIn(Sequence(modules, g), mode, kind);
    ChoiceMeans(kinds, up, 0);
    var i :| 0 <= i < |kinds| && kinds[i] == kind;
    assert Takes(kinds, i, up);
  }

  // ------------------------------------------------------------------------------------------
  // Which modes bring which handlers
  // ------------------------------------------------------------------------------------------

  /** Whether a mode is one of those that a handler serves: LAN brings Matter with it, and the Yu
      channel Bluetooth. */
  predicate Serves(mode: Mode, kind: Kind) {
    match kind
    case Lan => mode == LanMode
    case Matter => mode == MatterMode || mode == LanMode
    case Ble => mode == BleMode || mode == YuMqttMode
    case Yu => mode == YuMqttMode
    case Mqtt => mode == MqttMode
    case Http => mode == HttpMode
    case SigMesh => mode == SigMeshMode
    case ThingMesh => mode == ThingMeshMode
    case Beacon => mode == BeaconMode
    case Cloud => mode == CloudMode
  }

  lemma BringsIff(mode: Mode, kind: Kind)
    ensures kind in Brought(mode) <==> Serves(mode, kind)
  {
  }

  /** Which handlers are in the chain for a mode list: those that serve one of the modes. */
  lemma InChainIff(modes: seq<Mode>, kind: Kind)
    ensures kind in Kinds(modes) <==> exists mode :: mode in modes && Serves(mode, kind)
  {
    hide Brought, Serves;
    if kind in Kinds(modes) {
      var mode := BroughtFrom(modes, kind);
      BringsIff(mode, kind);
    }
    if mode :| mode in modes && Serves(mode, kind) {
      BringsIff(mode, kind);
      BroughtIn(modes, mode, kind);
    }
  }

  /** LAN is asked before the Matter it brings, and Bluetooth before the Yu channel; the handlers of a
      list come one after the other. */
  lemma ChainOrder(modes: seq<Mode>, mode: Mode)
    ensures Kinds(modes + [mode])
         == Kinds(modes)
            + if mode == LanMode then [Lan, Matter]
              else if mode == YuMqttMode then [Ble, Yu]
              else if mode == UnknownMode then []
              else Kinds([mode])
    ensures mode !in {LanMode, YuMqttMode, UnknownMode} ==> |Kinds([mode])| == 1
  {
    assert (modes + [mode])[..|modes|] == modes;
    assert [mode][..0] == [];
    assert Kinds([mode]) == [] + Brought(mode) == Brought(mode);
  }

  /** When Bluetooth is added or moved to the front. */
  lemma PromotionIff(modules: seq<Module>, g: Gateway)
    ensures BleMode in Modes(Promoted(modules, g)) <==>
              BleMode in Modes(modules)
              || (g.hasParent && g.parentKnown && g.parentNear && g.parentSupports)
    ensures !(g.hasParent && g.parentKnown && g.parentNear && g.parentSupports) ==>
              Promoted(modules, g) == modules
    ensures g.hasParent && g.parentKnown && g.parentNear && g.parentSupports ==>
              var promoted := Promoted(modules, g);
              && promoted != []
              && (g.prefersBle ==> promoted[0].mode == BleMode)
              && (!g.prefersBle && BleMode in Modes(modules) ==> promoted == modules)
              && (!g.prefersBle && BleMode !in Modes(modules) ==>
                    promoted == modules + [Module(BleMode, None)])
  {
    PromotedKeeps(modules, g);
    ModeIn(modules, BleMode);
    ModeIn(Promoted(modules, g), BleMode);
  }

  /** The Bluetooth module that is moved to the front is the last of them. */
  lemma LastMoves(modules: seq<Module>, g: Gateway, i: nat) returns (k: nat)
    requires g == Gateway(true, true, true, true, true)
    requires i < |modules| && modules[i].mode == BleMode
    requires forall j :: i < j < |modules| ==> modules[j].mode != BleMode
    ensures k <= i && modules[k] == modules[i]
    ensures Promoted(modules, g) == [modules[i]] + (modules[..k] + modules[k + 1..])
  {
    LastIs(modules, i);
    k := FirstRemoved(modules, modules[i]);
    hide RemoveFirst, LastBle;
    if k > i {
      assert false;
    }
  }

  lemma {:induction false} LastIs(modules: seq<Module>, i: nat)
    requires i < |modules| && modules[i].mode == BleMode
    requires forall j :: i < j < |modules| ==> modules[j].mode != BleMode
    ensures LastBle(modules) == Some(modules[i])
  {
    if i != |modules| - 1 {
      LastIs(modules[..|modules| - 1], i);
    }
  }

  lemma {:induction false} FirstRemoved(modules: seq<Module>, m: Module) returns (k: nat)
    requires m in modules
    ensures k < |modules| && modules[k] == m && forall j :: 0 <= j < k ==> modules[j] != m
    ensures RemoveFirst(modules, m) == modules[..k] + modules[k + 1..]
  {
    if modules[0] == m {
      k := 0;
    } else {
      k := FirstRemoved(modules[1..], m);
      k := k + 1;
      assert modules[..k] + modules[k + 1..]
          == [modules[0]] + (modules[1..][..k - 1] + modules[1..][k..]);
    }
  }

  /** Only an empty list is illegal, and a list gets the Yu channel at its end exactly if it begins
      with Bluetooth and does not end with that channel; both before any promotion. */
  lemma CompletedIff(modules: seq<Module>, g: Gateway, up: Channels)
    ensures Published(modules, g, up) == IllegalModes <==> |modules| == 0
    ensures Completed(modules)
         == if |modules| > 0 && modules[0].mode == BleMode && modules[|modules| - 1].mode != YuMqttMode
            then modules + [Module(YuMqttMode, None)] else modules
    ensures g.hasParent && g.parentKnown && g.parentNear && g.parentSupports && !g.prefersBle
            && BleMode !in Modes(modules) ==>
              Sequence(modules, g) == Modes(modules) + [BleMode]
  {
    ChoiceMeans(Kinds(Sequence(modules, g)), up, 0);
    ModeIn(modules, BleMode);
    if modules != [] && modules[0].mode == BleMode {
      assert modules[0] in modules;
    }
  }

  /** Handler i sends exactly if its channel is up, or needs not to be, or is a beacon that is not last,
      and this holds of none before it. */
  lemma SentIff(modules: seq<Module>, g: Gateway, up: Channels, i: nat)
    requires modules != []
    ensures var kinds := Kinds(Sequence(modules, g));
            Published(modules, g, up) == SentThrough(i)
            <==> i < |kinds|
                 && (up(kinds[i]) || kinds[i] in {Http, Cloud} || (kinds[i] == Beacon && i + 1 < |kinds|))
                 && forall j :: 0 <= j < i ==> !up(kinds[j]) && kinds[j] !in {Http, Cloud, Beacon}
  {
    hide Sequence;
    var kinds := Kinds(Sequence(modules, g));
    ChoiceMeans(kinds, up, 0);
    if i < |kinds| && Takes(kinds, i, up) && forall j :: 0 <= j < i ==> !Takes(kinds, j, up) {
      ChoiceFirst(kinds, up, 0, i);
    }
    forall j | 0 <= j < i < |kinds|
      ensures Takes(kinds, j, up) <==> up(kinds[j]) || kinds[j] in {Http, Cloud, Beacon}
    {
    }
  }

  lemma {:induction false} ChoiceFirst(kinds: seq<Kind>, up: Channels, k: nat, i: nat)
    requires k <= i < |kinds| && Takes(kinds, i, up)
    requires forall j :: k <= j < i ==> !Takes(kinds, j, up)
    ensures Choice(kinds, up, k) == SentThrough(i)
    decreases i - k
  {
    if k < i {
      ChoiceFirst(kinds, up, k + 1, i);
    }
  }
}
