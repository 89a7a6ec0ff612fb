/** The duplicate-message cache: a repeat of a message within five seconds is swallowed once, and
    stale entries are thrown out when a store has grown too large. */
module Dedup {
  import opened Options
  import opened JsonText

  const WINDOW := 5000
  const SMALL_THRESHOLD := 300
  const LARGE_THRESHOLD := 900

  type Key = Text
  type Store = map<Key, int>

  datatype Request = ByNumber(device: Text, s: int) | ByPair(device: Text, s: int, o: int)

  /** One call: the request, the clock, and the attribute of the device if the device is known. */
  datatype Call = Call(request: Request, now: int, attribute: Option<int>)

  datatype Slot = Small(key: Key) | Large(key: Key)

  datatype Stores = Stores(small: Store, large: Store)

  predicate Fresh(seen: int, now: int) {
    -WINDOW < now - seen < WINDOW
  }

  function NumberKey(device: Text, s: int): Key {
    device + IntText(s)
  }

  function PairKey(device: Text, s: int, o: int): Key {
    device + IntText(s) + IntText(o)
  }

  function NotLowPower(attribute: Option<int>): bool {
    match attribute
    case None => true
    case Some(a) => a / 0x1000 % 2 == 0
  }

  // ------------------------------------------------------------------------------------------
  // The cache as a function
  // ------------------------------------------------------------------------------------------

  function FreshOnly(store: Store, now: int): Store {
    map k | k in store && Fresh(store[k], now) :: store[k]
  }

  predicate Hit(store: Store, key: Key, now: int) {
    key in store && Fresh(store[key], now)
  }

  function After(store: Store, key: Key, threshold: nat, now: int): Store {
    if Hit(store, key, now) then store - {key}
    else if |store| > threshold then FreshOnly(store, now)[key := now]
    else store[key := now]
  }

  /** The store and key a request is looked up by; none for s = -1 and for o = 0. */
  function SlotOf(q: Request): Option<Slot> {
    match q
    case ByNumber(device, s) => if s == -1 then None else Some(Small(NumberKey(device, s)))
    case ByPair(device, s, o) => if o == 0 then None else Some(Large(PairKey(device, s, o)))
  }

  function RawAnswer(st: Stores, c: Call): bool {
    match SlotOf(c.request)
    case None => c.request.ByNumber?
    case Some(Small(key)) => Hit(st.small, key, c.now)
    case Some(Large(key)) => Hit(st.large, key, c.now)
  }

  function Served(st: Stores, c: Call): Stores {
    match SlotOf(c.request)
    case None => st
    case Some(Small(key)) => st.(small := After(st.small, key, SMALL_THRESHOLD, c.now))
    case Some(Large(key)) => st.(large := After(st.large, key, LARGE_THRESHOLD, c.now))
  }

  function Answer(st: Stores, c: Call): bool {
    RawAnswer(st, c) && NotLowPower(c.attribute)
  }

  function Outcome(calls: seq<Call>): Stores {
    if calls == [] then Stores(map[], map[])
    else Served(Outcome(calls[..|calls| - 1]), calls[|calls| - 1])
  }

  // ------------------------------------------------------------------------------------------
  // The cache as the program keeps it
  // ------------------------------------------------------------------------------------------

  method Lookup(store: Store, key: Key, threshold: nat, now: int)
    returns (hit: bool, store': Store)
    ensures hit == Hit(store, key, now)
    ensures store' == After(store, key, threshold, now)
  {
    store' := store;
    if key in store && Fresh(store[key], now) {
      store' := store' - {key};
      return true, store';
    }
    if |store| > threshold {
      var stale := set k | k in store && !Fresh(store[k], now);
      while stale != {}
        invariant forall k :: k in stale ==> k in store && !Fresh(store[k], now)
        invariant store' == map k | k in store && (Fresh(store[k], now) || k in stale) :: store[k]
        decreases |stale|
      {
        var k :| k in stale;
        store' := store' - {k};
        stale := stale - {k};
      }
    }
    store' := store'[key := now];
    hit := false;
  }

  class ThingMessageCache {
    var small: Store
    var large: Store

    constructor ()
      ensures Contents() == Outcome([])
    {
      small, large := map[], map[];
    }

    function Contents(): Stores
      reads this
    {
      Stores(small, large)
    }

    method CheckNumber(device: Text, s: int, now: int) returns (seen: bool)
      modifies this
      ensures forall a :: seen == RawAnswer(old(Contents()), Call(ByNumber(device, s), now, a))
      ensures forall a :: Contents() == Served(old(Contents()), Call(ByNumber(device, s), now, a))
    {
      if s == -1 {
        return true;
      }
      seen, small := Lookup(small, NumberKey(device, s), SMALL_THRESHOLD, now);
    }

    method CheckPair(device: Text, s: int, o: int, now: int) returns (seen: bool)
      modifies this
      ensures forall a :: seen == RawAnswer(old(Contents()), Call(ByPair(device, s, o), now, a))
      ensures forall a :: Contents() == Served(old(Contents()), Call(ByPair(device, s, o), now, a))
    {
      if o == 0 {
        return false;
      }
      seen, large := Lookup(large, PairKey(device, s, o), LARGE_THRESHOLD, now);
    }

    /** Every call keeps the cache in step with the history of calls, and its answer is the one the
        history calls for. */
    method IsDataUpdated(c: Call, ghost history: seq<Call>) returns (updated: bool)
      requires Contents() == Outcome(history) && Ordered(history + [c])
      modifies this
      ensures Contents() == Outcome(history + [c])
      ensures updated == (Repeated(history + [c]) && NotLowPower(c.attribute))
    {
      ghost var extended := history + [c];
      assert extended[..|extended| - 1] == history;
      AnswerIsRepeated(extended);
      match c.request {
        case ByNumber(device, s) => updated := CheckNumber(device, s, c.now);
        case ByPair(device, s, o) => updated := CheckPair(device, s, o, c.now);
      }
      updated := updated && NotLowPower(c.attribute);
    }
  }

  // ------------------------------------------------------------------------------------------
  // What an answer means
  // ------------------------------------------------------------------------------------------

  predicate Ordered(calls: seq<Call>) {
    forall i, j :: 0 <= i <= j < |calls| ==> calls[i].now <= calls[j].now
  }

  /** The last call that used the slot. */
  function Previous(calls: seq<Call>, slot: Slot): (r: Option<nat>)
    ensures r.Some? ==> r.value < |calls| && SlotOf(calls[r.value].request) == Some(slot)
  {
    if calls == [] then None
    else if SlotOf(calls[|calls| - 1].request) == Some(slot) then Some(|calls| - 1)
    else Previous(calls[..|calls| - 1], slot)
  }

  /** What the last call is told, said without stores, thresholds and eviction: it repeats a message
      if the previous call with the same key was told that it did not, less than five seconds
      ago. */
  predicate Repeated(calls: seq<Call>)
    requires calls != []
    decreases |calls|
  {
    var n := |calls| - 1;
    match SlotOf(calls[n].request)
    case None => calls[n].request.ByNumber?
    case Some(slot) =>
      match Previous(calls[..n], slot)
      case None => false
      case Some(j) => !Repeated(calls[..j + 1]) && calls[n].now - calls[j].now < WINDOW
  }

  function Kept(st: Stores, slot: Slot): Option<int> {
    match slot
    case Small(k) => if k in st.small then Some(st.small[k]) else None
    case Large(k) => if k in st.large then Some(st.large[k]) else None
  }

  /** The time the slot was last missed, when no hit has used it up since. */
  function Pending(calls: seq<Call>, slot: Slot): Option<int> {
    match Previous(calls, slot)
    case None => None
    case Some(j) => if Repeated(calls[..j + 1]) then None else Some(calls[j].now)
  }

  /** What is stored for a slot is what is pending; a pending entry is missing only when stale. */
  ghost predicate Tracks(st: Stores, calls: seq<Call>, slot: Slot)
    requires calls != []
  {
    && (Kept(st, slot).Some? ==> Kept(st, slot) == Pending(calls, slot))
    && (Pending(calls, slot).Some? && calls[|calls| - 1].now - Pending(calls, slot).value < WINDOW
        ==> Kept(st, slot) == Pending(calls, slot))
  }

  lemma PendingPast(calls: seq<Call>, slot: Slot)
    requires Ordered(calls)
    ensures Pending(calls, slot).Some? ==>
              calls != [] && Pending(calls, slot).value <= calls[|calls| - 1].now
  {
    hide Repeated;
  }

  lemma PreviousStep(calls: seq<Call>, slot: Slot)
    requires calls != []
    ensures Previous(calls, slot) ==
      var n := |calls| - 1;
      if SlotOf(calls[n].request) == Some(slot) then Some(n) else Previous(calls[..n], slot)
  {
    hide SlotOf;
  }

  lemma PendingStep(calls: seq<Call>, slot: Slot)
    requires calls != []
    ensures Pending(calls, slot) ==
      var n := |calls| - 1;
      if SlotOf(calls[n].request) != Some(slot) then Pending(calls[..n], slot)
      else if Repeated(calls) then None else Some(calls[n].now)
  {
    hide Repeated, SlotOf, Previous;
    var n := |calls| - 1;
    PreviousStep(calls, slot);
    assert calls[..n + 1] == calls;
    if SlotOf(calls[n].request) != Some(slot) && Previous(calls[..n], slot).Some? {
      var j := Previous(calls[..n], slot).value;
      assert calls[..n][..j + 1] == calls[..j + 1];
    }
  }

  /** The answer for a slot, from what is pending for it. */
  lemma RepeatedFromPending(calls: seq<Call>, slot: Slot)
    requires calls != [] && SlotOf(calls[|calls| - 1].request) == Some(slot)
    ensures var n := |calls| - 1;
            Repeated(calls) == (Pending(calls[..n], slot).Some?
                                && calls[n].now - Pending(calls[..n], slot).value < WINDOW)
  {
    hide SlotOf;
    var n := |calls| - 1;
    if Previous(calls[..n], slot).Some? {
      var j := Previous(calls[..n], slot).value;
      assert calls[..n][..j + 1] == calls[..j + 1];
      hide Previous;
      assert Repeated(calls) == (!Repeated(calls[..j + 1]) && calls[n].now - calls[j].now < WINDOW);
    }
  }

  /** What one call does to one slot. */
  lemma KeptStep(st: Stores, c: Call, slot: Slot)
    ensures SlotOf(c.request) == Some(slot) ==>
      && RawAnswer(st, c) == (Kept(st, slot).Some? && Fresh(Kept(st, slot).value, c.now))
      && Kept(Served(st, c), slot) == if RawAnswer(st, c) then None else Some(c.now)
    ensures SlotOf(c.request) != Some(slot) ==>
      || Kept(Served(st, c), slot) == Kept(st, slot)
      || (Kept(st, slot).Some? && !Fresh(Kept(st, slot).value, c.now)
          && Kept(Served(st, c), slot) == None)
  {
  }

  lemma NothingPending(slot: Slot)
    ensures Pending([], slot) == None && Kept(Outcome([]), slot) == None
  {
  }

  lemma {:induction false} OutcomeTracks(calls: seq<Call>, slot: Slot)
    requires calls != [] && Ordered(calls)
    ensures Tracks(Outcome(calls), calls, slot)
  {
    hide Repeated, Pending, Served, RawAnswer, SlotOf, Kept;
    var n := |calls| - 1;
    var before, c := calls[..n], calls[n];
    PendingStep(calls, slot);
    KeptStep(Outcome(before), c, slot);
    NothingPending(slot);
    if before != [] {
      OutcomeTracks(before, slot);
      if Pending(before, slot).Some? {
        PendingPast(before, slot);
      }
    }
    if SlotOf(c.request) == Some(slot) {
      RepeatedFromPending(calls, slot);
    }
  }

  /** Under a clock that does not run backwards, the raw answer is "repeated" exactly when the
      previous call with the key was a miss less than five seconds ago; so what eviction throws out
      never changes an answer. */
  lemma AnswerIsRepeated(calls: seq<Call>)
    requires calls != [] && Ordered(calls)
    ensures RawAnswer(Outcome(calls[..|calls| - 1]), calls[|calls| - 1]) == Repeated(calls)
  {
    var n := |calls| - 1;
    var before, c := calls[..n], calls[n];
    if SlotOf(c.request).Some? {
      hide Repeated, Pending, Served, RawAnswer, SlotOf, Kept;
      var slot := SlotOf(c.request).value;
      RepeatedFromPending(calls, slot);
      KeptStep(Outcome(before), c, slot);
      NothingPending(slot);
      if before != [] {
        OutcomeTracks(before, slot);
        if Pending(before, slot).Some? {
          PendingPast(before, slot);
        }
      }
    }
  }

  // ------------------------------------------------------------------------------------------
  // How large a store grows
  // ------------------------------------------------------------------------------------------

  ghost predicate AllFresh(store: Store, now: int) {
    forall k :: k in store ==> Fresh(store[k], now)
  }

  ghost predicate BoundedOrFresh(store: Store, threshold: nat, now: int) {
    |store| > threshold + 1 ==> AllFresh(store, now)
  }

  lemma FreshOnlyIsFresh(store: Store, key: Key, now: int)
    ensures AllFresh(FreshOnly(store, now)[key := now], now)
  {
  }

  lemma AddOne(store: Store, key: Key, now: int)
    ensures |store[key := now]| == if key in store then |store| else |store| + 1
  {
    var bigger := store[key := now];
    assert bigger.Keys == store.Keys + {key};
    assert |store.Keys| == |store| && |bigger.Keys| == |bigger|;
  }

  lemma DropOne(store: Store, key: Key)
    requires key in store
    ensures |store - {key}| == |store| - 1
  {
    var smaller := store - {key};
    assert smaller.Keys == store.Keys - {key};
    assert |store.Keys| == |store| && |smaller.Keys| == |smaller|;
  }

  /** A miss leaves a store that is small or all fresh. A hit does not look at the other entries:
      it leaves one exactly if the store was small before it or held nothing stale. */
  lemma BoundedOrFreshAfterIff(store: Store, key: Key, threshold: nat, now: int)
    ensures BoundedOrFresh(After(store, key, threshold, now), threshold, now)
        <==> (!Hit(store, key, now) || |store| <= threshold + 2 || AllFresh(store, now))
  {
    FreshOnlyIsFresh(store, key, now);
    AddOne(store, key, now);
    if Hit(store, key, now) {
      DropOne(store, key);
      var rest := store - {key};
      if AllFresh(rest, now) {
        forall k | k in store ensures Fresh(store[k], now) {
          assert k == key || (k in rest && rest[k] == store[k]);
        }
      } else {
        var k :| k in rest && !Fresh(rest[k], now);
        assert k in store && store[k] == rest[k];
      }
    }
  }

  function StoreOf(st: Stores, large: bool): Store {
    if large then st.large else st.small
  }

  function Threshold(large: bool): nat {
    if large then LARGE_THRESHOLD else SMALL_THRESHOLD
  }

  /** The clock at the last call that missed in the store. */
  function LastMiss(calls: seq<Call>, large: bool): Option<int> {
    if calls == [] then None
    else
      var n := |calls| - 1;
      var slot := SlotOf(calls[n].request);
      if slot.Some? && slot.value.Large? == large && !RawAnswer(Outcome(calls[..n]), calls[n])
      then Some(calls[n].now)
      else LastMiss(calls[..n], large)
  }

  /** In every run, a store beyond its threshold holds only what was fresh at its last miss. */
  lemma {:induction false} OversizedWasFresh(calls: seq<Call>, large: bool)
    ensures var store := StoreOf(Outcome(calls), large);
            |store| <= Threshold(large) + 1
            || (LastMiss(calls, large).Some? && AllFresh(store, LastMiss(calls, large).value))
  {
    if calls != [] {
      var n := |calls| - 1;
      var store := StoreOf(Outcome(calls[..n]), large);
      OversizedWasFresh(calls[..n], large);
      var slot := SlotOf(calls[n].request);
      if slot.Some? && slot.value.Large? == large {
        var key, now := slot.value.key, calls[n].now;
        BoundedOrFreshAfterIff(store, key, Threshold(large), now);
        if Hit(store, key, now) {
          DropOne(store, key);
        }
      }
    }
  }

  /** The store after messages 1 to n at time zero. */
  function Filled(n: nat): Store {
    if n == 0 then map[] else Filled(n - 1)[IntText(n) := 0]
  }

  function Burst(n: nat): seq<Call> {
    if n == 0 then [] else Burst(n - 1) + [Call(ByNumber([], n), 0, None)]
  }

  lemma {:induction false} FilledHas(n: nat, m: nat)
    requires n < m
    ensures IntText(m) !in Filled(n) && |Filled(n)| == n
    ensures forall k :: k in Filled(n) ==> Filled(n)[k] == 0
  {
    hide IntText;
    if n > 0 {
      FilledHas(n - 1, n);
      FilledHas(n - 1, m);
      AddOne(Filled(n - 1), IntText(n), 0);
      if IntText(m) == IntText(n) {
        IntTextInjective(m, n);
      }
    }
  }

  lemma NumberedMiss(st: Stores, s: nat, now: int)
    requires IntText(s) !in st.small && AllFresh(st.small, now)
    ensures Served(st, Call(ByNumber([], s), now, None))
         == Stores(st.small[IntText(s) := now], st.large)
  {
    assert NumberKey([], s) == IntText(s);
    assert FreshOnly(st.small, now) == st.small;
  }

  lemma {:induction false} BurstFills(n: nat)
    ensures Outcome(Burst(n)) == Stores(Filled(n), map[])
    ensures |Burst(n)| == n && forall i :: 0 <= i < n ==> Burst(n)[i].now == 0
  {
    hide IntText, Served;
    if n > 0 {
      BurstFills(n - 1);
      assert Burst(n)[..n - 1] == Burst(n - 1);
      FilledHas(n - 1, n);
      NumberedMiss(Outcome(Burst(n - 1)), n, 0);
    }
  }

  ghost predicate OversizedStale(calls: seq<Call>) {
    && calls != [] && Ordered(calls)
    && |Outcome(calls).small| > SMALL_THRESHOLD + 1
    && forall k :: k in Outcome(calls).small ==>
         !Fresh(Outcome(calls).small[k], calls[|calls| - 1].now)
  }

  lemma NumberedHit(st: Stores, s: nat, now: int)
    requires Hit(st.small, IntText(s), now)
    ensures Served(st, Call(ByNumber([], s), now, None))
         == Stores(st.small - {IntText(s)}, st.large)
  {
    assert NumberKey([], s) == IntText(s);
  }

  /** A hit can leave an oversized store that holds nothing but stale entries. */
  lemma OversizedAndStale()
    ensures exists calls: seq<Call> :: OversizedStale(calls)
  {
    hide IntText, Filled, Burst, Outcome, Served;
    var n := SMALL_THRESHOLD + 2;
    var again := n + 1;
    var miss := Call(ByNumber([], again), 4999, None);
    var hit := Call(ByNumber([], again), 5001, None);
    var calls := Burst(n) + [miss] + [hit];
    BurstFills(n);
    OutcomeOfTwo(Burst(n), miss, hit);
    FilledHas(n, again);
    NumberedMiss(Stores(Filled(n), map[]), again, 4999);
    NumberedHit(Stores(Filled(n)[IntText(again) := 4999], map[]), again, 5001);
    assert Filled(n)[IntText(again) := 4999] - {IntText(again)} == Filled(n);
    assert OversizedStale(calls);
  }

  lemma OutcomeOfTwo(calls: seq<Call>, c: Call, d: Call)
    ensures Outcome(calls + [c] + [d]) == Served(Served(Outcome(calls), c), d)
  {
    hide Served;
    assert (calls + [c])[..|calls|] == calls;
    assert (calls + [c] + [d])[..|calls| + 1] == calls + [c];
  }

  // ------------------------------------------------------------------------------------------
  // Keys
  // ------------------------------------------------------------------------------------------

  /** Numbered messages that share a key are the same message exactly if their device identifiers
      are equally long. */
  lemma NumberKeysApart(d: Text, s: int, d': Text, s': int)
    ensures NumberKey(d, s) == NumberKey(d', s') ==>
              ((d == d' && s == s') <==> |d| == |d'|)
  {
    if NumberKey(d, s) == NumberKey(d', s') && |d| == |d'| {
      assert d == NumberKey(d, s)[..|d|] && d' == NumberKey(d', s')[..|d|];
      assert IntText(s) == NumberKey(d, s)[|d|..] && IntText(s') == NumberKey(d', s')[|d|..];
      IntTextInjective(s, s');
    }
  }

  /** They share a key exactly if what the longer identifier has more stands at the front of the
      other number. */
  lemma NumberKeysMeetIff(d: Text, s: int, d': Text, s': int)
    requires |d| <= |d'|
    ensures NumberKey(d, s) == NumberKey(d', s')
        <==> exists more: Text :: d' == d + more && IntText(s) == more + IntText(s')
  {
    hide IntText;
    if NumberKey(d, s) == NumberKey(d', s') {
      var more := d'[|d|..];
      assert d == NumberKey(d, s)[..|d|] && d' == NumberKey(d', s')[..|d'|];
      assert d' == d + more;
      assert IntText(s) == NumberKey(d, s)[|d|..];
      assert IntText(s) == more + IntText(s');
    }
    if more: Text :| d' == d + more && IntText(s) == more + IntText(s') {
      assert NumberKey(d', s') == d + (more + IntText(s'));
    }
  }

  /** With two numbers, messages that share a key are the same message exactly if identifiers and
      first numbers are written with equally many characters. */
  lemma PairKeysApart(d: Text, s: int, o: int, d': Text, s': int, o': int)
    ensures PairKey(d, s, o) == PairKey(d', s', o') ==>
              ((d == d' && s == s' && o == o')
               <==> |d| == |d'| && |IntText(s)| == |IntText(s')|)
  {
    if PairKey(d, s, o) == PairKey(d', s', o') && |d| == |d'| && |IntText(s)| == |IntText(s')| {
      var n := |NumberKey(d, s)|;
      assert NumberKey(d, s) == PairKey(d, s, o)[..n];
      assert NumberKey(d', s') == PairKey(d', s', o')[..n];
      NumberKeysApart(d, s, d', s');
      assert IntText(o) == PairKey(d, s, o)[n..] && IntText(o') == PairKey(d', s', o')[n..];
      IntTextInjective(o, o');
    }
  }

  /** Two calls on one slot at one time: the second counts as a repeat. */
  lemma SecondRepeats(first: Call, second: Call)
    requires first.now == second.now
    requires SlotOf(first.request).Some? && SlotOf(second.request) == SlotOf(first.request)
    ensures Repeated([first, second])
  {
    hide SlotOf;
    var calls := [first, second];
    var slot := SlotOf(second.request).value;
    assert calls[..1] == [first] && [first][..0] == [];
    assert Previous([first], slot) == Some(0);
    assert calls[..0 + 1] == [first];
    assert !Repeated([first]);
  }

  /** Different messages of different devices can share a key: a message never seen before is taken
      for a repeat. */
  lemma NumbersCollide(d: Text, t: int, a: Option<int>)
    ensures Repeated([Call(ByNumber(d, 12), t, a), Call(ByNumber(d + [0x31], 2), t, a)])
  {
    var first, second := Call(ByNumber(d, 12), t, a), Call(ByNumber(d + [0x31], 2), t, a);
    assert IntText(12) == [0x31] + IntText(2);
    assert NumberKey(d, 12) == d + ([0x31] + IntText(2)) == NumberKey(d + [0x31], 2);
    SecondRepeats(first, second);
  }

  /** With two numbers this happens within one device. */
  lemma PairsCollide(d: Text, t: int, a: Option<int>)
    ensures Repeated([Call(ByPair(d, 1, 23), t, a), Call(ByPair(d, 12, 3), t, a)])
  {
    var first, second := Call(ByPair(d, 1, 23), t, a), Call(ByPair(d, 12, 3), t, a);
    assert IntText(1) + IntText(23) == IntText(12) + IntText(3);
    assert d + (IntText(1) + IntText(23)) == PairKey(d, 1, 23);
    assert d + (IntText(12) + IntText(3)) == PairKey(d, 12, 3);
    SecondRepeats(first, second);
  }

  // ------------------------------------------------------------------------------------------
  // One call, entry by entry
  // ------------------------------------------------------------------------------------------

  /** Whether a store has an entry for the key that is less than five seconds away. */
  predicate Near(store: Store, key: Key, now: int) {
    key in store && store[key] < now + 5000 && now < store[key] + 5000
  }

  /** What stands in a store after a call: a repeat takes its entry out; anything else is entered, and
      if there were more entries than the limit, the old ones go. */
  lemma StoreAfterIff(store: Store, key: Key, limit: nat, now: int, k: Key)
    ensures Near(store, key, now) ==>
              (k in After(store, key, limit, now) <==> k in store && k != key)
    ensures !Near(store, key, now) ==>
              && (k in After(store, key, limit, now)
                  <==> k == key || (k in store && (|store| <= limit || Near(store, k, now))))
              && After(store, key, limit, now)[key] == now
    ensures k in After(store, key, limit, now) && k != key ==>
              After(store, key, limit, now)[k] == store[k]
  {
  }

  /** A number is looked up in the small store unless it is -1, which always counts as seen. */
  lemma NumberLookedUp(st: Stores, c: Call, device: Text, s: int)
    requires c.request == ByNumber(device, s)
    ensures var key := device + IntText(s);
            && (RawAnswer(st, c) <==> s == -1 || Near(st.small, key, c.now))
            && Served(st, c) == if s == -1 then st
                                else Stores(After(st.small, key, 300, c.now), st.large)
  {
  }

  /** A pair is looked up in the large store unless its second number is 0, which never counts as
      seen; a first number of -1 is looked up as any other. */
  lemma PairLookedUp(st: Stores, c: Call, device: Text, s: int, o: int)
    requires c.request == ByPair(device, s, o)
    ensures var key := device + IntText(s) + IntText(o);
            && (RawAnswer(st, c) <==> o != 0 && Near(st.large, key, c.now))
            && Served(st, c) == if o == 0 then st
                                else Stores(st.small, After(st.large, key, 900, c.now))
  {
  }

  /** Bit 12 of the attribute marks a device of low power, whatever stands above and below it; a device
      that is not known is not one. */
  lemma LowPowerBit(above: int, bit: bool, below: nat)
    requires below < 4096
    ensures NotLowPower(Some(above * 8192 + (if bit then 4096 else 0) + below)) == !bit
    ensures NotLowPower(None)
  {
    var a := above * 8192 + (if bit then 4096 else 0) + below;
    var b := above * 2 + if bit then 1 else 0;
    assert a == b * 4096 + below;
    assert a / 4096 == b;
  }
}
