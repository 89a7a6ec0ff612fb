/** The keeper of gateway links: who is live, who is being connected, when each was last heard, and
    what a listener that has been there from the start was told. */
module LinkKeeper {

  const CONNECTING_WINDOW := 10000
  const PING_STALE := 60000

  datatype Hgw = Hgw(gwId: string, ip: string, version: string)
  datatype Attempt = Attempt(hgw: Hgw, since: int)
  datatype Event = GwOn(id: string) | GwOff(id: string)

  datatype Added = StillConnecting | AlreadyOnline | ConnectNow | ConnectLater
  datatype Code = Sent(ret: int) | NotOnline | NotFound

  // ------------------------------------------------------------------------------------------
  // What a listener was told
  // ------------------------------------------------------------------------------------------

  /** The last thing told about the gateway is that it is on. */
  predicate ToldOn(heard: seq<Event>, id: string) {
    heard != [] &&
    var last := heard[|heard| - 1];
    if last.id == id then last.GwOn? else ToldOn(heard[..|heard| - 1], id)
  }

  /** Event i says "on" about the gateway, and nothing was told about it since. */
  ghost predicate OnSince(heard: seq<Event>, id: string, i: int) {
    0 <= i < |heard| && heard[i] == GwOn(id) && forall j :: i < j < |heard| ==> heard[j].id != id
  }

  lemma OnSinceAfter(heard: seq<Event>, e: Event, id: string, i: int)
    ensures OnSince(heard + [e], id, i)
        <==> if i == |heard| then e == GwOn(id) else e.id != id && OnSince(heard, id, i)
  {
    var more := heard + [e];
    assert forall j :: 0 <= j < |heard| ==> more[j] == heard[j];
    assert more[|heard|] == e;
  }

  lemma {:induction false} ToldOnIff(heard: seq<Event>, id: string)
    ensures ToldOn(heard, id) <==> exists i :: OnSince(heard, id, i)
  {
    if heard != [] {
      var n := |heard| - 1;
      var init, e := heard[..n], heard[n];
      assert heard == init + [e];
      ToldOnIff(init, id);
      hide OnSince;
      forall i ensures OnSince(heard, id, i)
                   <==> if i == n then e == GwOn(id) else e.id != id && OnSince(init, id, i) {
        OnSinceAfter(init, e, id, i);
      }
      if e == GwOn(id) {
        assert OnSince(heard, id, n);
      }
    }
  }

  /** A gateway is announced only when the last thing told was not already that it is on. */
  ghost predicate NeverTwiceOn(heard: seq<Event>) {
    forall i :: 0 <= i < |heard| && heard[i].GwOn? ==> !ToldOn(heard[..i], heard[i].id)
  }

  lemma ToldAfter(heard: seq<Event>, e: Event, id: string)
    ensures ToldOn(heard + [e], id) == if e.id == id then e.GwOn? else ToldOn(heard, id)
  {
    assert (heard + [e])[..|heard|] == heard;
  }

  lemma StillNeverTwice(heard: seq<Event>, e: Event)
    requires NeverTwiceOn(heard) && (e.GwOn? ==> !ToldOn(heard, e.id))
    ensures NeverTwiceOn(heard + [e])
  {
    hide ToldOn;
    forall i | 0 <= i < |heard + [e]| && (heard + [e])[i].GwOn?
      ensures !ToldOn((heard + [e])[..i], (heard + [e])[i].id)
    {
      assert (heard + [e])[..i] == heard[..i] || i == |heard|;
      assert i == |heard| ==> (heard + [e])[..i] == heard;
    }
  }

  /** The listener was last told "on" about exactly these gateways, never twice in a row. */
  ghost predicate TellsOn(heard: seq<Event>, ids: set<string>) {
    (forall id :: ToldOn(heard, id) <==> id in ids) && NeverTwiceOn(heard)
  }

  lemma TellOff(heard: seq<Event>, ids: set<string>, id: string)
    requires TellsOn(heard, ids)
    ensures TellsOn(heard + [GwOff(id)], ids - {id})
  {
    hide ToldOn, NeverTwiceOn;
    forall other ensures ToldOn(heard + [GwOff(id)], other) <==> other in ids - {id} {
      ToldAfter(heard, GwOff(id), other);
    }
    StillNeverTwice(heard, GwOff(id));
  }

  lemma TellOn(heard: seq<Event>, ids: set<string>, id: string)
    requires TellsOn(heard, ids) && id !in ids
    ensures TellsOn(heard + [GwOn(id)], ids + {id})
  {
    hide ToldOn, NeverTwiceOn;
    forall other ensures ToldOn(heard + [GwOn(id)], other) <==> other in ids + {id} {
      ToldAfter(heard, GwOn(id), other);
    }
    StillNeverTwice(heard, GwOn(id));
  }

  /** Exactly the gateways in the set were told off since, each once. */
  ghost predicate ToldOff(before: seq<Event>, after: seq<Event>, gone: set<string>) {
    && |after| == |before| + |gone| && before == after[..|before|]
    && (forall i :: |before| <= i < |after| ==> after[i].GwOff? && after[i].id in gone)
    && (forall id :: id in gone ==> GwOff(id) in after[|before|..])
  }

  lemma NobodyOff(heard: seq<Event>)
    ensures ToldOff(heard, heard, {})
  {
  }

  lemma OneMoreOff(before: seq<Event>, after: seq<Event>, gone: set<string>, id: string)
    requires ToldOff(before, after, gone) && id !in gone
    ensures ToldOff(before, after + [GwOff(id)], gone + {id})
  {
    var more := after + [GwOff(id)];
    assert more[..|before|] == after[..|before|];
    assert more[|before|..] == after[|before|..] + [GwOff(id)];
  }

  lemma OffThenOff(
    before: seq<Event>, between: seq<Event>, after: seq<Event>, a: set<string>, b: set<string>)
    requires ToldOff(before, between, a) && ToldOff(between, after, b) && a !! b
    ensures ToldOff(before, after, b + a)
  {
    assert |b + a| == |a| + |b|;
    assert between == after[..|between|];
    assert after[|before|..] == between[|before|..] + after[|between|..];
  }

  /** The map without some of its keys. */
  function Without<T>(m: map<string, T>, gone: set<string>): map<string, T> {
    m - gone
  }

  lemma OneMoreGone<T>(m: map<string, T>, gone: set<string>, id: string)
    ensures Without(m, gone) - {id} == Without(m, gone + {id})
  {
  }

  lemma PutAgain<T>(m: map<string, T>, id: string, v: T)
    ensures (m - {id})[id := v] == m[id := v]
  {
  }

  lemma NoneGone<T>(m: map<string, T>)
    ensures Without(m, {}) == m
  {
  }

  lemma GoneTwice<T>(m: map<string, T>, a: set<string>, b: set<string>)
    ensures Without(Without(m, a), b) == Without(m, b + a)
  {
  }

  lemma StillThere<T>(m: map<string, T>, gone: set<string>, id: string)
    requires id in m && id !in gone
    ensures id in Without(m, gone)
  {
  }

  lemma FoundAt(live: map<string, Hgw>, ip: string, id: string)
    requires id in live
    ensures id in AtAddress(live, ip) <==> live[id].ip == ip
  {
  }

  /** Of the keys to look at one has been looked at. */
  lemma LookedAt(chosen: set<string>, rest: set<string>, id: string)
    requires id in rest
    ensures id in chosen ==> chosen - (rest - {id}) == (chosen - rest) + {id}
    ensures id !in chosen ==> chosen - (rest - {id}) == chosen - rest
  {
  }

  // ------------------------------------------------------------------------------------------
  // The keeper
  // ------------------------------------------------------------------------------------------

  class DevTransfer {
    var live: map<string, Hgw>
    var connecting: map<string, Attempt>
    var ping: map<string, int>
    var heard: seq<Event>

    /** No gateway is both live and being connected; each is stored under its own name; every live
        one has a time at which it was last heard; and the listener was last told "on" about exactly
        the live ones, never twice in a row. */
    ghost predicate Valid()
      reads this
    {
      && live.Keys !! connecting.Keys
      && (forall id :: id in live ==> live[id].gwId == id)
      && (forall id :: id in connecting ==> connecting[id].hgw.gwId == id)
      && live.Keys <= ping.Keys
      && TellsOn(heard, live.Keys)
    }

    constructor ()
      ensures Valid() && live == map[] && connecting == map[] && ping == map[] && heard == []
    {
      live, connecting, ping, heard := map[], map[], map[], [];
    }

    method OnGwOnline(id: string, now: int)
      requires Valid()
      modifies this
      ensures Valid() && connecting == old(connecting) - {id} && ping == old(ping)[id := now]
      ensures id in old(connecting) ==>
                live == old(live)[id := old(connecting)[id].hgw] && heard == old(heard) + [GwOn(id)]
      ensures id !in old(connecting) ==> live == old(live) && heard == old(heard)
    {
      hide TellsOn;
      if id in connecting {
        TellOn(heard, live.Keys, id);
        var hgw := connecting[id].hgw;
        connecting := connecting - {id};
        assert live[id := hgw].Keys == live.Keys + {id};
        live := live[id := hgw];
        heard := heard + [GwOn(hgw.gwId)];
      }
      connecting := connecting - {id};
      ping := ping[id := now];
    }

    method OnGwOffline(id: string)
      requires Valid()
      modifies this
      ensures Valid() && live == old(live) - {id} && connecting == old(connecting) - {id}
      ensures ping == old(ping) - {id}
      ensures heard == old(heard) + if id in old(live) then [GwOff(id)] else []
    {
      hide TellsOn;
      connecting := connecting - {id};
      if id in live {
        TellOff(heard, live.Keys, id);
        var removed := live[id];
        assert (live - {id}).Keys == live.Keys - {id};
        live := live - {id};
        heard := heard + [GwOff(removed.gwId)];
      }
      ping := ping - {id};
    }

    method DeleteDev(id: string)
      requires Valid()
      modifies this
      ensures Valid() && live == old(live) - {id} && connecting == old(connecting)
      ensures ping == if id in old(live) then old(ping) - {id} else old(ping)
      ensures heard == old(heard) + if id in old(live) then [GwOff(id)] else []
    {
      if id !in live {
        return;
      }
      connecting := connecting - {id};
      OnGwOffline(id);
    }

    method TakeOff(id: string)
      requires Valid() && id !in connecting
      modifies this
      ensures Valid() && live == old(live) - {id} && connecting == old(connecting)
      ensures ToldOff(old(heard), heard, old(live).Keys * {id})
      ensures ping == Without(old(ping), old(live).Keys * {id})
    {
      NobodyOff(heard);
      NoneGone(ping);
      OneMoreGone(ping, {}, id);
      if id in live {
        OneMoreOff(heard, heard, {}, id);
        assert live.Keys * {id} == {} + {id};
        hide ToldOff, TellsOn;
        OnGwOffline(id);
      } else {
        assert live.Keys * {id} == {};
      }
    }

    /** Deletes the live gateways at an address. */
    method EvictAddress(ip: string) returns (conflict: bool)
      requires Valid()
      modifies this
      ensures Valid() && connecting == old(connecting)
      ensures var gone := AtAddress(old(live), ip);
              && live == Without(old(live), gone) && ping == Without(old(ping), gone)
              && ToldOff(old(heard), heard, gone) && (conflict <==> gone != {})
    {
      hide ToldOff;
      conflict := false;
      var snapshot := live;
      var rest := live.Keys;
      ghost var found := AtAddress(live, ip);
      assert forall id :: id in snapshot ==> snapshot[id].gwId == id;
      assert found - rest == {};
      NobodyOff(heard);
      NoneGone(live);
      NoneGone(ping);
      hide DevTransfer.Valid, Without, AtAddress;
      while rest != {}
        invariant Valid() && connecting == old(connecting) && rest <= snapshot.Keys
        invariant live == Without(snapshot, found - rest) && ping == Without(old(ping), found - rest)
        invariant ToldOff(old(heard), heard, found - rest) && (conflict <==> found - rest != {})
        decreases |rest|
      {
        var id :| id in rest;
        ghost var gone := found - rest;
        LookedAt(found, rest, id);
        FoundAt(snapshot, ip, id);
        rest := rest - {id};
        if snapshot[id].ip == ip {
          StillThere(snapshot, gone, id);
          OneMoreOff(old(heard), heard, gone, id);
          OneMoreGone(snapshot, gone, id);
          OneMoreGone(old(ping), gone, id);
          DeleteDev(snapshot[id].gwId);
          conflict := true;
        }
      }
      assert found - {} == found;
    }

    method DropAttempt(id: string)
      requires Valid()
      modifies this
      ensures Valid() && connecting == old(connecting) - {id}
      ensures live == old(live) && ping == old(ping) && heard == old(heard)
    {
      connecting := connecting - {id};
    }

    method Register(hgw: Hgw, now: int)
      requires Valid() && hgw.gwId !in live
      modifies this
      ensures Valid() && connecting == old(connecting)[hgw.gwId := Attempt(hgw, now)]
      ensures live == old(live) && ping == old(ping) && heard == old(heard)
    {
      connecting := connecting[hgw.gwId := Attempt(hgw, now)];
    }

    /** Takes a gateway in: not while an attempt is fresh and not while the link is up. The others at
        its address go, and the listener is told of each. */
    method AddDev(hgw: Hgw, linkUp: bool, now: int) returns (r: Added)
      requires Valid()
      modifies this
      ensures Valid()
      ensures r.StillConnecting? <==>
                hgw.gwId in old(connecting)
                && now - old(connecting)[hgw.gwId].since < CONNECTING_WINDOW
      ensures r.AlreadyOnline? <==> linkUp && !r.StillConnecting?
      ensures r.StillConnecting? ==> connecting == old(connecting)
      ensures r.AlreadyOnline? ==> connecting == old(connecting) - {hgw.gwId}
      ensures r.StillConnecting? || r.AlreadyOnline? ==>
                live == old(live) && ping == old(ping) && heard == old(heard)
      ensures r.ConnectNow? || r.ConnectLater? ==>
                var others := AtAddress(old(live) - {hgw.gwId}, hgw.ip);
                var gone := others + old(live).Keys * {hgw.gwId};
                && connecting == old(connecting)[hgw.gwId := Attempt(hgw, now)]
                && live == Without(old(live), gone) && hgw.gwId !in live
                && ping == Without(old(ping), gone)
                && ToldOff(old(heard), heard, gone) && (r.ConnectLater? <==> others != {})
    {
      hide DevTransfer.Valid, ToldOff, AtAddress, Without;
      if hgw.gwId in connecting {
        if now - connecting[hgw.gwId].since < CONNECTING_WINDOW {
          return StillConnecting;
        }
        DropAttempt(hgw.gwId);
      }
      if linkUp {
        return AlreadyOnline;
      }
      PutAgain(old(connecting), hgw.gwId, Attempt(hgw, now));
      ghost var self, others := live.Keys * {hgw.gwId}, AtAddress(live - {hgw.gwId}, hgw.ip);
      GoneTogether(live, hgw);
      TakeOff(hgw.gwId);
      ghost var between := heard;
      var conflict := EvictAddress(hgw.ip);
      OffThenOff(old(heard), between, heard, self, others);
      GoneTwice(old(ping), self, others);
      Register(hgw, now);
      return if conflict then ConnectLater else ConnectNow;
    }

    /** A failed connect leaves no trace of the gateway. */
    method CheckConnectResult(hgw: Hgw, ret: int) returns (connected: bool)
      requires Valid()
      modifies this
      ensures Valid() && connected == (ret > 0)
      ensures connected ==>
                live == old(live) && connecting == old(connecting) && ping == old(ping)
                && heard == old(heard)
      ensures !connected ==>
                live == old(live) - {hgw.gwId} && connecting == old(connecting) - {hgw.gwId}
                && ping == old(ping) - {hgw.gwId}
      ensures !connected ==>
                heard == old(heard) + if hgw.gwId in old(live) then [GwOff(hgw.gwId)] else []
    {
      connected := ret > 0;
      if !connected {
        OnGwOffline(hgw.gwId);
        connecting := connecting - {hgw.gwId};
      }
    }

    /** Without a local key the connected gateway is live at once, as it was registered; with one it
        stays in waiting until the handshake ends. */
    method BuildConnect(hgw: Hgw, hasKey: bool, ret: int, now: int)
      requires Valid()
      modifies this
      ensures Valid()
      ensures ret > 0 && hasKey ==>
                live == old(live) && connecting == old(connecting) && ping == old(ping)
                && heard == old(heard)
      ensures ret > 0 && !hasKey ==>
                live == (if hgw.gwId in old(connecting)
                         then old(live)[hgw.gwId := old(connecting)[hgw.gwId].hgw] else old(live))
                && connecting == old(connecting) - {hgw.gwId}
                && ping == old(ping)[hgw.gwId := now]
                && heard == old(heard)
                            + if hgw.gwId in old(connecting) then [GwOn(hgw.gwId)] else []
      ensures ret <= 0 ==>
                live == old(live) - {hgw.gwId} && connecting == old(connecting) - {hgw.gwId}
                && ping == old(ping) - {hgw.gwId}
                && heard == old(heard) + if hgw.gwId in old(live) then [GwOff(hgw.gwId)] else []
    {
      var connected := CheckConnectResult(hgw, ret);
      if connected && !hasKey {
        OnGwOnline(hgw.gwId, now);
      }
    }

    /** Any answer counts as a sign of life, also from a gateway that is not live. */
    method OnResponseData(id: string, now: int)
      requires Valid()
      modifies this
      ensures Valid() && live == old(live) && connecting == old(connecting)
      ensures ping == old(ping)[id := now] && heard == old(heard)
    {
      ping := ping[id := now];
    }

    /** A send; a link that is down, or that the send shows to be down, takes the gateway off. An
        unknown gateway is reported off once more. */
    method ControlByBinary(id: string, linkUp: bool, ret: int) returns (code: Code)
      requires Valid()
      modifies this
      ensures Valid()
      ensures code == (if id !in old(live) then NotFound else if linkUp then Sent(ret) else NotOnline)
      ensures var dropped := !code.Sent? || ret == -1 || ret == -2;
              && live == (if dropped then old(live) - {id} else old(live))
              && ping == (if dropped then old(ping) - {id} else old(ping))
              && heard == old(heard) + (if dropped then [GwOff(id)] else [])
      ensures connecting == old(connecting)
    {
      if linkUp && id in live {
        if ret == -1 || ret == -2 {
          OnGwOffline(id);
        }
        return Sent(ret);
      }
      if id in live {
        OnGwOffline(id);
        return NotOnline;
      }
      hide TellsOn;
      TellOff(heard, live.Keys, id);
      live := live - {id};
      heard := heard + [GwOff(id)];
      assert live.Keys == live.Keys - {id};
      ping := ping - {id};
      return NotFound;
    }

    method Expire(id: string)
      requires Valid()
      modifies this
      ensures Valid() && live == old(live) - {id} && connecting == old(connecting)
      ensures ping == old(ping) - {id}
      ensures id in old(live) ==> heard == old(heard) + [GwOff(id)]
      ensures id !in old(live) ==> heard == old(heard)
    {
      DeleteDev(id);
      ping := ping - {id};
    }

    /** After the timer has run, every gateway that is still live was heard within a minute. */
    method UpdateTimerTask(now: int)
      requires Valid()
      modifies this
      ensures Valid() && connecting == old(connecting)
      ensures var stale := Stale(old(ping), now);
              && live == Without(old(live), stale) && ping == Without(old(ping), stale)
              && ToldOff(old(heard), heard, Among(stale, old(live)))
      ensures forall id :: id in live ==> id in ping && now - ping[id] <= PING_STALE
    {
      hide ToldOff;
      var snapshot := ping;
      var rest := ping.Keys;
      ghost var stale, start := Stale(ping, now), live;
      assert stale - rest == {} && Among({}, start) == {};
      NobodyOff(heard);
      NoneGone(live);
      NoneGone(ping);
      hide DevTransfer.Valid, Without, Stale, Among;
      while rest != {}
        invariant Valid() && connecting == old(connecting) && rest <= snapshot.Keys
        invariant live == Without(start, stale - rest) && ping == Without(snapshot, stale - rest)
        invariant ToldOff(old(heard), heard, Among(stale - rest, start))
        decreases |rest|
      {
        var id :| id in rest;
        ghost var gone := stale - rest;
        LookedAt(stale, rest, id);
        StaleAt(snapshot, now, id);
        rest := rest - {id};
        if now - snapshot[id] > PING_STALE {
          LiveAmong(start, gone, id);
          OneMoreOff(old(heard), heard, Among(gone, start), id);
          OneMoreGone(start, gone, id);
          OneMoreGone(snapshot, gone, id);
          Expire(id);
        }
      }
      assert stale - {} == stale;
      KeepsStamps();
      StampsLeft(snapshot, now);
    }

    lemma KeepsStamps()
      requires Valid()
      ensures live.Keys <= ping.Keys
    {
    }

    /** Tells the listener that every live gateway is off, and forgets them. */
    method OnDestroy()
      requires Valid()
      modifies this
      ensures Valid() && live == map[] && connecting == map[] && ping == old(ping)
      ensures ToldOff(old(heard), heard, old(live).Keys)
    {
      hide ToldOff, TellsOn;
      var rest := live.Keys;
      ghost var all := rest;
      NobodyOff(heard);
      assert all - rest == {};
      assert forall id :: id in live ==> live[id].gwId == id;
      while rest != {}
        invariant rest <= all && live == old(live) && ping == old(ping)
        invariant TellsOn(heard, rest) && ToldOff(old(heard), heard, all - rest)
        decreases |rest|
      {
        var id :| id in rest;
        OneMoreOff(old(heard), heard, all - rest, id);
        TellOff(heard, rest, id);
        LookedAt(all, rest, id);
        rest := rest - {id};
        heard := heard + [GwOff(live[id].gwId)];
      }
      assert all - {} == all;
      live := map[];
      connecting := map[];
      assert live.Keys == {};
    }

    method DeleteAllDev()
      requires Valid()
      modifies this
      ensures Valid() && live == map[] && connecting == map[] && ping == map[]
      ensures ToldOff(old(heard), heard, old(live).Keys)
    {
      connecting := map[];
      OnDestroy();
      ping := map[];
    }
  }

  lemma GoneTogether(live: map<string, Hgw>, hgw: Hgw)
    ensures var self, others := live.Keys * {hgw.gwId}, AtAddress(live - {hgw.gwId}, hgw.ip);
            && self !! others
            && Without(live - {hgw.gwId}, others) == Without(live, others + self)
            && hgw.gwId !in Without(live, others + self)
  {
  }

  function AtAddress(live: map<string, Hgw>, ip: string): set<string> {
    set id | id in live && live[id].ip == ip
  }

  lemma StaleAt(ping: map<string, int>, now: int, id: string)
    requires id in ping
    ensures id in Stale(ping, now) <==> now - ping[id] > PING_STALE
  {
  }

  lemma StampsLeft(ping: map<string, int>, now: int)
    ensures forall id :: id in Without(ping, Stale(ping, now)) ==>
              now - Without(ping, Stale(ping, now))[id] <= PING_STALE
  {
  }

  lemma LiveAmong(live: map<string, Hgw>, gone: set<string>, id: string)
    requires id !in gone
    ensures id in Without(live, gone) <==> id in live
    ensures id !in Among(gone, live)
    ensures id in live ==> Among(gone + {id}, live) == Among(gone, live) + {id}
    ensures id !in live ==> Among(gone + {id}, live) == Among(gone, live)
  {
  }

  function Among(gone: set<string>, live: map<string, Hgw>): set<string> {
    gone * live.Keys
  }

  function Stale(ping: map<string, int>, now: int): set<string> {
    set id | id in ping && now - ping[id] > PING_STALE
  }
}
