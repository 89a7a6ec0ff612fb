/** Publishing data points over the local network, the message broker and HTTP, each as the fallback
    of the one before. Channels reply later, in any order and perhaps more than once, and what the
    program meets may be different at every step. */
module PublishCascade {

  datatype Channel = Lan | Mqtt | Http
  datatype Answer = Success | Failure(code: string)

  /** What a step meets on its way. The map of data points is built anew for every channel, so that
      each time it may be refused. */
  datatype Situation = Situation(
    deviceKnown: bool, mapAccepted: bool, lanOnline: bool, lanMapAccepted: bool,
    serverUp: bool, networkUp: bool, deviceOnline: bool, mqttThere: bool, mqttMapAccepted: bool,
    httpThere: bool, httpMapAccepted: bool, nodeGiven: bool, subDeviceFound: bool)

  /** A channel that was asked to send, and its replies so far. */
  datatype Request = Request(channel: Channel, replies: seq<Answer>)

  /** One publish: the channels asked, what the caller was told, and how often the way ended at a
      channel that is not there. */
  datatype Publish = Publish(requests: seq<Request>, told: seq<Answer>, stranded: nat)

  /** Request r replies, and the program meets a situation when it goes on from there. */
  datatype Event = Event(r: nat, answer: Answer, situation: Situation)

  // ------------------------------------------------------------------------------------------
  // The cascade as a function
  // ------------------------------------------------------------------------------------------

  function Told(p: Publish, answer: Answer): Publish {
    p.(told := p.told + [answer])
  }

  function Asked(p: Publish, channel: Channel): Publish {
    p.(requests := p.requests + [Request(channel, [])])
  }

  function ByHttp(p: Publish, s: Situation): Publish {
    if !s.httpMapAccepted then Told(p, Failure("11001"))
    else if s.nodeGiven && !s.subDeviceFound then Told(p, Failure("10203"))
    else if s.httpThere then Asked(p, Http)
    else p.(stranded := p.stranded + 1)
  }

  function ByServer(p: Publish, s: Situation): Publish {
    if !s.serverUp && s.networkUp then ByHttp(p, s)
    else if !s.deviceOnline then Told(p, Failure("10203"))
    else if !s.mqttThere then p.(stranded := p.stranded + 1)
    else if !s.mqttMapAccepted then ByHttp(p, s)
    else Asked(p, Mqtt)
  }

  function Begun(s: Situation): Publish {
    var p := Publish([], [], 0);
    if !s.deviceKnown then Told(p, Failure("11002"))
    else if !s.mapAccepted then Told(p, Failure("11001"))
    else if !s.lanOnline || !s.lanMapAccepted then ByServer(p, s)
    else Asked(p, Lan)
  }

  /** A reply noted with its request. */
  function Noted(p: Publish, r: nat, answer: Answer): Publish
    requires r < |p.requests|
  {
    p.(requests := p.requests[r := p.requests[r].(replies := p.requests[r].replies + [answer])])
  }

  function Replied(p: Publish, e: Event): Publish
    requires e.r < |p.requests|
  {
    var q := Noted(p, e.r, e.answer);
    var channel := p.requests[e.r].channel;
    if e.answer.Success? || channel.Http? then Told(q, e.answer)
    else if channel.Lan? then ByServer(q, e.situation)
    else ByHttp(q, e.situation)
  }

  /** Replies come from channels that were asked. */
  predicate IsRun(start: Situation, events: seq<Event>)
    decreases |events|, 0
  {
    events == []
    || (IsRun(start, events[..|events| - 1])
        && events[|events| - 1].r < |Outcome(start, events[..|events| - 1]).requests|)
  }

  function Outcome(start: Situation, events: seq<Event>): Publish
    requires IsRun(start, events)
    decreases |events|, 1
  {
    if events == [] then Begun(start)
    else Replied(Outcome(start, events[..|events| - 1]), events[|events| - 1])
  }

  // ------------------------------------------------------------------------------------------
  // The cascade as the program runs it
  // ------------------------------------------------------------------------------------------

  class Publisher {
    var requests: seq<Request>
    var told: seq<Answer>
    var stranded: nat

    constructor ()
      ensures State() == Publish([], [], 0)
    {
      requests, told, stranded := [], [], 0;
    }

    function State(): Publish
      reads this
    {
      Publish(requests, told, stranded)
    }

    method Tell(answer: Answer)
      modifies this
      ensures State() == Told(old(State()), answer)
    {
      told := told + [answer];
    }

    method Ask(channel: Channel)
      modifies this
      ensures State() == Asked(old(State()), channel)
    {
      requests := requests + [Request(channel, [])];
    }

    method HttpSend(s: Situation)
      modifies this
      ensures State() == ByHttp(old(State()), s)
    {
      if !s.httpMapAccepted {
        Tell(Failure("11001"));
        return;
      }
      if s.nodeGiven && !s.subDeviceFound {
        Tell(Failure("10203"));
        return;
      }
      if s.httpThere {
        Ask(Http);
      } else {
        stranded := stranded + 1;
      }
    }

    method ControlByServer(s: Situation)
      modifies this
      ensures State() == ByServer(old(State()), s)
    {
      if !s.serverUp && s.networkUp {
        HttpSend(s);
        return;
      }
      if !s.deviceOnline {
        Tell(Failure("10203"));
        return;
      }
      if !s.mqttThere {
        stranded := stranded + 1;
        return;
      }
      if !s.mqttMapAccepted {
        MqttReplies(Failure("11001"), s);
        return;
      }
      Ask(Mqtt);
    }

    method LanSend(s: Situation)
      modifies this
      ensures State() == if s.lanMapAccepted then Asked(old(State()), Lan) else ByServer(old(State()), s)
    {
      if !s.lanMapAccepted {
        LanReplies(Failure("11001"), s);
        return;
      }
      Ask(Lan);
    }

    /** The callback around the caller's own that the broker is given. */
    method MqttReplies(answer: Answer, s: Situation)
      modifies this
      ensures State() == if answer.Success? then Told(old(State()), answer) else ByHttp(old(State()), s)
    {
      if answer.Success? {
        Tell(answer);
      } else {
        HttpSend(s);
      }
    }

    /** The callback around the caller's own that the local network is given. */
    method LanReplies(answer: Answer, s: Situation)
      modifies this
      ensures State() == if answer.Success? then Told(old(State()), answer)
                         else ByServer(old(State()), s)
    {
      if answer.Success? {
        Tell(answer);
      } else {
        ControlByServer(s);
      }
    }

    method PublishDps(s: Situation)
      requires State() == Publish([], [], 0)
      modifies this
      ensures State() == Outcome(s, [])
    {
      if !s.deviceKnown {
        Tell(Failure("11002"));
        return;
      }
      if !s.mapAccepted {
        Tell(Failure("11001"));
        return;
      }
      if s.lanOnline {
        LanSend(s);
      } else {
        ControlByServer(s);
      }
    }

    /** A channel calls back. */
    method OnReply(e: Event, ghost start: Situation, ghost before: seq<Event>)
      requires IsRun(start, before) && State() == Outcome(start, before)
      requires e.r < |requests|
      modifies this
      ensures IsRun(start, before + [e]) && State() == Outcome(start, before + [e])
    {
      assert (before + [e])[..|before|] == before;
      var channel := requests[e.r].channel;
      requests := requests[e.r := requests[e.r].(replies := requests[e.r].replies + [e.answer])];
      match channel {
        case Lan => LanReplies(e.answer, e.situation);
        case Mqtt => MqttReplies(e.answer, e.situation);
        case Http => Tell(e.answer);
      }
    }
  }

  // ------------------------------------------------------------------------------------------
  // The balance of replies and answers
  // ------------------------------------------------------------------------------------------

  /** Channels that still owe a reply. */
  function Waiting(requests: seq<Request>): nat {
    if requests == [] then 0
    else Waiting(requests[..|requests| - 1])
         + if requests[|requests| - 1].replies == [] then 1 else 0
  }

  /** Replies beyond the one that is due. */
  function Surplus(requests: seq<Request>): nat {
    if requests == [] then 0
    else
      var n := |requests[|requests| - 1].replies|;
      Surplus(requests[..|requests| - 1]) + if n == 0 then 0 else n - 1
  }

  ghost predicate Balanced(p: Publish) {
    |p.told| + p.stranded + Waiting(p.requests) == 1 + Surplus(p.requests)
  }

  lemma OneMoreRequest(requests: seq<Request>, channel: Channel)
    ensures Waiting(requests + [Request(channel, [])]) == Waiting(requests) + 1
    ensures Surplus(requests + [Request(channel, [])]) == Surplus(requests)
  {
    assert (requests + [Request(channel, [])])[..|requests|] == requests;
  }

  /** Every way on adds one: a word to the caller, a channel that owes a reply, or a dead end. */
  lemma GoingOnAddsOne(p: Publish, s: Situation)
    ensures forall q :: q in {ByHttp(p, s), ByServer(p, s)} ==>
              |q.told| + q.stranded + Waiting(q.requests)
              == |p.told| + p.stranded + Waiting(p.requests) + 1
              && Surplus(q.requests) == Surplus(p.requests)
  {
    OneMoreRequest(p.requests, Http);
    OneMoreRequest(p.requests, Mqtt);
  }

  lemma {:induction false} ReplyCounted(requests: seq<Request>, r: nat, answer: Answer)
    requires r < |requests|
    ensures var after := requests[r := requests[r].(replies := requests[r].replies + [answer])];
            && Surplus(after) - Waiting(after) == Surplus(requests) - Waiting(requests) + 1
            && Surplus(after) >= Surplus(requests)
  {
    var n := |requests| - 1;
    var after := requests[r := requests[r].(replies := requests[r].replies + [answer])];
    if r < n {
      ReplyCounted(requests[..n], r, answer);
      assert after[..n]
          == requests[..n][r := requests[r].(replies := requests[r].replies + [answer])];
    } else {
      assert after[..n] == requests[..n];
    }
  }

  /** Over every run, whatever the channels do: words to the caller, dead ends and replies still due
      add up to one, plus one for every reply that came once too often. */
  lemma {:induction false} RunBalanced(start: Situation, events: seq<Event>)
    requires IsRun(start, events)
    ensures Balanced(Outcome(start, events))
  {
    hide ByHttp, ByServer;
    if events == [] {
      GoingOnAddsOne(Publish([], [], 0), start);
      OneMoreRequest([], Lan);
    } else {
      var n := |events| - 1;
      var p, e := Outcome(start, events[..n]), events[n];
      RunBalanced(start, events[..n]);
      ReplyCounted(p.requests, e.r, e.answer);
      GoingOnAddsOne(Noted(p, e.r, e.answer), e.situation);
    }
  }

  /** If no channel replies twice, the caller is told at most one thing; and it is told one exactly if
      no reply is due any more and the way did not end at a missing channel. */
  lemma ToldOnceIff(start: Situation, events: seq<Event>)
    requires IsRun(start, events) && Surplus(Outcome(start, events).requests) == 0
    ensures var p := Outcome(start, events);
            && |p.told| <= 1
            && (|p.told| == 1 <==> Waiting(p.requests) == 0 && p.stranded == 0)
  {
    hide Outcome;
    RunBalanced(start, events);
  }

  // ------------------------------------------------------------------------------------------
  // Order and the right answer
  // ------------------------------------------------------------------------------------------

  predicate Before(a: Channel, b: Channel) {
    (a.Lan? && !b.Lan?) || (a.Mqtt? && b.Http?)
  }

  /** Every channel but the last one asked replied that it failed, and each is a fallback of the one
      before it. */
  ghost predicate Descended(requests: seq<Request>) {
    forall i :: 0 <= i < |requests| - 1 ==>
      && |requests[i].replies| == 1 && requests[i].replies[0].Failure?
      && Before(requests[i].channel, requests[i + 1].channel)
  }

  predicate Refusal(code: string) {
    code in {"11001", "11002", "10203"}
  }

  /** What the caller may have been told after the last channel asked. */
  ghost predicate Concluded(p: Publish) {
    if p.requests == [] then p.told == [] || (p.told[0].Failure? && Refusal(p.told[0].code))
    else
      var last := p.requests[|p.requests| - 1];
      if last.replies == [] then p.told == [] && p.stranded == 0
      else
        && |last.replies| == 1
        && (last.replies[0].Success? ==> p.told == [Success])
        && (last.replies[0].Failure? ==>
              p.told == []
              || (p.told[0].Failure?
                  && if last.channel.Http? then p.told == last.replies else Refusal(p.told[0].code)))
  }

  ghost predicate Orderly(p: Publish) {
    Descended(p.requests) && Concluded(p)
  }

  /** Going on from a publish in which every channel has failed. */
  lemma GoingOnOrderly(p: Publish, s: Situation, channel: Channel)
    requires p.told == [] && p.stranded == 0 && Descended(p.requests) && !channel.Http?
    requires p.requests != [] ==>
               var last := p.requests[|p.requests| - 1];
               |last.replies| == 1 && last.replies[0].Failure? && last.channel == channel
    ensures Orderly(ByHttp(p, s))
    ensures channel.Lan? ==> Orderly(ByServer(p, s))
  {
    AskedOrderly(p, channel, Http);
    if channel.Lan? {
      AskedOrderly(p, channel, Mqtt);
    }
    hide Descended;
  }

  lemma AskedOrderly(p: Publish, channel: Channel, next: Channel)
    requires p.told == [] && Descended(p.requests) && Before(channel, next)
    requires p.requests != [] ==>
               var last := p.requests[|p.requests| - 1];
               |last.replies| == 1 && last.replies[0].Failure? && last.channel == channel
    ensures Descended(Asked(p, next).requests)
  {
  }

  lemma {:induction false} SurplusFront(requests: seq<Request>, i: nat)
    requires i < |requests| && Surplus(requests) == 0
    ensures |requests[i].replies| <= 1
  {
    if i < |requests| - 1 {
      SurplusFront(requests[..|requests| - 1], i);
    }
  }

  /** Over every run in which no channel replies twice, the channels are asked in order and at most
      once, each after the failure of the one before, and the caller is told what the last one came
      to. */
  lemma {:induction false} RunOrderly(start: Situation, events: seq<Event>)
    requires IsRun(start, events) && Surplus(Outcome(start, events).requests) == 0
    ensures Orderly(Outcome(start, events))
  {
    if events == [] {
      GoingOnOrderly(Publish([], [], 0), start, Lan);
    } else {
      var n := |events| - 1;
      var p, e := Outcome(start, events[..n]), events[n];
      ReplyCounted(p.requests, e.r, e.answer);
      GoingOnAddsOne(Noted(p, e.r, e.answer), e.situation);
      RunOrderly(start, events[..n]);
      ReplyOrderly(p, e);
    }
  }

  lemma ReplyOrderly(p: Publish, e: Event)
    requires Orderly(p) && e.r < |p.requests| && Surplus(Noted(p, e.r, e.answer).requests) == 0
    ensures Orderly(Replied(p, e))
  {
    var q := Noted(p, e.r, e.answer);
    SurplusFront(q.requests, e.r);
    assert p.requests[e.r].replies == [] && e.r == |p.requests| - 1;
    assert q.requests[e.r].replies == [e.answer];
    if e.answer.Failure? && !p.requests[e.r].channel.Http? {
      GoingOnOrderly(q, e.situation, p.requests[e.r].channel);
    }
  }

  /** The caller hears of success exactly if a channel delivered the message; then all others asked
      had failed, so that nothing is delivered twice. It hears of failure only when all had failed,
      and the reason is that of HTTP when HTTP was asked, and a refusal on the way otherwise. */
  lemma AnswerMeans(start: Situation, events: seq<Event>)
    requires IsRun(start, events) && Surplus(Outcome(start, events).requests) == 0
    requires Outcome(start, events).told != []
    ensures var p, n := Outcome(start, events), |Outcome(start, events).requests|;
            && p.told == [p.told[0]]
            && (p.told[0].Success? <==>
                  exists i :: 0 <= i < n && p.requests[i].replies == [Success])
            && (forall i :: 0 <= i < n ==>
                  |p.requests[i].replies| == 1
                  && (p.requests[i].replies[0].Success? ==> p.told[0].Success? && i == n - 1))
            && (p.told[0].Failure? ==>
                  if n > 0 && p.requests[n - 1].channel.Http?
                  then p.requests[n - 1].replies == p.told else Refusal(p.told[0].code))
  {
    hide Outcome, Surplus, IsRun, Waiting;
    RunOrderly(start, events);
    ToldOnceIff(start, events);
    var p := Outcome(start, events);
    if p.told[0].Success? {
      assert p.requests[|p.requests| - 1].replies == [Success];
    }
  }

  // ------------------------------------------------------------------------------------------
  // Exactly when which channel is asked and which refusal is told
  // ------------------------------------------------------------------------------------------

  /** How a publish begins, by the flags of the situation alone. */
  lemma BeginsIff(s: Situation)
    ensures var p := Outcome(s, []);
            && (p.requests == [Request(Lan, [])] <==>
                  s.deviceKnown && s.mapAccepted && s.lanOnline && s.lanMapAccepted)
            && (p.requests == [Request(Mqtt, [])] <==>
                  && s.deviceKnown && s.mapAccepted && (s.lanOnline ==> !s.lanMapAccepted)
                  && (s.serverUp || !s.networkUp) && s.deviceOnline && s.mqttThere
                  && s.mqttMapAccepted)
            && (p.requests == [Request(Http, [])] <==>
                  && s.deviceKnown && s.mapAccepted && (s.lanOnline ==> !s.lanMapAccepted)
                  && ((!s.serverUp && s.networkUp)
                      || (s.deviceOnline && s.mqttThere && !s.mqttMapAccepted))
                  && s.httpMapAccepted && (s.nodeGiven ==> s.subDeviceFound) && s.httpThere)
            && |p.requests| <= 1
    ensures var p := Outcome(s, []);
            && (p.told == [Failure("11002")] <==> !s.deviceKnown)
            && (p.told == [Failure("11001")] <==>
                  && s.deviceKnown
                  && (!s.mapAccepted
                      || (&& (s.lanOnline ==> !s.lanMapAccepted)
                          && ((!s.serverUp && s.networkUp)
                              || (s.deviceOnline && s.mqttThere && !s.mqttMapAccepted))
                          && !s.httpMapAccepted)))
            && (p.told == [Failure("10203")] <==>
                  && s.deviceKnown && s.mapAccepted && (s.lanOnline ==> !s.lanMapAccepted)
                  && (((s.serverUp || !s.networkUp) && !s.deviceOnline)
                      || (&& ((!s.serverUp && s.networkUp)
                              || (s.deviceOnline && s.mqttThere && !s.mqttMapAccepted))
                          && s.httpMapAccepted && s.nodeGiven && !s.subDeviceFound)))
            && |p.told| <= 1 && Success !in p.told
  {
    var p := Outcome(s, []);
    forall c: Channel ensures [] + [Request(c, [])] == [Request(c, [])] {
    }
    assert [Request(Lan, [])][0] != [Request(Mqtt, [])][0];
    assert [Request(Lan, [])][0] != [Request(Http, [])][0];
    assert [Request(Mqtt, [])][0] != [Request(Http, [])][0];
    forall a: Answer ensures [] + [a] == [a] {
    }
    CodesDiffer();
  }

  lemma CodesDiffer()
    ensures [Failure("11001")] != [Failure("11002")] && [Failure("11001")] != [Failure("10203")]
    ensures [Failure("11002")] != [Failure("10203")]
  {
    assert "11001"[4] == '1' && "11002"[4] == '2' && "10203"[4] == '3';
    assert [Failure("11001")][0] != [Failure("11002")][0];
    assert [Failure("11001")][0] != [Failure("10203")][0];
    assert [Failure("11002")][0] != [Failure("10203")][0];
  }

  /** What one reply leads to, by its channel, its answer and the flags of the situation alone. */
  lemma RepliesIff(start: Situation, events: seq<Event>)
    requires events != [] && IsRun(start, events)
    ensures var p, e := Outcome(start, events[..|events| - 1]), events[|events| - 1];
            var q, s, channel := Outcome(start, events), e.situation, p.requests[e.r].channel;
            var noted := p.requests[e.r := Request(channel, p.requests[e.r].replies + [e.answer])];
            && (q.requests == noted + [Request(Mqtt, [])] <==>
                  && e.answer.Failure? && channel == Lan
                  && (s.serverUp || !s.networkUp) && s.deviceOnline && s.mqttThere
                  && s.mqttMapAccepted)
            && (q.requests == noted + [Request(Http, [])] <==>
                  && e.answer.Failure?
                  && (channel == Mqtt
                      || (channel == Lan
                          && ((!s.serverUp && s.networkUp)
                              || (s.deviceOnline && s.mqttThere && !s.mqttMapAccepted))))
                  && s.httpMapAccepted && (s.nodeGiven ==> s.subDeviceFound) && s.httpThere)
            && (|q.requests| == |noted| ==> q.requests == noted)
    ensures var p, e := Outcome(start, events[..|events| - 1]), events[|events| - 1];
            var q, s, channel := Outcome(start, events), e.situation, p.requests[e.r].channel;
            var overHttp := channel == Mqtt
                            || (channel == Lan
                                && ((!s.serverUp && s.networkUp)
                                    || (s.deviceOnline && s.mqttThere && !s.mqttMapAccepted)));
            if e.answer.Success? || channel == Http then q.told == p.told + [e.answer]
            else if overHttp && !s.httpMapAccepted then q.told == p.told + [Failure("11001")]
            else if (overHttp && s.nodeGiven && !s.subDeviceFound)
                    || (channel == Lan && (s.serverUp || !s.networkUp) && !s.deviceOnline)
            then q.told == p.told + [Failure("10203")]
            else q.told == p.told
  {
    var n := |events| - 1;
    var p, e := Outcome(start, events[..n]), events[n];
    hide Outcome, IsRun;
    assert Outcome(start, events) == Replied(p, e) by {
      OutcomeStep(start, events);
    }
    var noted := Noted(p, e.r, e.answer).requests;
    assert noted + [Request(Mqtt, [])] != noted + [Request(Http, [])] by {
      assert (noted + [Request(Mqtt, [])])[|noted|] != (noted + [Request(Http, [])])[|noted|];
    }
  }

  lemma OutcomeStep(start: Situation, events: seq<Event>)
    requires events != [] && IsRun(start, events)
    ensures Outcome(start, events)
         == Replied(Outcome(start, events[..|events| - 1]), events[|events| - 1])
  {
  }
}
