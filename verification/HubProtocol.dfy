/** The hub under arbitrary interleavings of broadcasts, read pumps, write pumps and
    subscriptions, one atomic step at a time. */
module HubProtocol {
  import opened Hub

  type ClientId = nat

  /** ServeTopic's progress for one client. */
  datatype Phase = Created | Serving | PumpDone | Left

  /** A payload is named by the position of its broadcast in the history. taken are those
      the write pump has received, written those it has written to the connection. */
  datatype ClientState = ClientState(
    topic: string, phase: Phase, send: Channel<nat>, reading: bool,
    taken: seq<nat>, written: seq<nat>, since: nat)

  /** A broadcast in progress: the snapshot's clients still to be tried, and the one whose
      send was refused and that is about to be closed. */
  datatype Flight = Flight(remaining: set<ClientId>, refused: set<ClientId>)

  datatype State = State(
    topics: Topics<ClientId>, clients: map<ClientId, ClientState>,
    history: seq<string>, flights: map<nat, Flight>)

  const INIT := State(map[], map[], [], map[])

  datatype Step =
    | Create(c: ClientId, topic: string)
    | Subscribe(c: ClientId)
    | Snapshot(topic: string)
    | TrySend(b: nat, c: ClientId)
    | DropRefused(b: nat, c: ClientId)
    | Finish(b: nat)
    | ReadFails(c: ClientId)
    | PumpTakes(c: ClientId, writeOk: bool)
    | PumpSeesClose(c: ClientId)
    | PingFails(c: ClientId)
    | Unsubscribe(c: ClientId)

  /** The client a step acts on, if it acts on a known one. */
  predicate ActsOn(x: Step, c: ClientId) {
    !x.Create? && !x.Snapshot? && !x.Finish? && x.c == c
  }

  /** What a step needs of the client it acts on. */
  predicate IsReady(st: ClientState, x: Step) {
    match x
    case Subscribe(_) => st.phase == Created
    case ReadFails(_) => st.reading
    case PumpTakes(_, _) => st.phase == Serving && st.send.queue != []
    case PumpSeesClose(_) => st.phase == Serving && st.send.queue == [] && st.send.closes > 0
    case PingFails(_) => st.phase == Serving
    case Unsubscribe(_) => st.phase == PumpDone
    case _ => true
  }

  predicate Can(s: State, x: Step) {
    match x
    case Create(c, _) => c !in s.clients
    case Snapshot(_) => true
    case Finish(b) => b in s.flights && s.flights[b] == Flight({}, {})
    case TrySend(b, c) => c in s.clients && b in s.flights && c in s.flights[b].remaining && s.flights[b].refused == {}
    case DropRefused(b, c) => c in s.clients && b in s.flights && c in s.flights[b].refused
    case _ => x.c in s.clients && IsReady(s.clients[x.c], x)
  }

  /** The effect of a step on the client it acts on; now is the number of broadcasts so far. */
  function Acted(st: ClientState, x: Step, now: nat): ClientState {
    match x
    case Subscribe(_) => st.(phase := Serving, reading := true, since := now)
    case TrySend(b, _) => st.(send := Offer(st.send, b))
    case DropRefused(_, _) => st.(send := CloseOnce(st.send))
    case ReadFails(_) => st.(reading := false, send := CloseOnce(st.send))
    case PumpTakes(_, writeOk) =>
      if st.send.queue == [] then st
      else
        var p := st.send.queue[0];
        st.(send := st.send.(queue := st.send.queue[1..]), taken := st.taken + [p],
            written := if writeOk then st.written + [p] else st.written,
            phase := if writeOk then st.phase else PumpDone)
    case PumpSeesClose(_) => st.(phase := PumpDone)
    case PingFails(_) => st.(phase := PumpDone)
    case Unsubscribe(_) => st.(phase := Left)
    case _ => st
  }

  function NextClients(s: State, x: Step): map<ClientId, ClientState>
    requires Can(s, x)
  {
    match x
    case Create(c, topic) => s.clients[c := ClientState(topic, Created, Channel([], 0, false), false, [], [], 0)]
    case Snapshot(_) => s.clients
    case Finish(_) => s.clients
    case _ => s.clients[x.c := Acted(s.clients[x.c], x, |s.history|)]
  }

  function NextTopics(s: State, x: Step): Topics<ClientId>
    requires Can(s, x)
  {
    match x
    case Subscribe(c) => Subscribed(s.topics, s.clients[c].topic, c)
    case Unsubscribe(c) => Unsubscribed(s.topics, s.clients[c].topic, c)
    case _ => s.topics
  }

  function NextFlights(s: State, x: Step): map<nat, Flight>
    requires Can(s, x)
  {
    match x
    case Snapshot(topic) => s.flights[|s.history| := Flight(Subscribers(s.topics, topic), {})]
    case TrySend(b, c) =>
      s.flights[b := Flight(s.flights[b].remaining - {c}, if CanAccept(s.clients[c].send) then {} else {c})]
    case DropRefused(b, c) => s.flights[b := s.flights[b].(refused := s.flights[b].refused - {c})]
    case Finish(b) => s.flights - {b}
    case _ => s.flights
  }

  function NextHistory(s: State, x: Step): seq<string> {
    if x.Snapshot? then s.history + [x.topic] else s.history
  }

  function Do(s: State, x: Step): State
    requires Can(s, x)
  {
    State(NextTopics(s, x), NextClients(s, x), NextHistory(s, x), NextFlights(s, x))
  }

  /** A run of the hub, from nothing. */
  ghost predicate IsRun(states: seq<State>, steps: seq<Step>) {
    && |states| == |steps| + 1 && states[0] == INIT
    && forall i :: 0 <= i < |steps| ==> Can(states[i], steps[i]) && states[i + 1] == Do(states[i], steps[i])
  }

  // ------------------------------------------------------------- every interleaving

  /** Everything ever put into the client's channel, in order. */
  function Accepted(st: ClientState): seq<nat> {
    st.taken + st.send.queue
  }

  predicate OnTopic(st: ClientState) {
    st.phase == Serving || st.phase == PumpDone
  }

  ghost predicate ChannelIsSound(st: ClientState) {
    && st.send.closes <= 1
    && (st.send.once <==> st.send.closes == 1)
    && |st.send.queue| <= SEND_BUFFER
    && st.written <= st.taken
    && (st.phase == Serving ==> st.written == st.taken)
    && (st.phase == Created ==> Accepted(st) == [])
  }

  ghost predicate DeliveriesAreSound(s: State, st: ClientState) {
    && (forall i :: 0 <= i < |Accepted(st)| ==>
                      st.since <= Accepted(st)[i] < |s.history| && s.history[Accepted(st)[i]] == st.topic)
    && (forall i, j :: 0 <= i < j < |Accepted(st)| ==> Accepted(st)[i] != Accepted(st)[j])
  }

  /** A broadcast in progress has not been accepted yet by those it still has to try. */
  ghost predicate FlightIsSound(s: State, b: nat) {
    && b in s.flights && b < |s.history|
    && forall c :: c in s.flights[b].remaining + s.flights[b].refused ==>
                     && c in s.clients && s.clients[c].topic == s.history[b] && s.clients[c].since <= b
                     && s.clients[c].phase != Created
                     && b !in Accepted(s.clients[c])
  }

  ghost predicate TopicsAreSound(s: State) {
    forall t, c :: c in Subscribers(s.topics, t) <==>
                   c in s.clients && s.clients[c].topic == t && OnTopic(s.clients[c])
  }

  ghost predicate Inv(s: State) {
    && (forall c :: c in s.clients ==> ChannelIsSound(s.clients[c]) && DeliveriesAreSound(s, s.clients[c]))
    && (forall b :: b in s.flights ==> FlightIsSound(s, b))
    && TopicsAreSound(s)
    && (forall c :: c in s.clients ==> s.clients[c].since <= |s.history|)
  }

  lemma PumpKeepsAccepted(st: ClientState)
    requires st.send.queue != []
    ensures st.taken + [st.send.queue[0]] + st.send.queue[1..] == Accepted(st)
  {
  }

  lemma ClientAfter(s: State, x: Step, c: ClientId)
    requires Can(s, x)
    ensures var s' := Do(s, x);
            if x.Create? && x.c == c then
              c in s'.clients && s'.clients[c] == ClientState(x.topic, Created, Channel([], 0, false), false, [], [], 0)
            else
              && (c in s'.clients <==> c in s.clients)
              && (c in s.clients ==>
                    s'.clients[c] == if ActsOn(x, c) then Acted(s.clients[c], x, |s.history|) else s.clients[c])
    ensures ActsOn(x, c) ==> c in s.clients && IsReady(s.clients[c], x)
  {
    hide Acted, NextTopics, NextFlights;
  }

  lemma StepKeepsTopics(s: State, x: Step)
    requires Inv(s) && Can(s, x)
    ensures TopicsAreSound(Do(s, x))
  {
    var s' := Do(s, x);
    forall t, c
      ensures c in Subscribers(s'.topics, t) <==> c in s'.clients && s'.clients[c].topic == t && OnTopic(s'.clients[c])
    {
      StepKeepsTopic(s, x, t, c);
    }
  }

  lemma StepKeepsTopic(s: State, x: Step, t: string, c: ClientId)
    requires TopicsAreSound(s) && Can(s, x)
    ensures var s' := Do(s, x);
            c in Subscribers(s'.topics, t) <==> c in s'.clients && s'.clients[c].topic == t && OnTopic(s'.clients[c])
  {
    hide NextClients, NextFlights, NextHistory, Acted, Subscribed, Unsubscribed;
    assert c in Subscribers(s.topics, t) <==> c in s.clients && s.clients[c].topic == t && OnTopic(s.clients[c]);
    ClientAfter(s, x, c);
    if ActsOn(x, c) {
      ActedTopic(s.clients[c], x, |s.history|);
    }
    if x.Subscribe? || x.Unsubscribe? {
      SubscribersAfter(s.topics, s.clients[x.c].topic, x.c, t);
    }
  }

  lemma ActedTopic(st: ClientState, x: Step, now: nat)
    requires IsReady(st, x)
    ensures Acted(st, x, now).topic == st.topic
    ensures OnTopic(Acted(st, x, now)) <==> x.Subscribe? || (OnTopic(st) && !x.Unsubscribe?)
  {
  }

  lemma ActedKeepsChannel(st: ClientState, x: Step, now: nat)
    requires ChannelIsSound(st) && IsReady(st, x)
    requires x.TrySend? ==> st.phase != Created
    ensures ChannelIsSound(Acted(st, x, now))
  {
  }

  /** The only step that adds to what a client has accepted. */
  predicate Delivers(st: ClientState, x: Step) {
    x.TrySend? && CanAccept(st.send)
  }

  lemma AcceptedAfter(st: ClientState, x: Step, now: nat)
    ensures Accepted(Acted(st, x, now)) == Accepted(st) + if Delivers(st, x) then [x.b] else []
    ensures Acted(st, x, now).topic == st.topic
    ensures !x.Subscribe? ==> Acted(st, x, now).since == st.since
    ensures st.send.closes > 0 ==> Acted(st, x, now).send.closes > 0
  {
    var st' := Acted(st, x, now);
    if Delivers(st, x) {
      assert Accepted(st') == Accepted(st) + [x.b];
    } else if x.PumpTakes? && st.send.queue != [] {
      PumpKeepsAccepted(st);
    } else {
      assert st'.taken == st.taken && st'.send.queue == st.send.queue;
    }
  }

  lemma StepKeepsClient(s: State, x: Step, c: ClientId)
    requires Inv(s) && Can(s, x) && c in Do(s, x).clients
    ensures ChannelIsSound(Do(s, x).clients[c]) && Do(s, x).clients[c].since <= |Do(s, x).history|
    ensures DeliveriesAreSound(Do(s, x), Do(s, x).clients[c])
  {
    hide Acted, NextClients, NextTopics, NextFlights;
    ClientAfter(s, x, c);
    if c in s.clients {
      var st := s.clients[c];
      assert DeliveriesAreSound(s, st) && ChannelIsSound(st);
      if ActsOn(x, c) {
        if x.TrySend? {
          assert FlightIsSound(s, x.b);
        }
        ActedKeepsChannel(st, x, |s.history|);
        AcceptedAfter(st, x, |s.history|);
        if x.Subscribe? {
          assert Acted(st, x, |s.history|).since == |s.history| by {
            SinceAfterSubscribe(st, x.c, |s.history|);
          }
        }
      }
    }
  }

  lemma SinceAfterSubscribe(st: ClientState, c: ClientId, now: nat)
    ensures Acted(st, Subscribe(c), now).since == now
  {
  }

  lemma NewFlightIsSound(s: State, topic: string)
    requires Inv(s)
    ensures FlightIsSound(Do(s, Snapshot(topic)), |s.history|)
  {
    var s', n := Do(s, Snapshot(topic)), |s.history|;
    forall c | c in s'.flights[n].remaining
      ensures c in s.clients && s.clients[c].topic == topic && OnTopic(s.clients[c]) && n !in Accepted(s.clients[c])
    {
      assert c in Subscribers(s.topics, topic);
      assert DeliveriesAreSound(s, s.clients[c]);
    }
  }

  lemma FlightAfter(s: State, x: Step, b: nat)
    requires Can(s, x) && b in Do(s, x).flights && !(x.Snapshot? && b == |s.history|)
    ensures b in s.flights
    ensures Do(s, x).flights[b].remaining <= s.flights[b].remaining
    ensures Do(s, x).flights[b].remaining + Do(s, x).flights[b].refused <= s.flights[b].remaining + s.flights[b].refused
    ensures x.TrySend? && x.b == b ==> x.c !in Do(s, x).flights[b].remaining
    ensures x.TrySend? && x.b == b && CanAccept(s.clients[x.c].send) ==> x.c !in Do(s, x).flights[b].refused
  {
    hide NextClients, NextTopics;
  }

  lemma OldFlightIsSound(s: State, x: Step, b: nat)
    requires Inv(s) && Can(s, x) && b in Do(s, x).flights && !(x.Snapshot? && b == |s.history|)
    ensures FlightIsSound(Do(s, x), b)
  {
    hide Acted, NextClients, NextTopics, NextFlights;
    var s' := Do(s, x);
    FlightAfter(s, x, b);
    assert FlightIsSound(s, b);
    forall c | c in s'.flights[b].remaining + s'.flights[b].refused
      ensures c in s'.clients && s'.clients[c].topic == s'.history[b] && s'.clients[c].since <= b
      ensures s'.clients[c].phase != Created && b !in Accepted(s'.clients[c])
    {
      assert c in s.flights[b].remaining + s.flights[b].refused;
      ClientAfter(s, x, c);
      if ActsOn(x, c) {
        AcceptedAfter(s.clients[c], x, |s.history|);
        StaysCreatedOrNot(s.clients[c], x, |s.history|);
      }
    }
  }

  lemma StaysCreatedOrNot(st: ClientState, x: Step, now: nat)
    requires IsReady(st, x) && st.phase != Created
    ensures Acted(st, x, now).phase != Created && !x.Subscribe?
  {
  }

  lemma StepKeepsFlight(s: State, x: Step, b: nat)
    requires Inv(s) && Can(s, x) && b in Do(s, x).flights
    ensures FlightIsSound(Do(s, x), b)
  {
    if x.Snapshot? && b == |s.history| {
      NewFlightIsSound(s, x.topic);
    } else {
      OldFlightIsSound(s, x, b);
    }
  }

  lemma StepKeepsInv(s: State, x: Step)
    requires Inv(s) && Can(s, x)
    ensures Inv(Do(s, x))
  {
    var s' := Do(s, x);
    forall c | c in s'.clients
      ensures ChannelIsSound(s'.clients[c]) && DeliveriesAreSound(s', s'.clients[c]) && s'.clients[c].since <= |s'.history|
    {
      StepKeepsClient(s, x, c);
    }
    forall b | b in s'.flights
      ensures FlightIsSound(s', b)
    {
      StepKeepsFlight(s, x, b);
    }
    StepKeepsTopics(s, x);
  }

  /** In every interleaving each channel is closed at most once, holds at most 32 payloads,
      and carries only payloads broadcast to its topic since it subscribed, each once. */
  lemma {:induction false} HubIsSafe(states: seq<State>, steps: seq<Step>, n: nat)
    requires IsRun(states, steps) && n < |states|
    ensures Inv(states[n])
  {
    if n > 0 {
      HubIsSafe(states, steps, n - 1);
      StepKeepsInv(states[n - 1], steps[n - 1]);
    }
  }

  /** Nothing gets into a closed channel, and what is in stays in order. */
  lemma AcceptedOnlyGrows(s: State, x: Step, c: ClientId)
    requires Can(s, x) && c in s.clients
    ensures c in Do(s, x).clients
    ensures Accepted(s.clients[c]) <= Accepted(Do(s, x).clients[c])
    ensures s.clients[c].send.closes > 0 ==>
              Do(s, x).clients[c].send.closes > 0 && Accepted(Do(s, x).clients[c]) == Accepted(s.clients[c])
  {
    ClientAfter(s, x, c);
    AcceptedAfter(s.clients[c], x, |s.history|);
  }
}
