/** What becomes of clients: who is refused a payload, who is closed, and that no client holds
    up a broadcast. */
module HubClients {
  import opened Hub
  import opened HubProtocol

  /** In every run, a payload is refused exactly if the client's channel is closed or holds 32
      payloads; otherwise it is queued last. */
  lemma RefusedExactly(states: seq<State>, steps: seq<Step>, i: nat)
    requires IsRun(states, steps) && i < |steps| && steps[i].TrySend?
    ensures var s, x, s' := states[i], steps[i], states[i + 1];
            && x.c in s.clients && x.c in s'.clients && x.b in s'.flights
            && (x.c in s'.flights[x.b].refused
                <==> s.clients[x.c].send.closes > 0 || |s.clients[x.c].send.queue| == 32)
            && (if x.c in s'.flights[x.b].refused then s'.clients[x.c] == s.clients[x.c]
                else && s'.clients[x.c].send.closes == 0
                     && s'.clients[x.c].send.queue == s.clients[x.c].send.queue + [x.b])
  {
    var s, x := states[i], steps[i];
    HubIsSafe(states, steps, i);
    assert ChannelIsSound(s.clients[x.c]);
    ClientAfter(s, x, x.c);
  }

  // -------------------------------------------------------------- who gets closed

  /** The client has been closed, or a broadcast is about to close it. */
  ghost predicate IsClosing(s: State, c: ClientId)
    requires c in s.clients
  {
    s.clients[c].send.closes > 0 || exists b :: b in s.flights && c in s.flights[b].refused
  }

  /** The step finds the client's open channel full. */
  predicate FindsFull(s: State, x: Step, c: ClientId) {
    && x.TrySend? && x.c == c && c in s.clients
    && s.clients[c].send.closes == 0 && |s.clients[c].send.queue| == 32
  }

  /** What makes a step close the client, or refuse it. */
  lemma ClosesAfter(s: State, x: Step, c: ClientId)
    requires Inv(s) && Can(s, x) && c in s.clients
    ensures var s' := Do(s, x);
            && c in s'.clients
            && (s.clients[c].send.closes > 0 ==> s'.clients[c].send.closes > 0)
            && (x == ReadFails(c) ==> s'.clients[c].send.closes > 0)
            && (s'.clients[c].send.closes > 0 ==>
                  || s.clients[c].send.closes > 0 || x == ReadFails(c)
                  || (x.DropRefused? && x.c == c && x.b in s.flights && c in s.flights[x.b].refused))
            && (x.DropRefused? && x.c == c ==> s'.clients[c].send.closes > 0)
  {
    hide NextTopics, NextFlights;
    ClientAfter(s, x, c);
    assert ChannelIsSound(s.clients[c]);
  }

  lemma RefusedAfter(s: State, x: Step, c: ClientId, b: nat)
    requires Inv(s) && Can(s, x)
    ensures var s' := Do(s, x);
            var before := b in s.flights && c in s.flights[b].refused;
            var after := b in s'.flights && c in s'.flights[b].refused;
            && (before && !(x.DropRefused? && x.c == c) ==> after)
            && (x.TrySend? && x.c == c && x.b == b && !CanAccept(s.clients[c].send) ==> after)
            && (after ==> before || (x.TrySend? && x.c == c && x.b == b && !CanAccept(s.clients[c].send)))
  {
    hide NextClients, NextTopics;
    if b in s.flights {
      assert FlightIsSound(s, b);
    }
  }

  lemma ClosingAfter(s: State, x: Step, c: ClientId)
    requires Inv(s) && Can(s, x) && c in s.clients
    ensures c in Do(s, x).clients
    ensures IsClosing(Do(s, x), c) <==> IsClosing(s, c) || FindsFull(s, x, c) || x == ReadFails(c)
  {
    hide Do, Can;
    var s' := Do(s, x);
    ClosesAfter(s, x, c);
    assert ChannelIsSound(s.clients[c]);
    forall b
      ensures b in s'.flights && c in s'.flights[b].refused ==> IsClosing(s, c) || FindsFull(s, x, c)
      ensures b in s.flights && c in s.flights[b].refused ==> IsClosing(s', c)
    {
      RefusedAfter(s, x, c, b);
    }
    if FindsFull(s, x, c) {
      RefusedAfter(s, x, c, x.b);
    }
  }

  /** In every run, a client is closed, or about to be, exactly if a broadcast has found its open
      channel holding 32 payloads, or reading from its connection has failed. Nobody else is. */
  lemma {:induction false} ClosedExactly(states: seq<State>, steps: seq<Step>, n: nat, c: ClientId)
    requires IsRun(states, steps) && n < |states| && c in states[n].clients
    ensures IsClosing(states[n], c)
       <==> exists i :: 0 <= i < n && (FindsFull(states[i], steps[i], c) || steps[i] == ReadFails(c))
  {
    if n > 0 {
      hide IsClosing, FindsFull, Inv, Can, Do;
      var s, x := states[n - 1], steps[n - 1];
      HubIsSafe(states, steps, n - 1);
      if c in s.clients {
        ClosedExactly(states, steps, n - 1, c);
        ClosingAfter(s, x, c);
      } else {
        NewClientIsOpen(s, x, c);
        forall i | 0 <= i < n
          ensures !FindsFull(states[i], steps[i], c) && steps[i] != ReadFails(c)
        {
          NotThereYet(states, steps, i, n - 1, c);
        }
      }
    }
  }

  lemma NewClientIsOpen(s: State, x: Step, c: ClientId)
    requires Inv(s) && Can(s, x) && c !in s.clients && c in Do(s, x).clients
    ensures !IsClosing(Do(s, x), c)
  {
    var s' := Do(s, x);
    ClientAfter(s, x, c);
    forall b | b in s'.flights
      ensures c !in s'.flights[b].refused
    {
      RefusedAfter(s, x, c, b);
      if b in s.flights {
        assert FlightIsSound(s, b);
      }
    }
  }

  /** Clients are never forgotten, and nothing happens to one that is not there. */
  lemma {:induction false} NotThereYet(states: seq<State>, steps: seq<Step>, i: nat, n: nat, c: ClientId)
    requires IsRun(states, steps) && i <= n < |states| && c !in states[n].clients
    ensures c !in states[i].clients
    ensures i < |steps| ==> !FindsFull(states[i], steps[i], c) && steps[i] != ReadFails(c)
    decreases n - i
  {
    if i < n {
      NotThereYet(states, steps, i + 1, n, c);
      ClientAfter(states[i], steps[i], c);
    }
  }

  // ------------------------------------------------------------- how a client ends

  predicate ReaderIsThereOrClosed(st: ClientState) {
    st.phase != Created && !st.reading ==> st.send.closes == 1
  }

  lemma ActedKeepsReader(st: ClientState, x: Step, now: nat)
    requires ChannelIsSound(st) && IsReady(st, x) && ReaderIsThereOrClosed(st)
    ensures ReaderIsThereOrClosed(Acted(st, x, now))
  {
  }

  /** Once its reader has stopped, a client is closed, whichever way that happened. */
  lemma {:induction false} ReaderGoneCloses(states: seq<State>, steps: seq<Step>, n: nat, c: ClientId)
    requires IsRun(states, steps) && n < |states| && c in states[n].clients
    ensures states[n].clients[c].phase != Created && !states[n].clients[c].reading ==> states[n].clients[c].send.closes == 1
  {
    if n > 0 {
      hide Acted, NextClients, NextTopics, NextFlights;
      var s, x := states[n - 1], steps[n - 1];
      HubIsSafe(states, steps, n - 1);
      ClientAfter(s, x, c);
      if c in s.clients {
        ReaderGoneCloses(states, steps, n - 1, c);
        assert ChannelIsSound(s.clients[c]);
        if ActsOn(x, c) {
          ActedKeepsReader(s.clients[c], x, |s.history|);
        }
      }
    }
  }

  /** A client's pump ends exactly at a failed write, a failed ping or its goodbye, and the client
      leaves its topic exactly after that. */
  lemma PumpEndsExactly(s: State, x: Step, c: ClientId)
    requires Inv(s) && Can(s, x) && c in s.clients
    ensures c in Do(s, x).clients
    ensures var st, st' := s.clients[c], Do(s, x).clients[c];
            && (st.phase == Serving ==>
                  (st'.phase == PumpDone <==> x in {PumpTakes(c, false), PingFails(c), PumpSeesClose(c)})
                  && (st'.phase != PumpDone ==> st'.phase == Serving))
            && (st.phase == PumpDone ==> st'.phase == if x == Unsubscribe(c) then Left else PumpDone)
            && (st.phase == Left ==> st'.phase == Left)
  {
    hide NextTopics, NextFlights;
    ClientAfter(s, x, c);
    if x.TrySend? && x.c == c {
      assert FlightIsSound(s, x.b);
    }
  }

  /** A topic that has lost its last subscriber is gone. */
  lemma {:induction false} NoTopicIsEmpty(states: seq<State>, steps: seq<Step>, n: nat, t: string)
    requires IsRun(states, steps) && n < |states| && t in states[n].topics
    ensures states[n].topics[t] != {}
  {
    if n > 0 {
      hide NextClients, NextFlights, NextHistory;
      if t in states[n - 1].topics {
        NoTopicIsEmpty(states, steps, n - 1, t);
      }
    }
  }

  /** What the outside world does is never ruled out: connections come, and fail, at any time,
      and anybody may broadcast. */
  lemma OutsideIsFree(s: State, c: ClientId, topic: string)
    ensures Can(s, Snapshot(topic)) && (c !in s.clients ==> Can(s, Create(c, topic)))
    ensures c in s.clients ==>
              && (s.clients[c].phase == Created ==> Can(s, Subscribe(c)))
              && (s.clients[c].reading ==> Can(s, ReadFails(c)))
              && (s.clients[c].phase == Serving ==> Can(s, PingFails(c)))
              && (s.clients[c].phase == Serving && s.clients[c].send.queue != [] ==>
                    Can(s, PumpTakes(c, true)) && Can(s, PumpTakes(c, false)))
  {
  }

  /** The write pump says goodbye only after writing everything the client has accepted. */
  lemma GoodbyeComesLast(states: seq<State>, steps: seq<Step>, i: nat)
    requires IsRun(states, steps) && i < |steps| && steps[i].PumpSeesClose?
    ensures var st := states[i].clients[steps[i].c];
            st.written == Accepted(st) && st.send.closes == 1
  {
    HubIsSafe(states, steps, i);
    assert ChannelIsSound(states[i].clients[steps[i].c]);
  }

  /** A closed client can always finish: its pump drains the queue, says goodbye, and leaves. */
  lemma ClosedClientCanLeave(s: State, c: ClientId)
    requires c in s.clients && s.clients[c].send.closes > 0 && OnTopic(s.clients[c])
    ensures Can(s, PumpTakes(c, true)) || Can(s, PumpSeesClose(c)) || Can(s, Unsubscribe(c))
  {
  }

  // ------------------------------------------------------- nobody holds up a broadcast

  predicate IsStepOf(x: Step, b: nat) {
    (x.TrySend? || x.DropRefused? || x.Finish?) && x.b == b
  }

  /** How many steps a broadcast has left at most. */
  function Effort(f: Flight): nat {
    2 * |f.remaining| + |f.refused| + 1
  }

  /** Whatever its clients do, a broadcast in progress can take its next step. */
  lemma BroadcastCanProceed(states: seq<State>, steps: seq<Step>, n: nat, b: nat) returns (x: Step)
    requires IsRun(states, steps) && n < |states| && b in states[n].flights
    ensures Can(states[n], x) && IsStepOf(x, b)
  {
    HubIsSafe(states, steps, n);
    var f := states[n].flights[b];
    assert FlightIsSound(states[n], b);
    if c :| c in f.refused {
      x := DropRefused(b, c);
    } else if c :| c in f.remaining {
      assert f.refused == {};
      x := TrySend(b, c);
    } else {
      assert f == Flight({}, {});
      x := Finish(b);
    }
  }

  lemma FlightsArePast(s: State, b: nat)
    requires Inv(s) && b in s.flights
    ensures b < |s.history|
  {
    assert FlightIsSound(s, b);
  }

  lemma OwnStep(s: State, x: Step, b: nat)
    requires Can(s, x) && b in s.flights && IsStepOf(x, b)
    ensures b !in Do(s, x).flights || Effort(Do(s, x).flights[b]) < Effort(s.flights[b])
  {
    hide NextClients, NextTopics, NextHistory;
    var f := s.flights[b];
    if x.TrySend? {
      assert f.remaining == (f.remaining - {x.c}) + {x.c};
    } else if x.DropRefused? {
      assert f.refused == (f.refused - {x.c}) + {x.c};
    }
  }

  lemma OtherStep(s: State, x: Step, b: nat)
    requires Can(s, x) && b in s.flights && b < |s.history| && !IsStepOf(x, b)
    ensures b in Do(s, x).flights && Do(s, x).flights[b] == s.flights[b]
  {
    hide NextClients, NextTopics, NextHistory;
  }

  /** Each of its own steps brings it nearer to its end, and nobody else's sets it back: a
      broadcast to k subscribers takes at most 2 k + 1 steps. */
  lemma BroadcastGetsNearer(s: State, x: Step, b: nat)
    requires Inv(s) && Can(s, x) && b in s.flights
    ensures IsStepOf(x, b) ==> b !in Do(s, x).flights || Effort(Do(s, x).flights[b]) < Effort(s.flights[b])
    ensures !IsStepOf(x, b) ==> b in Do(s, x).flights && Do(s, x).flights[b] == s.flights[b]
  {
    hide NextClients, NextTopics, NextHistory, NextFlights, Effort;
    FlightsArePast(s, b);
    if IsStepOf(x, b) {
      OwnStep(s, x, b);
    } else {
      OtherStep(s, x, b);
    }
  }
}
