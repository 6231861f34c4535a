/** The order in which clients receive a topic's broadcasts, when these overlap and when not. */
module HubOrder {
  import opened Hub
  import opened HubProtocol

  // --------------------------------------------------------------- what is due

  /** The broadcasts on a topic from position since on. */
  function Due(history: seq<string>, topic: string, since: nat): seq<nat> {
    if |history| <= since then []
    else
      Due(history[..|history| - 1], topic, since)
      + if history[|history| - 1] == topic then [|history| - 1] else []
  }

  function DueTo(s: State, c: ClientId): seq<nat>
    requires c in s.clients
  {
    Due(s.history, s.clients[c].topic, s.clients[c].since)
  }

  predicate Awaits(s: State, b: nat, c: ClientId) {
    b in s.flights && c in s.flights[b].remaining + s.flights[b].refused
  }

  predicate IsAscending(xs: seq<nat>) {
    forall i, j :: 0 <= i < j < |xs| ==> xs[i] < xs[j]
  }

  lemma {:induction false} DueExactly(history: seq<string>, topic: string, since: nat)
    ensures forall x :: x in Due(history, topic, since) <==> since <= x < |history| && history[x] == topic
  {
    if since < |history| {
      DueExactly(history[..|history| - 1], topic, since);
    }
  }

  lemma {:induction false} DueAscends(history: seq<string>, topic: string, since: nat)
    ensures IsAscending(Due(history, topic, since))
  {
    if since < |history| {
      var n := |history| - 1;
      var earlier := Due(history[..n], topic, since);
      DueAscends(history[..n], topic, since);
      DueExactly(history[..n], topic, since);
      assert forall i :: 0 <= i < |earlier| ==> earlier[i] in earlier;
    }
  }

  lemma DueToExactly(s: State, c: ClientId)
    requires c in s.clients
    ensures forall x :: x in DueTo(s, c) <==> s.clients[c].since <= x < |s.history| && s.history[x] == s.clients[c].topic
    ensures IsAscending(DueTo(s, c))
  {
    DueExactly(s.history, s.clients[c].topic, s.clients[c].since);
    DueAscends(s.history, s.clients[c].topic, s.clients[c].since);
  }

  lemma DueAppend(history: seq<string>, t: string, topic: string, since: nat)
    requires since <= |history|
    ensures Due(history + [t], topic, since) == Due(history, topic, since) + if t == topic then [|history|] else []
  {
    assert (history + [t])[..|history|] == history;
  }

  lemma NothingDueYet(history: seq<string>, topic: string)
    ensures Due(history, topic, |history|) == []
  {
  }

  lemma BeyondPart(part: seq<nat>, all: seq<nat>)
    ensures IsAscending(all) && part < all ==> all[|part|] in all && all[|part|] !in part
  {
  }

  /** An initial part of an ascending sequence is continued by the least element not in it. */
  lemma PartContinues(part: seq<nat>, all: seq<nat>, b: nat)
    requires IsAscending(all) && part <= all && b in all && b !in part
    requires forall a :: a in all && a < b ==> a in part
    ensures part + [b] <= all
  {
    var k :| 0 <= k < |all| && all[k] == b;
    assert |part| <= k;
    BeyondPart(part, all);
  }

  lemma PartIsAll(part: seq<nat>, all: seq<nat>)
    requires IsAscending(all) && part <= all && forall a :: a in all ==> a in part
    ensures part == all
  {
    BeyondPart(part, all);
  }

  lemma AllBefore(part: seq<nat>, all: seq<nat>, k: nat)
    requires k < |part|
    ensures IsAscending(all) && part <= all ==> forall a :: a in all && a < part[k] ==> a in part[..k]
  {
    if IsAscending(all) && part <= all {
      forall a | a in all && a < part[k]
        ensures a in part[..k]
      {
        var i :| 0 <= i < |all| && all[i] == a;
        assert part[..k][i] == a;
      }
    }
  }

  // ---------------------------------------------------------------- overtaking

  /** The step puts a payload into the client's channel while an earlier one is still on its
      way to it, or about to close it. */
  ghost predicate Overtakes(s: State, x: Step, c: ClientId) {
    && x.TrySend? && x.c == c && c in s.clients && CanAccept(s.clients[c].send)
    && exists a: nat :: a < x.b && Awaits(s, a, c)
  }

  ghost predicate NoOvertaking(states: seq<State>, steps: seq<Step>, n: nat, c: ClientId)
    requires n <= |steps| && n <= |states|
  {
    forall i :: 0 <= i < n ==> !Overtakes(states[i], steps[i], c)
  }

  /** A broadcast due to the client that has neither reached it nor is on its way. */
  ghost predicate Misses(s: State, c: ClientId, a: nat)
    requires c in s.clients
  {
    a in DueTo(s, c) && a !in Accepted(s.clients[c]) && !Awaits(s, a, c)
  }

  /** What the client has accepted is an initial part of what is due to it; and unless it has
      been closed it misses nothing while subscribed, and afterwards only broadcasts later than
      any on its way. */
  ghost predicate IsInOrder(s: State, c: ClientId)
    requires c in s.clients
  {
    var st := s.clients[c];
    && Accepted(st) <= DueTo(s, c)
    && (st.send.closes == 0 ==>
          forall a :: Misses(s, c, a) ==> !OnTopic(st) && forall b :: Awaits(s, b, c) ==> b < a)
  }

  lemma AwaitsAfter(s: State, x: Step, c: ClientId, a: nat)
    requires Can(s, x)
    ensures var s' := Do(s, x);
            if x.Snapshot? && a == |s.history| then Awaits(s', a, c) <==> c in Subscribers(s.topics, x.topic)
            else if x.DropRefused? && x.c == c then Awaits(s', a, c) ==> Awaits(s, a, c)
            else if x.TrySend? && x.c == c && x.b == a && CanAccept(s.clients[c].send) then !Awaits(s', a, c)
            else Awaits(s', a, c) <==> Awaits(s, a, c)
  {
    hide NextClients, NextTopics;
  }

  lemma NobodyAwaits(s: State, c: ClientId)
    requires Inv(s) && (c !in s.clients || s.clients[c].phase == Created)
    ensures forall a :: !Awaits(s, a, c)
  {
    forall a | a in s.flights
      ensures !Awaits(s, a, c)
    {
      assert FlightIsSound(s, a);
    }
  }

  lemma AwaitedIsDue(s: State, c: ClientId, a: nat)
    requires Inv(s) && Awaits(s, a, c)
    ensures c in s.clients && a in DueTo(s, c) && a !in Accepted(s.clients[c]) && s.clients[c].phase != Created
    ensures a < |s.history| && s.history[a] == s.clients[c].topic
  {
    assert FlightIsSound(s, a);
    DueToExactly(s, c);
  }

  lemma NewClientIsInOrder(s: State, x: Step)
    requires Inv(s) && Can(s, x) && (x.Create? || x.Subscribe?)
    ensures x.c in Do(s, x).clients && IsInOrder(Do(s, x), x.c)
  {
    var s' := Do(s, x);
    NobodyAwaits(s, x.c);
    forall a
      ensures !Awaits(s', a, x.c)
    {
      AwaitsAfter(s, x, x.c, a);
    }
    if x.Subscribe? {
      assert ChannelIsSound(s.clients[x.c]);
      NothingDueYet(s.history, s.clients[x.c].topic);
    }
  }

  lemma SnapshotKeepsOrder(s: State, topic: string, c: ClientId)
    requires Inv(s) && c in s.clients && IsInOrder(s, c)
    ensures IsInOrder(Do(s, Snapshot(topic)), c)
  {
    hide Due;
    var s', st, n := Do(s, Snapshot(topic)), s.clients[c], |s.history|;
    assert s'.clients == s.clients;
    DueAppend(s.history, topic, st.topic, st.since);
    assert c in Subscribers(s.topics, topic) <==> st.topic == topic && OnTopic(st);
    forall a: nat
      ensures a != n ==> (Awaits(s', a, c) <==> Awaits(s, a, c)) && (Misses(s', c, a) <==> Misses(s, c, a))
      ensures Awaits(s', n, c) <==> st.topic == topic && OnTopic(st)
      ensures Awaits(s, a, c) ==> a < n
    {
      AwaitsAfter(s, Snapshot(topic), c, a);
      AwaitsAfter(s, Snapshot(topic), c, n);
      if Awaits(s, a, c) {
        AwaitedIsDue(s, c, a);
      }
    }
    DueToExactly(s, c);
  }

  lemma TrySendKeepsOrder(s: State, b: nat, c: ClientId)
    requires Inv(s) && Can(s, TrySend(b, c)) && IsInOrder(s, c) && !Overtakes(s, TrySend(b, c), c)
    ensures IsInOrder(Do(s, TrySend(b, c)), c)
  {
    hide Acted, NextClients, NextTopics, NextFlights, Due, Awaits;
    var x := TrySend(b, c);
    var s', st := Do(s, x), s.clients[c];
    TrySendEffect(s, b, c);
    if CanAccept(st.send) {
      AwaitedIsDue(s, c, b);
      DueToExactly(s, c);
      forall a | a in DueTo(s, c) && a < b
        ensures a in Accepted(st)
      {
        assert Misses(s, c, a) ==> b < a;
      }
      PartContinues(Accepted(st), DueTo(s, c), b);
    }
    forall a | Misses(s', c, a)
      ensures Misses(s, c, a)
    {
    }
  }

  lemma TrySendEffect(s: State, b: nat, c: ClientId)
    requires Can(s, TrySend(b, c))
    ensures var s', st := Do(s, TrySend(b, c)), s.clients[c];
            && Awaits(s, b, c)
            && c in s'.clients && s'.history == s.history
            && Accepted(s'.clients[c]) == Accepted(st) + (if CanAccept(st.send) then [b] else [])
            && s'.clients[c].topic == st.topic && s'.clients[c].since == st.since
            && s'.clients[c].send.closes == st.send.closes && s'.clients[c].phase == st.phase
            && forall a :: Awaits(s', a, c) <==> Awaits(s, a, c) && !(a == b && CanAccept(st.send))
  {
    hide Acted, NextClients, NextTopics, NextFlights;
    var x := TrySend(b, c);
    ClientAfter(s, x, c);
    AcceptedAfter(s.clients[c], x, |s.history|);
    SendKeepsTheRest(s.clients[c], b, c, |s.history|);
    forall a
      ensures Awaits(Do(s, x), a, c) <==> Awaits(s, a, c) && !(a == b && CanAccept(s.clients[c].send))
    {
      AwaitsAfter(s, x, c, a);
    }
  }

  lemma SendKeepsTheRest(st: ClientState, b: nat, c: ClientId, now: nat)
    ensures var st' := Acted(st, TrySend(b, c), now);
            st'.send.closes == st.send.closes && st'.phase == st.phase
  {
  }

  lemma DropCloses(st: ClientState, b: nat, c: ClientId, now: nat)
    requires ChannelIsSound(st)
    ensures Acted(st, DropRefused(b, c), now).send.closes == 1
  {
  }

  /** What a step other than those that add to what is due or accepted does to a client. */
  lemma QuietStep(st: ClientState, x: Step, now: nat)
    requires IsReady(st, x) && !x.TrySend? && !x.Subscribe?
    ensures Acted(st, x, now).send.closes == 0 ==> st.send.closes == 0
    ensures OnTopic(Acted(st, x, now)) ==> OnTopic(st)
    ensures Accepted(Acted(st, x, now)) == Accepted(st)
  {
    AcceptedAfter(st, x, now);
  }

  lemma OtherStepKeepsOrder(s: State, x: Step, c: ClientId)
    requires Inv(s) && Can(s, x) && c in s.clients && IsInOrder(s, c)
    requires !x.Snapshot? && ((x.TrySend? || x.Subscribe? || x.Create?) ==> x.c != c)
    ensures c in Do(s, x).clients && IsInOrder(Do(s, x), c)
  {
    hide Acted, NextClients, NextTopics, NextFlights, Awaits, Due;
    var s', st := Do(s, x), s.clients[c];
    ClientAfter(s, x, c);
    assert ChannelIsSound(st);
    if ActsOn(x, c) {
      AcceptedAfter(st, x, |s.history|);
      QuietStep(st, x, |s.history|);
      if x.DropRefused? {
        DropCloses(st, x.b, c, |s.history|);
      }
    }
    forall a
      ensures Awaits(s', a, c) ==> Awaits(s, a, c)
      ensures !(x.DropRefused? && x.c == c) && Awaits(s, a, c) ==> Awaits(s', a, c)
    {
      AwaitsAfter(s, x, c, a);
    }
    assert forall a :: Misses(s', c, a) && s'.clients[c].send.closes == 0 ==> Misses(s, c, a);
  }

  lemma StepKeepsOrder(s: State, x: Step, c: ClientId)
    requires Inv(s) && Can(s, x) && c in Do(s, x).clients && !Overtakes(s, x, c)
    requires c in s.clients ==> IsInOrder(s, c)
    ensures IsInOrder(Do(s, x), c)
  {
    ClientAfter(s, x, c);
    if (x.Create? || x.Subscribe?) && x.c == c {
      NewClientIsInOrder(s, x);
    } else if x.Snapshot? {
      SnapshotKeepsOrder(s, x.topic, c);
    } else if x.TrySend? && x.c == c {
      TrySendKeepsOrder(s, x.b, c);
    } else {
      OtherStepKeepsOrder(s, x, c);
    }
  }

  lemma {:induction false} InOrderUnlessOvertaken(states: seq<State>, steps: seq<Step>, n: nat, c: ClientId)
    requires IsRun(states, steps) && n < |states| && c in states[n].clients
    requires NoOvertaking(states, steps, n, c)
    ensures IsInOrder(states[n], c)
  {
    if n > 0 {
      HubIsSafe(states, steps, n - 1);
      if c in states[n - 1].clients {
        InOrderUnlessOvertaken(states, steps, n - 1, c);
      }
      StepKeepsOrder(states[n - 1], steps[n - 1], c);
    }
  }

  /** A later payload has been accepted ahead of an earlier one that was due. */
  ghost predicate IsSkipped(s: State, c: ClientId, a: nat, b: nat) {
    && c in s.clients && a < b && a in DueTo(s, c) && s.clients[c].phase != Created
    && exists k :: 0 <= k < |Accepted(s.clients[c])| && Accepted(s.clients[c])[k] == b && a !in Accepted(s.clients[c])[..k]
  }

  lemma SkippedIsOutOfOrder(s: State, c: ClientId, a: nat, b: nat)
    requires IsSkipped(s, c, a, b)
    ensures !(Accepted(s.clients[c]) <= DueTo(s, c))
  {
    hide Due;
    var acc, due := Accepted(s.clients[c]), DueTo(s, c);
    var k :| 0 <= k < |acc| && acc[k] == b && a !in acc[..k];
    DueToExactly(s, c);
    AllBefore(acc, due, k);
  }

  lemma OvertakingSkips(s: State, b: nat, c: ClientId) returns (a: nat)
    requires Inv(s) && Can(s, TrySend(b, c)) && Overtakes(s, TrySend(b, c), c)
    ensures IsSkipped(Do(s, TrySend(b, c)), c, a, b)
  {
    hide NextClients, NextTopics, NextFlights, Due, Awaits;
    var e: nat :| e < b && Awaits(s, e, c);
    a := e;
    var s', st := Do(s, TrySend(b, c)), s.clients[c];
    AwaitedIsDue(s, c, a);
    TrySendEffect(s, b, c);
    var acc := Accepted(s'.clients[c]);
    assert acc[|acc| - 1] == b && acc[..|acc| - 1] == Accepted(st);
  }

  lemma SkippedStays(s: State, x: Step, c: ClientId, a: nat, b: nat)
    requires Inv(s) && Can(s, x) && IsSkipped(s, c, a, b)
    ensures IsSkipped(Do(s, x), c, a, b)
  {
    hide Acted, NextClients, NextTopics, NextFlights, Due;
    var s', st := Do(s, x), s.clients[c];
    ClientAfter(s, x, c);
    AcceptedOnlyGrows(s, x, c);
    if ActsOn(x, c) {
      StaysCreatedOrNot(st, x, |s.history|);
      AcceptedAfter(st, x, |s.history|);
    }
    DueToExactly(s, c);
    DueToExactly(s', c);
    var k :| 0 <= k < |Accepted(st)| && Accepted(st)[k] == b && a !in Accepted(st)[..k];
    assert Accepted(s'.clients[c])[..k] == Accepted(st)[..k];
  }

  lemma {:induction false} SkippedForGood(states: seq<State>, steps: seq<Step>, m: nat, n: nat, c: ClientId, a: nat, b: nat)
    requires IsRun(states, steps) && m <= n < |states| && IsSkipped(states[m], c, a, b)
    ensures IsSkipped(states[n], c, a, b)
  {
    if m < n {
      hide IsSkipped, Inv, Do, Can;
      SkippedForGood(states, steps, m, n - 1, c, a, b);
      HubIsSafe(states, steps, n - 1);
      SkippedStays(states[n - 1], steps[n - 1], c, a, b);
    }
  }

  /** In any run, overlapping or not, what a client has accepted is a gap-free initial part of
      the broadcasts due to it exactly if no payload was put into its channel while an earlier
      one was still on its way to it. */
  lemma InOrderExactly(states: seq<State>, steps: seq<Step>, n: nat, c: ClientId)
    requires IsRun(states, steps) && n < |states| && c in states[n].clients
    ensures Accepted(states[n].clients[c]) <= DueTo(states[n], c) <==> NoOvertaking(states, steps, n, c)
  {
    if NoOvertaking(states, steps, n, c) {
      InOrderUnlessOvertaken(states, steps, n, c);
    } else {
      var i :| 0 <= i < n && Overtakes(states[i], steps[i], c);
      HubIsSafe(states, steps, i);
      var a := OvertakingSkips(states[i], steps[i].b, c);
      SkippedForGood(states, steps, i + 1, n, c, a, steps[i].b);
      SkippedIsOutOfOrder(states[n], c, a, steps[i].b);
    }
  }

  /** And then a client that is subscribed and open has been sent everything due to it, apart
      from what is still on its way. */
  lemma NothingMissed(states: seq<State>, steps: seq<Step>, n: nat, c: ClientId)
    requires IsRun(states, steps) && n < |states| && c in states[n].clients
    requires NoOvertaking(states, steps, n, c)
    requires OnTopic(states[n].clients[c]) && states[n].clients[c].send.closes == 0
    ensures forall a :: a in DueTo(states[n], c) ==> a in Accepted(states[n].clients[c]) || Awaits(states[n], a, c)
    ensures (forall a :: !Awaits(states[n], a, c)) ==> Accepted(states[n].clients[c]) == DueTo(states[n], c)
  {
    InOrderUnlessOvertaken(states, steps, n, c);
    var s := states[n];
    forall a | a in DueTo(s, c)
      ensures a in Accepted(s.clients[c]) || Awaits(s, a, c)
    {
      assert !Misses(s, c, a);
    }
    if forall a :: !Awaits(s, a, c) {
      DueToExactly(s, c);
      PartIsAll(Accepted(s.clients[c]), DueTo(s, c));
    }
  }

  // -------------------------------------------------- broadcasts that do not overlap

  /** No broadcast starts while another one on the same topic is in progress. */
  ghost predicate IsSequential(states: seq<State>, steps: seq<Step>) {
    |states| == |steps| + 1
    && forall i :: 0 <= i < |steps| && steps[i].Snapshot? ==> TopicIsIdle(states[i], steps[i].topic)
  }

  ghost predicate TopicIsIdle(s: State, topic: string) {
    forall b :: b in s.flights && b < |s.history| ==> s.history[b] != topic
  }

  /** What has been sent to the client so far is an initial part of what is due to it, and
      only the payload now on its way may be missing unless the client has been closed. */
  ghost predicate IsGapFree(s: State, c: ClientId)
    requires c in s.clients
  {
    var st := s.clients[c];
    && Accepted(st) <= DueTo(s, c)
    && (forall b :: b in s.flights && c in s.flights[b].remaining && st.send.closes == 0 ==>
                      Accepted(st) + [b] == DueTo(s, c))
    && (OnTopic(st) && st.send.closes == 0 && (forall b :: b in s.flights ==> !Awaits(s, b, c)) ==>
          Accepted(st) == DueTo(s, c))
  }

  ghost predicate OnePerTopic(s: State) {
    forall a, b :: && a in s.flights && b in s.flights && a < |s.history| && b < |s.history|
                   && s.history[a] == s.history[b]
                   ==> a == b
  }

  ghost predicate SeqInv(s: State) {
    && Inv(s) && OnePerTopic(s)
    && forall c :: c in s.clients ==> IsGapFree(s, c)
  }

  /** No topic of a broadcast in progress has had another broadcast since. */
  ghost predicate FlightsAreLatest(s: State) {
    forall b, x :: b in s.flights && b < x < |s.history| ==> s.history[x] != s.history[b]
  }

  lemma StepKeepsLatest(s: State, x: Step)
    requires Inv(s) && FlightsAreLatest(s) && Can(s, x)
    requires x.Snapshot? ==> TopicIsIdle(s, x.topic)
    ensures FlightsAreLatest(Do(s, x))
  {
    hide NextClients, NextTopics;
    var s' := Do(s, x);
    forall b, y | b in s'.flights && b < y < |s'.history|
      ensures s'.history[y] != s'.history[b]
    {
      if b in s.flights {
        assert FlightIsSound(s, b);
      }
    }
  }

  lemma {:induction false} SequentialFlightsAreLatest(states: seq<State>, steps: seq<Step>, n: nat)
    requires IsRun(states, steps) && IsSequential(states, steps) && n < |states|
    ensures FlightsAreLatest(states[n])
  {
    if n > 0 {
      SequentialFlightsAreLatest(states, steps, n - 1);
      HubIsSafe(states, steps, n - 1);
      StepKeepsLatest(states[n - 1], steps[n - 1]);
    }
  }

  /** At most one broadcast in progress concerns a client. */
  lemma OnlyFlight(s: State, a: nat, b: nat, c: ClientId)
    requires Inv(s) && FlightsAreLatest(s) && Awaits(s, a, c) && Awaits(s, b, c)
    ensures a == b
  {
    AwaitedIsDue(s, c, a);
    AwaitedIsDue(s, c, b);
  }

  /** Broadcasts that do not overlap do not overtake each other. */
  lemma SequentialIsOrdered(states: seq<State>, steps: seq<Step>, n: nat, c: ClientId)
    requires IsRun(states, steps) && IsSequential(states, steps) && n < |states|
    ensures NoOvertaking(states, steps, n, c)
  {
    forall i | 0 <= i < n
      ensures !Overtakes(states[i], steps[i], c)
    {
      if Overtakes(states[i], steps[i], c) {
        var s, b := states[i], steps[i].b;
        var a: nat :| a < b && Awaits(s, a, c);
        HubIsSafe(states, steps, i);
        SequentialFlightsAreLatest(states, steps, i);
        OnlyFlight(s, a, b, c);
      }
    }
  }

  lemma GapFreeOf(s: State, c: ClientId)
    requires Inv(s) && FlightsAreLatest(s) && c in s.clients && IsInOrder(s, c)
    ensures IsGapFree(s, c)
  {
    hide Due;
    var st := s.clients[c];
    DueToExactly(s, c);
    forall b | b in s.flights && c in s.flights[b].remaining && st.send.closes == 0
      ensures Accepted(st) + [b] == DueTo(s, c)
    {
      assert Awaits(s, b, c);
      AwaitedIsDue(s, c, b);
      forall a | a in DueTo(s, c) && a != b
        ensures a in Accepted(st)
      {
        assert a < b;
        if Awaits(s, a, c) {
          OnlyFlight(s, a, b, c);
        }
        assert Misses(s, c, a) ==> b < a;
      }
      PartContinues(Accepted(st), DueTo(s, c), b);
      PartIsAll(Accepted(st) + [b], DueTo(s, c));
    }
    if OnTopic(st) && st.send.closes == 0 && forall b :: b in s.flights ==> !Awaits(s, b, c) {
      forall a | a in DueTo(s, c)
        ensures a in Accepted(st)
      {
        assert !Misses(s, c, a);
      }
      PartIsAll(Accepted(st), DueTo(s, c));
    }
  }

  lemma SequentialHubIsGapFree(states: seq<State>, steps: seq<Step>, n: nat)
    requires IsRun(states, steps) && IsSequential(states, steps) && n < |states|
    ensures SeqInv(states[n])
  {
    var s := states[n];
    HubIsSafe(states, steps, n);
    SequentialFlightsAreLatest(states, steps, n);
    forall c | c in s.clients
      ensures IsGapFree(s, c)
    {
      SequentialIsOrdered(states, steps, n, c);
      InOrderUnlessOvertaken(states, steps, n, c);
      GapFreeOf(s, c);
    }
  }

  /** When broadcasts on a topic do not overlap, what is written to a client is a gap-free
      initial part of the topic's broadcasts since it subscribed; and while the client is
      subscribed and not closed, between broadcasts everything due has been sent to it. */
  lemma DeliveryIsGapFree(states: seq<State>, steps: seq<Step>, n: nat, c: ClientId)
    requires IsRun(states, steps) && IsSequential(states, steps) && n < |states|
    requires c in states[n].clients
    ensures var s, st := states[n], states[n].clients[c];
            && st.written <= Accepted(st) <= DueTo(s, c)
            && (OnTopic(st) && st.send.closes == 0 && TopicIsIdle(s, st.topic) ==> Accepted(st) == DueTo(s, c))
  {
    SequentialHubIsGapFree(states, steps, n);
    var s := states[n];
    assert IsGapFree(s, c) && ChannelIsSound(s.clients[c]);
    forall b | b in s.flights && TopicIsIdle(s, s.clients[c].topic)
      ensures !Awaits(s, b, c)
    {
      assert FlightIsSound(s, b);
    }
  }

  // ------------------------------------------------------ broadcasts that do overlap

  /** The hub once client 0 has subscribed to "t". */
  const ONE_CLIENT := State(
    map["t" := {0}], map[0 := ClientState("t", Serving, Channel([], 0, false), true, [], [], 0)], [], map[])

  lemma OneClientSubscribes()
    ensures Can(INIT, Create(0, "t")) && Can(Do(INIT, Create(0, "t")), Subscribe(0))
    ensures Do(Do(INIT, Create(0, "t")), Subscribe(0)) == ONE_CLIENT
  {
    var s := Do(INIT, Create(0, "t"));
    assert s.clients[0].phase == Created;
    assert Subscribers(s.topics, "t") + {0} == {0};
    var s' := Do(s, Subscribe(0));
    assert s'.topics == ONE_CLIENT.topics && s'.clients == ONE_CLIENT.clients;
  }

  lemma TwoSnapshots()
    ensures var s := Do(Do(ONE_CLIENT, Snapshot("t")), Snapshot("t"));
            && s.clients == ONE_CLIENT.clients
            && s.flights == map[0 := Flight({0}, {}), 1 := Flight({0}, {})]
    ensures !TopicIsIdle(Do(ONE_CLIENT, Snapshot("t")), "t")
  {
    var s := Do(ONE_CLIENT, Snapshot("t"));
    assert s.flights == map[0 := Flight({0}, {})] && s.history == ["t"];
    assert 0 in s.flights && s.history[0] == "t";
  }

  lemma SnapshotsAlwaysCan(s: State)
    ensures Can(s, Snapshot("t"))
  {
  }

  lemma SecondOvertakesFirst(s: State, c: ClientId)
    requires c in s.clients && s.clients[c].taken == [] && s.clients[c].send == Channel([], 0, false)
    requires 0 in s.flights && 1 in s.flights && s.flights[0] == s.flights[1] == Flight({c}, {})
    ensures Can(s, TrySend(1, c)) && Can(Do(s, TrySend(1, c)), TrySend(0, c))
    ensures var s' := Do(Do(s, TrySend(1, c)), TrySend(0, c));
            c in s'.clients && Accepted(s'.clients[c]) == [1, 0]
  {
  }

  /** Overlapping broadcasts can reach a client in the wrong order: this run ends with the
      second of two payloads accepted before the first. */
  lemma OverlapCanReorder() returns (states: seq<State>, steps: seq<Step>)
    ensures IsRun(states, steps) && 0 in states[|steps|].clients
    ensures Accepted(states[|steps|].clients[0]) == [1, 0]
    ensures !IsSequential(states, steps)
  {
    hide Do, Can, Accepted, TopicIsIdle;
    OneClientSubscribes();
    TwoSnapshots();
    SnapshotsAlwaysCan(ONE_CLIENT);
    var s1, s3 := Do(INIT, Create(0, "t")), Do(ONE_CLIENT, Snapshot("t"));
    SnapshotsAlwaysCan(s3);
    var s4 := Do(s3, Snapshot("t"));
    SecondOvertakesFirst(s4, 0);
    var s5 := Do(s4, TrySend(1, 0));
    steps := [Create(0, "t"), Subscribe(0), Snapshot("t"), Snapshot("t"), TrySend(1, 0), TrySend(0, 0)];
    states := [INIT, s1, ONE_CLIENT, s3, s4, s5, Do(s5, TrySend(0, 0))];
    assert steps[3] == Snapshot("t") && states[3] == s3;
  }
}
