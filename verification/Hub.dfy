/** The WebSocket hub: topics, bounded per-client channels that close once, and fan-out. */
module Hub {

  const SEND_BUFFER := 32

  /** A client's send channel with its sync.Once; closes counts executed close calls. */
  datatype Channel<P> = Channel(queue: seq<P>, closes: nat, once: bool)

  predicate CanAccept<P>(ch: Channel<P>) {
    ch.closes == 0 && |ch.queue| < SEND_BUFFER
  }

  /** A non-blocking send: refused when the buffer is full, and when the channel is closed. */
  function Offer<P>(ch: Channel<P>, p: P): Channel<P> {
    if CanAccept(ch) then ch.(queue := ch.queue + [p]) else ch
  }

  function CloseOnce<P>(ch: Channel<P>): Channel<P> {
    if ch.once then ch else ch.(once := true, closes := ch.closes + 1)
  }

  type Topics<!C> = map<string, set<C>>

  function Subscribers<C>(topics: Topics<C>, topic: string): set<C> {
    if topic in topics then topics[topic] else {}
  }

  function Subscribed<C>(topics: Topics<C>, topic: string, c: C): Topics<C> {
    topics[topic := Subscribers(topics, topic) + {c}]
  }

  /** A topic that loses its last subscriber is removed. */
  function Unsubscribed<C>(topics: Topics<C>, topic: string, c: C): Topics<C> {
    if topic !in topics then topics
    else if topics[topic] - {c} == {} then topics - {topic}
    else topics[topic := topics[topic] - {c}]
  }

  lemma SubscribersAfter<C>(topics: Topics<C>, topic: string, c: C, t: string)
    ensures Subscribers(Subscribed(topics, topic, c), t)
         == Subscribers(topics, t) + if t == topic then {c} else {}
    ensures Subscribers(Unsubscribed(topics, topic, c), t)
         == Subscribers(topics, t) - if t == topic then {c} else {}
  {
  }

  class Client<P> {
    var send: Channel<P>

    constructor ()
      ensures send == Channel([], 0, false)
    {
      send := Channel([], 0, false);
    }

    method TrySend(p: P) returns (ok: bool)
      modifies this
      ensures send == Offer(old(send), p)
      ensures ok <==> old(send).closes == 0 && |old(send).queue| < 32
      ensures send == if ok then old(send).(queue := old(send).queue + [p]) else old(send)
    {
      if send.closes > 0 {
        return false; // the send panics and is recovered
      }
      if |send.queue| < SEND_BUFFER {
        send := send.(queue := send.queue + [p]);
        return true;
      }
      return false;
    }

    method Close()
      modifies this
      ensures send == CloseOnce(old(send))
      ensures send.queue == old(send).queue && send.once
      ensures send.closes == if old(send).once then old(send).closes else old(send).closes + 1
    {
      if !send.once {
        send := send.(once := true, closes := send.closes + 1);
      }
    }
  }

  class Server<P> {
    var topics: Topics<Client<P>>

    constructor ()
      ensures topics == map[]
    {
      topics := map[];
    }

    method Subscribe(topic: string, c: Client<P>)
      modifies this
      ensures topics == Subscribed(old(topics), topic, c)
    {
      if topic !in topics {
        topics := topics[topic := {}];
      }
      topics := topics[topic := topics[topic] + {c}];
    }

    method Unsubscribe(topic: string, c: Client<P>)
      modifies this
      ensures topics == Unsubscribed(old(topics), topic, c)
    {
      if topic in topics {
        var subs := topics[topic] - {c};
        topics := topics[topic := subs];
        if |subs| == 0 {
          topics := topics - {topic};
        }
      }
    }

    /** A broadcast that nothing interrupts: every subscriber gets the payload or is closed,
        and nobody else is touched. An open subscriber with fewer than 32 payloads queued stays
        open and gets it; one with more does not, and is closed. */
    method Broadcast(topic: string, p: P)
      modifies Subscribers(topics, topic)
      ensures forall c :: c in Subscribers(topics, topic) ==>
                            if old(c.send).closes == 0 && |old(c.send).queue| < 32
                            then c.send == old(c.send).(queue := old(c.send).queue + [p])
                            else c.send.queue == old(c.send).queue && c.send.once
      ensures forall c :: c in Subscribers(topics, topic) ==>
                            c.send == if CanAccept(old(c.send)) then Offer(old(c.send), p) else CloseOnce(old(c.send))
    {
      var subs := Subscribers(topics, topic);
      var clients := subs;
      while clients != {}
        invariant clients <= subs
        invariant forall c :: c in clients ==> c.send == old(c.send)
        invariant forall c :: c in subs - clients ==>
                                c.send == if CanAccept(old(c.send)) then Offer(old(c.send), p) else CloseOnce(old(c.send))
        decreases clients
        modifies subs
      {
        var c :| c in clients;
        var ok := c.TrySend(p);
        if !ok {
          c.Close();
        }
        clients := clients - {c};
      }
    }
  }
}
