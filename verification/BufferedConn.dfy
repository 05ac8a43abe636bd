/**
 * The buffered forwarder between the push connection and its subscribers. A background forwarder moves
 * messages from a source channel to an output channel; until someone subscribes it keeps them in
 * a bounded buffer instead. The forwarder and the subscribers share the buffer under a lock, so the
 * model is an interleaving of what happens while the lock is held and of the moments in between.
 */
module BufferedConn {
  import opened Options

  /** The shared state, whether a subscriber holds the lock to empty the buffer, the counter, everything
      ever sent on the output channel, the message the forwarder holds after it let go of the lock, and
      where each receiver started in the output. */
  datatype Conn<M> = Conn(buffer: seq<M>, subscribed: bool, draining: bool, dropped: nat, output: seq<M>,
                          pending: Option<M>, receivers: seq<nat>)

  /** The atomic steps: the forwarder receives, sends, or learns that it lagged; a subscriber creates
      its receiver, and later takes the lock, and the first one then moves the buffered messages to the
      output one by one before it lets go. */
  datatype Event<M> = Receive(msg: M) | Send | Lag(missed: nat) | Attach | Lock | Drain | Unlock

  function Start<M>(): Conn<M> { Conn([], false, false, 0, [], None, []) }

  /** The capacity of the output channel. */
  function Capacity(maxBuffer: nat): nat { if maxBuffer == 0 then 1 else maxBuffer }

  /** The forwarder does one thing after the other, and the lock is held by one at a time. Creating a
      receiver and sending need no lock. */
  predicate Enabled<M>(c: Conn<M>, e: Event<M>) {
    match e
    case Receive(_) => c.pending.None? && !c.draining
    case Lag(_) => c.pending.None?
    case Send => c.pending.Some?
    case Attach => true
    case Lock => !c.draining
    case Drain => c.draining && c.buffer != []
    case Unlock => c.draining && c.buffer == []
  }

  function Step<M>(maxBuffer: nat, c: Conn<M>, e: Event<M>): Conn<M>
    requires Enabled(c, e)
  {
    match e
    case Receive(msg) =>
      if c.subscribed then c.(pending := Some(msg))
      else if |c.buffer| >= maxBuffer then c.(buffer := Rest(c.buffer) + [msg], dropped := c.dropped + 1)
      else c.(buffer := c.buffer + [msg])
    case Send => c.(output := c.output + [c.pending.value], pending := None)
    case Lag(missed) => c.(dropped := c.dropped + missed)
    case Attach => c.(receivers := c.receivers + [|c.output|])
    case Lock => if c.subscribed then c else c.(subscribed := true, draining := true)
    case Drain => c.(output := c.output + [c.buffer[0]], buffer := c.buffer[1..])
    case Unlock => c.(draining := false)
  }

  function Rest<M>(s: seq<M>): seq<M> { if s == [] then [] else s[1..] }

  // --- the code ---

  class Forwarder<M(0)> {
    const maxBuffer: nat
    var buffer: seq<M>
    var subscribed: bool
    var draining: bool
    var dropped: nat
    var output: seq<M>
    var pending: Option<M>
    var receivers: seq<nat>

    ghost function Value(): Conn<M>
      reads this
    {
      Conn(buffer, subscribed, draining, dropped, output, pending, receivers)
    }

    constructor (maxBuffer: nat)
      ensures Value() == Start() && this.maxBuffer == maxBuffer
    {
      this.maxBuffer := maxBuffer;
      buffer, subscribed, draining, dropped, output, pending, receivers := [], false, false, 0, [], None, [];
    }

    /** The forwarder received a message and took the lock. */
    method OnReceive(msg: M)
      requires pending.None? && !draining
      modifies this
      ensures Value() == Step(maxBuffer, old(Value()), Receive(msg))
    {
      if subscribed {
        pending := Some(msg);
      } else {
        if |buffer| >= maxBuffer {
          if buffer != [] {
            buffer := buffer[1..];
          }
          dropped := dropped + 1;
        }
        buffer := buffer + [msg];
      }
    }

    /** The forwarder sends the message it kept when it let go of the lock. */
    method OnSend()
      requires pending.Some?
      modifies this
      ensures Value() == Step(maxBuffer, old(Value()), Send)
    {
      output, pending := output + [pending.value], None;
    }

    method OnLag(missed: nat)
      requires pending.None?
      modifies this
      ensures Value() == Step(maxBuffer, old(Value()), Lag(missed))
    {
      dropped := dropped + missed;
    }

    /** The subscriber's receiver sees what is sent from now on. */
    method OnAttach() returns (position: nat)
      modifies this
      ensures Value() == Step(maxBuffer, old(Value()), Attach)
      ensures position == |output|
    {
      position := |output|;
      receivers := receivers + [position];
    }

    /** The subscriber takes the lock: the first one finds that it has to empty the buffer. */
    method OnLock()
      requires !draining
      modifies this
      ensures Value() == Step(maxBuffer, old(Value()), Lock)
    {
      if !subscribed {
        subscribed, draining := true, true;
      }
    }

    /** One turn of the loop that empties the buffer into the output. */
    method OnDrain()
      requires draining && buffer != []
      modifies this
      ensures Value() == Step(maxBuffer, old(Value()), Drain)
    {
      var msg := buffer[0];
      buffer := buffer[1..];
      output := output + [msg];
    }

    method OnUnlock()
      requires draining && buffer == []
      modifies this
      ensures Value() == Step(maxBuffer, old(Value()), Unlock)
    {
      draining := false;
    }
  }

  // --- runs ---

  ghost predicate Legal<M>(maxBuffer: nat, c: Conn<M>, events: seq<Event<M>>)
    decreases |events|, 0
  {
    events == [] ||
    (Legal(maxBuffer, c, Front(events)) && Enabled(Run(maxBuffer, c, Front(events)), Last(events)))
  }

  ghost function Run<M>(maxBuffer: nat, c: Conn<M>, events: seq<Event<M>>): Conn<M>
    requires Legal(maxBuffer, c, events)
    decreases |events|, 1
  {
    if events == [] then c else Step(maxBuffer, Run(maxBuffer, c, Front(events)), Last(events))
  }

  ghost function Front<T>(s: seq<T>): seq<T>
    requires s != []
  {
    s[..|s| - 1]
  }

  ghost function Last<T>(s: seq<T>): T
    requires s != []
  {
    s[|s| - 1]
  }

  /** What the forwarder received from the source, in order. */
  ghost function Received<M>(events: seq<Event<M>>): seq<M> {
    if events == [] then []
    else Received(Front(events)) + (if Last(events).Receive? then [Last(events).msg] else [])
  }

  /** How many messages the source channel dropped under the forwarder. */
  ghost function Lagged<M>(events: seq<Event<M>>): nat {
    if events == [] then 0
    else Lagged(Front(events)) + (if Last(events).Lag? then Last(events).missed else 0)
  }

  /** Whether a message came in before anyone subscribed. */
  ghost predicate Early<M>(events: seq<Event<M>>) {
    events != [] && (Early(Front(events)) || (Last(events).Receive? && Lock !in events))
  }

  ghost function Carried<M>(pending: Option<M>): seq<M> {
    if pending.Some? then [pending.value] else []
  }

  /** What reached the output or still will, in order. */
  ghost function Stream<M>(c: Conn<M>): seq<M> { c.output + Carried(c.pending) + c.buffer }

  // --- what every interleaving keeps ---

  ghost predicate Phases<M>(maxBuffer: nat, c: Conn<M>) {
    && |c.buffer| <= Capacity(maxBuffer)
    && (c.draining ==> c.subscribed && c.pending.None? && |c.output| + |c.buffer| <= Capacity(maxBuffer))
    && (c.subscribed && !c.draining ==> c.buffer == [])
    && (!c.subscribed ==>
          c.output == [] && c.pending.None? && forall i :: 0 <= i < |c.receivers| ==> c.receivers[i] == 0)
  }

  lemma PhasesStep<M>(maxBuffer: nat, c: Conn<M>, e: Event<M>)
    requires Phases(maxBuffer, c) && Enabled(c, e)
    ensures Phases(maxBuffer, Step(maxBuffer, c, e))
  {
  }

  lemma {:induction false} PhasesKept<M>(maxBuffer: nat, events: seq<Event<M>>)
    requires Legal(maxBuffer, Start(), events)
    ensures var c := Run(maxBuffer, Start(), events);
            Phases(maxBuffer, c) && (c.subscribed <==> Lock in events)
    decreases |events|
  {
    if events != [] {
      PhasesKept(maxBuffer, Front(events));
    }
  }

  /** The messages that will never reach the output: the oldest ones. */
  ghost predicate Lost<M>(received: seq<M>, stream: seq<M>, lost: seq<M>) {
    received == lost + stream
  }

  lemma ReceiveStep<M>(maxBuffer: nat, c: Conn<M>, msg: M, received: seq<M>, lost: seq<M>) returns (lost': seq<M>)
    requires Enabled(c, Receive(msg)) && Phases(maxBuffer, c) && Lost(received, Stream(c), lost)
    ensures Lost(received + [msg], Stream(Step(maxBuffer, c, Receive(msg))), lost')
    ensures |lost'| == |lost| + (if !c.subscribed && |c.buffer| == Capacity(maxBuffer) then 1 else 0)
  {
    if c.subscribed {
      lost' := lost;
      assert Stream(Step(maxBuffer, c, Receive(msg))) == Stream(c) + [msg];
      assert received + [msg] == lost + (Stream(c) + [msg]);
    } else {
      var buffer := Step(maxBuffer, c, Receive(msg)).buffer;
      assert Stream(c) == c.buffer && Stream(Step(maxBuffer, c, Receive(msg))) == buffer;
      lost' := BufferStep(c.buffer, Capacity(maxBuffer), msg, received, lost, buffer);
    }
  }

  lemma BufferStep<M>(buffer: seq<M>, capacity: nat, msg: M, received: seq<M>, lost: seq<M>, buffer': seq<M>)
    returns (lost': seq<M>)
    requires 1 <= capacity && |buffer| <= capacity && received == lost + buffer
    requires buffer' == (if |buffer| == capacity then buffer[1..] else buffer) + [msg]
    ensures received + [msg] == lost' + buffer' && |lost'| == |lost| + (if |buffer| == capacity then 1 else 0)
  {
    lost' := if |buffer| == capacity then lost + [buffer[0]] else lost;
  }

  /** One step loses at most the oldest message, and only a full buffer does. */
  lemma StreamStep<M>(maxBuffer: nat, c: Conn<M>, e: Event<M>, received: seq<M>, lost: seq<M>) returns (lost': seq<M>)
    requires Enabled(c, e) && Phases(maxBuffer, c) && Lost(received, Stream(c), lost)
    ensures Lost(received + (if e.Receive? then [e.msg] else []), Stream(Step(maxBuffer, c, e)), lost')
    ensures |lost'| == |lost| + (if e.Receive? && !c.subscribed && |c.buffer| == Capacity(maxBuffer) then 1 else 0)
  {
    if e.Receive? {
      lost' := ReceiveStep(maxBuffer, c, e.msg, received, lost);
    } else {
      lost' := lost;
      assert Stream(Step(maxBuffer, c, e)) == Stream(c);
      assert received + [] == received;
    }
  }

  /** The output, then the message in flight, then the buffer are the received messages without
      the oldest few; the counter is that few plus what the source dropped. A buffer of size zero
      still keeps one message, and then the counter is one too high: exactly then. */
  lemma {:induction false} StreamIsWhatCameLast<M>(maxBuffer: nat, events: seq<Event<M>>) returns (lost: seq<M>)
    requires Legal(maxBuffer, Start(), events)
    ensures
      var c := Run(maxBuffer, Start(), events);
      && Received(events) == lost + Stream(c)
      && c.dropped == |lost| + Lagged(events) + (if maxBuffer == 0 && Early(events) then 1 else 0)
      && (!c.subscribed ==> (Early(events) <==> c.buffer != []))
    decreases |events|
  {
    lost := [];
    if events != [] {
      lost := StreamIsWhatCameLast(maxBuffer, Front(events));
      PhasesKept(maxBuffer, Front(events));
      PhasesKept(maxBuffer, events);
      lost := StreamStep(maxBuffer, Run(maxBuffer, Start(), Front(events)), Last(events), Received(Front(events)),
                         lost);
    }
  }

  lemma {:induction false} RunConcat<M>(maxBuffer: nat, c: Conn<M>, a: seq<Event<M>>, b: seq<Event<M>>)
    requires Legal(maxBuffer, c, a + b)
    ensures Legal(maxBuffer, c, a) && Legal(maxBuffer, Run(maxBuffer, c, a), b)
    ensures Run(maxBuffer, c, a + b) == Run(maxBuffer, Run(maxBuffer, c, a), b)
    decreases |b|
  {
    if b == [] {
      assert a + b == a;
    } else {
      assert Front(a + b) == a + Front(b);
      RunConcat(maxBuffer, c, a, Front(b));
    }
  }

  /** Once someone subscribed the forwarder loses nothing of its own, also while the buffer is being
      emptied. */
  lemma {:induction false} SubscribedLosesNothing<M>(maxBuffer: nat, c: Conn<M>, events: seq<Event<M>>)
    requires Legal(maxBuffer, c, events) && c.subscribed && Phases(maxBuffer, c)
    ensures
      var c' := Run(maxBuffer, c, events);
      && c'.subscribed && Phases(maxBuffer, c')
      && c.output <= c'.output && c.receivers <= c'.receivers
      && Stream(c') == Stream(c) + Received(events)
      && c'.dropped == c.dropped + Lagged(events)
    decreases |events|
  {
    if events != [] {
      SubscribedLosesNothing(maxBuffer, c, Front(events));
      SubscribedStep(maxBuffer, Run(maxBuffer, c, Front(events)), Last(events));
    }
  }

  lemma SubscribedStep<M>(maxBuffer: nat, c: Conn<M>, e: Event<M>)
    requires c.subscribed && Phases(maxBuffer, c) && Enabled(c, e)
    ensures
      var c' := Step(maxBuffer, c, e);
      && c'.subscribed && Phases(maxBuffer, c')
      && c.output <= c'.output && c.receivers <= c'.receivers
      && Stream(c') == Stream(c) + (if e.Receive? then [e.msg] else [])
      && c'.dropped == c.dropped + (if e.Lag? then e.missed else 0)
  {
    var lost := StreamStep(maxBuffer, c, e, Stream(c), []);
  }

  lemma {:induction false} OnlyGrows<M>(maxBuffer: nat, c: Conn<M>, events: seq<Event<M>>)
    requires Legal(maxBuffer, c, events)
    ensures var c' := Run(maxBuffer, c, events);
            c.output <= c'.output && c.receivers <= c'.receivers && c.dropped <= c'.dropped
    decreases |events|
  {
    if events != [] {
      OnlyGrows(maxBuffer, c, Front(events));
    }
  }

  /** A receiver created before the buffer is emptied, by whichever subscriber, gets every message
      but the lost ones; and emptying the buffer never overruns the output channel. */
  lemma FirstSubscriberGetsTheStream<M>(maxBuffer: nat, before: seq<Event<M>>, after: seq<Event<M>>)
    returns (lost: seq<M>)
    requires Lock !in before && Legal(maxBuffer, Start(), before + [Attach] + after)
    ensures
      var events := before + [Attach] + after;
      var c := Run(maxBuffer, Start(), events);
      && Legal(maxBuffer, Start(), before)
      && var mine := |Run(maxBuffer, Start(), before).receivers|;
      && mine < |c.receivers| && c.receivers[mine] == 0
      && lost + c.output[c.receivers[mine]..] + Carried(c.pending) + c.buffer == Received(events)
      && c.dropped == |lost| + Lagged(events) + (if maxBuffer == 0 && Early(events) then 1 else 0)
  {
    var events := before + [Attach] + after;
    lost := StreamIsWhatCameLast(maxBuffer, events);
    FirstReceiverStartsAtZero(maxBuffer, before, after);
    var c := Run(maxBuffer, Start(), events);
    assert c.output[0..] == c.output;
    assert lost + Stream(c) == lost + c.output + Carried(c.pending) + c.buffer;
  }

  lemma FirstReceiverStartsAtZero<M>(maxBuffer: nat, before: seq<Event<M>>, after: seq<Event<M>>)
    requires Lock !in before && Legal(maxBuffer, Start(), before + [Attach] + after)
    ensures Legal(maxBuffer, Start(), before)
    ensures
      var c := Run(maxBuffer, Start(), before + [Attach] + after);
      var mine := |Run(maxBuffer, Start(), before).receivers|;
      mine < |c.receivers| && c.receivers[mine] == 0
  {
    RunConcat(maxBuffer, Start(), before + [Attach], after);
    RunConcat(maxBuffer, Start(), before, [Attach]);
    assert Front(before + [Attach]) == before;
    PhasesKept(maxBuffer, before);
    OnlyGrows(maxBuffer, Run(maxBuffer, Start(), before + [Attach]), after);
  }

  lemma Unfold<M>(maxBuffer: nat, c: Conn<M>, events: seq<Event<M>>, e: Event<M>)
    requires Legal(maxBuffer, c, events + [e])
    ensures Legal(maxBuffer, c, events) && Enabled(Run(maxBuffer, c, events), e)
    ensures Run(maxBuffer, c, events + [e]) == Step(maxBuffer, Run(maxBuffer, c, events), e)
  {
    assert Front(events + [e]) == events;
  }

  /** While the buffer is being emptied, output and buffer together are what was buffered, whoever
      subscribes meanwhile; so no receiver has more waiting than the output channel holds. */
  lemma {:induction false} DrainFitsTheOutput<M>(maxBuffer: nat, before: seq<Event<M>>, during: seq<Event<M>>)
    requires Lock !in before && Unlock !in during && Legal(maxBuffer, Start(), before + [Lock] + during)
    ensures Legal(maxBuffer, Start(), before)
    ensures
      var c := Run(maxBuffer, Start(), before + [Lock] + during);
      && c.draining && c.pending.None? && c.output + c.buffer == Run(maxBuffer, Start(), before).buffer
      && |c.output| <= Capacity(maxBuffer)
      && forall i :: 0 <= i < |c.receivers| ==> |c.output| - c.receivers[i] <= Capacity(maxBuffer)
    decreases |during|
  {
    hide Legal, Run;
    var events := before + [Lock] + during;
    PhasesKept(maxBuffer, events);
    if during == [] {
      assert events == before + [Lock];
      Unfold(maxBuffer, Start(), before, Lock);
      PhasesKept(maxBuffer, before);
    } else {
      var e, prior := Last(during), before + [Lock] + Front(during);
      assert events == prior + [e] && e in during;
      Unfold(maxBuffer, Start(), prior, e);
      DrainFitsTheOutput(maxBuffer, before, Front(during));
    }
  }

  /** A receiver created later gets what is still in flight or buffered, and everything after it. */
  lemma LateSubscriberGetsTheRest<M>(maxBuffer: nat, c: Conn<M>, after: seq<Event<M>>)
    requires c.subscribed && Phases(maxBuffer, c) && Legal(maxBuffer, c, [Attach] + after)
    ensures
      var c' := Run(maxBuffer, c, [Attach] + after);
      && |c.output| <= |c'.output|
      && c'.output[|c.output|..] + Carried(c'.pending) + c'.buffer == Carried(c.pending) + c.buffer + Received(after)
  {
    hide Phases, Received;
    RunConcat(maxBuffer, c, [Attach], after);
    var mid := Run(maxBuffer, c, [Attach]);
    PhasesStep(maxBuffer, c, Attach);
    SubscribedLosesNothing(maxBuffer, mid, after);
    var c' := Run(maxBuffer, mid, after);
    DropPrefix(c.output, c'.output, Carried(c'.pending), c'.buffer, Carried(c.pending), c.buffer, Received(after));
  }

  lemma DropPrefix<M>(prefix: seq<M>, s: seq<M>, a: seq<M>, b: seq<M>, x: seq<M>, y: seq<M>, z: seq<M>)
    requires prefix <= s && s + a + b == prefix + x + y + z
    ensures s[|prefix|..] + a + b == x + y + z
  {
    var rest, whole := s[|prefix|..], s + a + b;
    assert s == prefix + rest;
    assert whole == prefix + (rest + a + b);
    assert whole == prefix + (x + y + z);
    assert whole[|prefix|..] == rest + a + b;
    assert whole[|prefix|..] == x + y + z;
  }
}
