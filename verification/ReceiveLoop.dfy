/**
 * The way of a push message from the connection to the store: a source channel, the buffered
 * forwarder, its output channel and the receive loop. Channels keep the latest messages only and
 * tell a receiver that fell behind how many it missed. A message is known by its publication
 * number.
 */
module ReceiveLoop {
  import opened Options
  import opened BufferedConn

  /** How many messages the two channels keep for a slow receiver; the channel type may round a
      requested capacity up. */
  datatype Sizes = Sizes(source: nat, maxBuffer: nat, output: nat)

  ghost predicate Sound(sizes: Sizes) {
    sizes.maxBuffer >= 1 && sizes.output >= Capacity(sizes.maxBuffer)
  }

  /** The loop has no receiver; has just created one; holds the lock and empties the buffer; has let go
      of the lock; or is in its loop. */
  datatype Phase = Detached | Attached | Emptying | Locked | Receiving

  /** The loop's position in the output and what it did: messages processed, skipped because it
      lagged, sent while it had no receiver; drops it reported on subscribing, and all it told. */
  datatype Loop = Loop(
    phase: Phase, next: nat, processed: seq<nat>, skipped: nat, missed: nat, reported: nat, told: nat)

  datatype Net = Net(published: nat, taken: nat, conn: Conn<nat>, loop: Loop)

  datatype Action =
    | Publish
    | Take | SourceLag | Forward
    | OtherAttach | OtherLock
    | LoopAttach | LoopLock | LoopReport
    | DrainOne | Release
    | Process | LoopLag | Closed
    | Kick

  const BEGIN := Net(0, 0, Start(), Loop(Detached, 0, [], 0, 0, 0, 0))

  // --- the loop's own steps ---

  function SaturatingSub(a: nat, b: nat): nat { if a < b then 0 else a - b }

  function Attaching(l: Loop, sent: nat): Loop
    requires l.next <= sent
  {
    l.(phase := Attached, missed := l.missed + sent - l.next, next := sent)
  }

  function Reporting(l: Loop, dropped: nat): Loop {
    l.(phase := Receiving, reported := dropped, told := l.told + SaturatingSub(dropped, l.reported))
  }

  function Lagging(l: Loop, missed: nat): Loop {
    l.(next := l.next + missed, skipped := l.skipped + missed, told := l.told + missed)
  }

  function Processing(l: Loop, msg: nat): Loop { l.(next := l.next + 1, processed := l.processed + [msg]) }

  /** What a receive on a channel yields to a receiver at a position. */
  datatype Received = Message(msg: nat) | Missed(count: nat) | Nothing

  function Recv(sent: seq<nat>, capacity: nat, next: nat): Received
    requires next <= |sent|
  {
    if |sent| - next > capacity then Missed(|sent| - capacity - next)
    else if next < |sent| then Message(sent[next])
    else Nothing
  }

  class Receiver {
    var phase: Phase
    var next: nat
    var processed: seq<nat>
    var skipped: nat
    ghost var missed: nat
    var reported: nat
    var told: nat

    ghost function Value(): Loop
      reads this
    {
      Loop(phase, next, processed, skipped, missed, reported, told)
    }

    constructor ()
      ensures Value() == BEGIN.loop
    {
      phase, next, processed, skipped, missed, reported, told := Detached, 0, [], 0, 0, 0, 0;
    }

    method Attach(conn: Forwarder<nat>)
      requires next <= |conn.output|
      modifies this, conn
      ensures Value() == Attaching(old(Value()), |old(conn.output)|)
      ensures conn.Value() == Step(conn.maxBuffer, old(conn.Value()), BufferedConn.Attach)
    {
      var position := conn.OnAttach();
      missed := missed + position - next;
      phase, next := Attached, position;
    }

    /** The drops not reported yet, if any; the forwarder's counter only grows. */
    method Report(conn: Forwarder<nat>)
      modifies this
      ensures Value() == Reporting(old(Value()), conn.dropped)
    {
      var dropped := conn.dropped;
      var newDrops := if dropped < reported then 0 else dropped - reported;
      reported := dropped;
      if newDrops > 0 {
        told := told + newDrops;
      }
      phase := Receiving;
    }

    /** One turn of the loop on the channel. */
    method Turn(conn: Forwarder<nat>, capacity: nat, closed: bool)
      requires next <= |conn.output|
      modifies this
      ensures Value() == Turned(old(Value()), conn.output, capacity, closed)
      // The oldest message not lost yet is the next one processed, and a lag skips to it.
      ensures old(next) < |conn.output| && |conn.output| <= old(next) + capacity ==>
                processed == old(processed) + [conn.output[old(next)]] && next == old(next) + 1
      ensures |conn.output| > old(next) + capacity ==>
                next == |conn.output| - capacity && processed == old(processed)
                && skipped - old(skipped) == next - old(next) == told - old(told)
      ensures old(next) == |conn.output| ==>
                next == old(next) && processed == old(processed)
                && phase == if closed then Detached else old(phase)
    {
      match Recv(conn.output, capacity, next) {
        case Message(msg) =>
          next, processed := next + 1, processed + [msg];
        case Missed(count) =>
          next, skipped, told := next + count, skipped + count, told + count;
        case Nothing =>
          if closed {
            phase := Detached;
          }
      }
    }
  }

  // --- the whole path ---

  ghost predicate Can(sizes: Sizes, s: Net, a: Action) {
    && s.taken <= s.published && s.loop.next <= |s.conn.output|
    && match a
       case Publish | OtherAttach | Kick => true
       case OtherLock => !s.conn.draining
       case DrainOne => s.conn.draining && s.conn.buffer != []
       case Release => s.conn.draining && s.conn.buffer == []
       case Take => s.conn.pending.None? && !s.conn.draining && 0 < s.published - s.taken <= sizes.source
       case SourceLag => s.conn.pending.None? && s.published - s.taken > sizes.source
       case Forward => s.conn.pending.Some?
       case LoopAttach => s.loop.phase.Detached?
       case LoopLock => s.loop.phase.Attached? && !s.conn.draining
       case LoopReport => s.loop.phase.Locked?
       case Process => s.loop.phase.Receiving? && Recv(s.conn.output, sizes.output, s.loop.next).Message?
       case LoopLag => s.loop.phase.Receiving? && Recv(s.conn.output, sizes.output, s.loop.next).Missed?
       case Closed => s.loop.phase.Receiving? && Recv(s.conn.output, sizes.output, s.loop.next).Nothing?
  }

  ghost function Do(sizes: Sizes, s: Net, a: Action): Net
    requires Can(sizes, s, a)
  {
    match a
    case Publish => s.(published := s.published + 1)
    case Take => s.(taken := s.taken + 1, conn := Step(sizes.maxBuffer, s.conn, BufferedConn.Receive(s.taken)))
    case SourceLag =>
      var missed := s.published - sizes.source - s.taken;
      s.(taken := s.taken + missed, conn := Step(sizes.maxBuffer, s.conn, Lag(missed)))
    case Forward => s.(conn := Step(sizes.maxBuffer, s.conn, Send))
    case OtherAttach => s.(conn := Step(sizes.maxBuffer, s.conn, Attach))
    case OtherLock => s.(conn := Step(sizes.maxBuffer, s.conn, Lock))
    case LoopAttach =>
      s.(loop := Attaching(s.loop, |s.conn.output|), conn := Step(sizes.maxBuffer, s.conn, Attach))
    case LoopLock =>
      s.(conn := Step(sizes.maxBuffer, s.conn, Lock),
         loop := s.loop.(phase := if s.conn.subscribed then Locked else Emptying))
    case DrainOne => s.(conn := Step(sizes.maxBuffer, s.conn, Drain))
    case Release =>
      s.(conn := Step(sizes.maxBuffer, s.conn, Unlock),
         loop := if s.loop.phase.Emptying? then s.loop.(phase := Locked) else s.loop)
    case LoopReport => s.(loop := Reporting(s.loop, s.conn.dropped))
    case Process => s.(loop := Processing(s.loop, s.conn.output[s.loop.next]))
    case LoopLag => s.(loop := Lagging(s.loop, |s.conn.output| - sizes.output - s.loop.next))
    case Closed => s.(loop := s.loop.(phase := Detached))
    case Kick => s
  }

  /** What one turn on the channel makes of the loop. */
  function Turned(l: Loop, sent: seq<nat>, capacity: nat, closed: bool): Loop
    requires l.next <= |sent|
  {
    match Recv(sent, capacity, l.next)
    case Message(msg) => Processing(l, msg)
    case Missed(count) => Lagging(l, count)
    case Nothing => if closed then l.(phase := Detached) else l
  }

  /** A turn of the loop that was written is the step of the machine that can be taken then, the only
      one of the three; with nothing queued and the channel open it is none. */
  lemma TurnIsStep(sizes: Sizes, s: Net, closed: bool)
    requires s.loop.phase.Receiving? && s.taken <= s.published && s.loop.next <= |s.conn.output|
    ensures
      var waiting, turned := |s.conn.output| - s.loop.next, Turned(s.loop, s.conn.output, sizes.output, closed);
      && (Can(sizes, s, Process) <==> 0 < waiting <= sizes.output)
      && (Can(sizes, s, LoopLag) <==> waiting > sizes.output)
      && (Can(sizes, s, Closed) <==> waiting == 0)
      && (Can(sizes, s, Process) ==>
            turned == Do(sizes, s, Process).loop && turned.processed == s.loop.processed + [s.conn.output[s.loop.next]])
      && (Can(sizes, s, LoopLag) ==>
            turned == Do(sizes, s, LoopLag).loop && turned.next == |s.conn.output| - sizes.output)
      && (Can(sizes, s, Closed) ==> turned == if closed then Do(sizes, s, Closed).loop else s.loop)
  {
  }

  ghost predicate Happens(sizes: Sizes, actions: seq<Action>)
    decreases |actions|, 0
  {
    actions == [] || (Happens(sizes, Front(actions)) && Can(sizes, After(sizes, Front(actions)), Last(actions)))
  }

  ghost function After(sizes: Sizes, actions: seq<Action>): Net
    requires Happens(sizes, actions)
    decreases |actions|, 1
  {
    if actions == [] then BEGIN else Do(sizes, After(sizes, Front(actions)), Last(actions))
  }

  // --- conservation ---

  ghost function Range(from: nat, upto: nat): seq<nat>
    requires from <= upto
  {
    seq(upto - from, i requires 0 <= i => from + i)
  }

  /** Publication numbers below a bound, in order and without repeats. */
  ghost predicate InOrder(s: seq<nat>, bound: nat) {
    && (forall i, j :: 0 <= i < j < |s| ==> s[i] < s[j])
    && (forall i :: 0 <= i < |s| ==> s[i] < bound)
  }

  /** Sent to the loop's receiver and not received yet. */
  ghost function Awaiting(s: Net): seq<nat>
    requires s.loop.next <= |s.conn.output|
  {
    if s.loop.phase.Detached? then [] else s.conn.output[s.loop.next..]
  }

  /** Sent while the loop had no receiver. */
  ghost function MissedBy(s: Net): nat
    requires s.loop.next <= |s.conn.output|
  {
    s.loop.missed + if s.loop.phase.Detached? then |s.conn.output| - s.loop.next else 0
  }

  /** Everything in the order of publication: processed, queued for the loop, in flight, buffered,
      and still in the source channel. */
  ghost function Pipeline(s: Net): seq<nat>
    requires s.loop.next <= |s.conn.output| && s.taken <= s.published
  {
    s.loop.processed + Awaiting(s) + Carried(s.conn.pending) + s.conn.buffer + Range(s.taken, s.published)
  }

  ghost predicate Conserved(sizes: Sizes, s: Net) {
    && s.loop.next <= |s.conn.output| && s.taken <= s.published
    && Phases(sizes.maxBuffer, s.conn)
    && InOrder(Pipeline(s), s.published)
    && |Pipeline(s)| + s.conn.dropped + s.loop.skipped + MissedBy(s) == s.published
    && s.loop.reported <= s.conn.dropped
    && s.loop.told == s.loop.reported + s.loop.skipped
  }

  /** One step takes a stretch out of the pipeline, or appends a new message, or leaves it. */
  lemma TakeOut(was: seq<nat>, bound: nat, a: seq<nat>, x: seq<nat>, b: seq<nat>)
    requires was == a + x + b && InOrder(was, bound)
    ensures InOrder(a + b, bound)
  {
    var now := a + b;
    forall i | 0 <= i < |now|
      ensures now[i] < bound && forall j :: i < j < |now| ==> now[i] < now[j]
    {
      assert now[i] == was[if i < |a| then i else i + |x|];
      assert forall j :: i < j < |now| ==> now[j] == was[if j < |a| then j else j + |x|];
    }
  }

  lemma Append(was: seq<nat>, bound: nat)
    requires InOrder(was, bound)
    ensures InOrder(was + [bound], bound + 1)
  {
  }

  lemma PublishKeeps(sizes: Sizes, s: Net)
    requires Conserved(sizes, s) && Can(sizes, s, Publish)
    ensures Conserved(sizes, Do(sizes, s, Publish))
  {
    hide InOrder, Phases;
    var s' := Do(sizes, s, Publish);
    assert Range(s.taken, s'.published) == Range(s.taken, s.published) + [s.published];
    assert Pipeline(s') == Pipeline(s) + [s.published];
    Append(Pipeline(s), s.published);
  }

  lemma TakeKeeps(sizes: Sizes, s: Net)
    requires Sound(sizes) && Conserved(sizes, s) && Can(sizes, s, Take)
    ensures Conserved(sizes, Do(sizes, s, Take))
  {
    hide InOrder, Range, Carried;
    var s' := Do(sizes, s, Take);
    assert Phases(sizes.maxBuffer, s'.conn);
    if !s.conn.subscribed && |s.conn.buffer| >= sizes.maxBuffer {
      TakeOverflow(s, s');
    } else {
      TakePasses(s, s');
    }
  }

  lemma TakePasses(s: Net, s': Net)
    requires s.loop.next <= |s.conn.output| && s.taken < s.published && s.conn.pending.None?
    requires s'.loop == s.loop && s'.published == s.published && s'.taken == s.taken + 1
    requires s'.conn.output == s.conn.output
    requires if s.conn.subscribed
             then s.conn.buffer == [] == s'.conn.buffer && s'.conn.pending == Some(s.taken)
             else s'.conn.pending.None? && s'.conn.buffer == s.conn.buffer + [s.taken]
    ensures Pipeline(s') == Pipeline(s)
  {
  }

  lemma RangeHead(from: nat, upto: nat)
    requires from < upto
    ensures Range(from, upto) == [from] + Range(from + 1, upto)
  {
  }

  lemma SameAwaiting(s: Net, s': Net)
    requires s.loop.next <= |s.conn.output| && s'.loop == s.loop && s'.conn.output == s.conn.output
    ensures Awaiting(s') == Awaiting(s)
  {
  }

  lemma TakeOverflow(s: Net, s': Net)
    requires s.loop.next <= |s.conn.output| && s.taken < s.published && s.conn.pending.None?
    requires s'.loop == s.loop && s'.published == s.published && s'.taken == s.taken + 1
    requires s'.conn.output == s.conn.output
    requires s.conn.buffer != [] && s'.conn.pending.None? && s'.conn.buffer == s.conn.buffer[1..] + [s.taken]
    requires InOrder(Pipeline(s), s.published)
    ensures InOrder(Pipeline(s'), s'.published) && |Pipeline(s')| == |Pipeline(s)| - 1
  {
    hide InOrder, Range, Awaiting;
    var a, b := s.loop.processed + Awaiting(s), s'.conn.buffer + Range(s'.taken, s.published);
    assert Awaiting(s') == Awaiting(s) by { SameAwaiting(s, s'); }
    RangeHead(s.taken, s.published);
    assert s.conn.buffer == [s.conn.buffer[0]] + s.conn.buffer[1..];
    assert Pipeline(s) == a + [s.conn.buffer[0]] + b;
    TakeOut(Pipeline(s), s.published, a, [s.conn.buffer[0]], b);
    assert Pipeline(s') == a + b;
  }

  lemma SourceLagKeeps(sizes: Sizes, s: Net)
    requires Conserved(sizes, s) && Can(sizes, s, SourceLag)
    ensures Conserved(sizes, Do(sizes, s, SourceLag))
  {
    hide InOrder, Phases;
    var s' := Do(sizes, s, SourceLag);
    PhasesStep(sizes.maxBuffer, s.conn, Lag(s'.taken - s.taken));
    var a := s.loop.processed + Awaiting(s) + Carried(s.conn.pending) + s.conn.buffer;
    assert Range(s.taken, s.published) == Range(s.taken, s'.taken) + Range(s'.taken, s.published);
    assert Pipeline(s) == a + Range(s.taken, s'.taken) + Range(s'.taken, s.published);
    TakeOut(Pipeline(s), s.published, a, Range(s.taken, s'.taken), Range(s'.taken, s.published));
    assert Pipeline(s') == a + Range(s'.taken, s.published);
  }

  /** Sending to the output: the loop's receiver gets it, or nobody of the loop does. */
  lemma SendKeeps(sizes: Sizes, s: Net, s': Net, sent: seq<nat>, rest: seq<nat>)
    requires Conserved(sizes, s) && Phases(sizes.maxBuffer, s'.conn)
    requires s'.published == s.published && s'.taken == s.taken
    requires s'.conn.output == s.conn.output + sent && s'.conn.dropped == s.conn.dropped
    requires Carried(s.conn.pending) + s.conn.buffer == sent + rest
    requires rest == Carried(s'.conn.pending) + s'.conn.buffer
    requires s'.loop == s.loop
             || (s'.loop == s.loop.(phase := s'.loop.phase) && !s.loop.phase.Detached? && !s'.loop.phase.Detached?)
    ensures Conserved(sizes, s')
  {
    hide InOrder, Phases, Range, Carried;
    var p, w, tail := s.loop.processed, Awaiting(s), Range(s.taken, s.published);
    Regroup(p + w, Carried(s.conn.pending), s.conn.buffer, tail);
    Regroup(p + Awaiting(s'), Carried(s'.conn.pending), s'.conn.buffer, tail);
    if s.loop.phase.Detached? {
      assert Pipeline(s) == p + sent + (rest + tail);
      assert Pipeline(s') == p + (rest + tail);
      TakeOut(Pipeline(s), s.published, p, sent, rest + tail);
    } else {
      assert Awaiting(s') == w + sent;
      assert Pipeline(s') == Pipeline(s);
    }
  }

  lemma Regroup(a: seq<nat>, b: seq<nat>, c: seq<nat>, d: seq<nat>)
    ensures a + b + c + d == a + (b + c) + d
  {
  }

  lemma ForwarderKeeps(sizes: Sizes, s: Net, a: Action)
    requires Conserved(sizes, s) && Can(sizes, s, a)
    requires a in {Forward, OtherAttach, OtherLock, LoopLock, DrainOne, Release}
    ensures Conserved(sizes, Do(sizes, s, a))
  {
    hide Conserved, Phases;
    var s', c := Do(sizes, s, a), s.conn;
    PhasesOf(sizes, s);
    match a {
      case Forward =>
        PhasesStep(sizes.maxBuffer, c, Send);
        SendKeeps(sizes, s, s', Carried(c.pending), c.buffer);
      case DrainOne =>
        PhasesStep(sizes.maxBuffer, c, Drain);
        NothingPending(sizes.maxBuffer, c);
        SendKeeps(sizes, s, s', [c.buffer[0]], c.buffer[1..]);
      case _ =>
        PhasesStep(sizes.maxBuffer, c, if a == OtherAttach then Attach else if a == Release then Unlock else Lock);
        SendKeeps(sizes, s, s', [], Carried(c.pending) + c.buffer);
    }
  }

  lemma PhasesOf(sizes: Sizes, s: Net)
    requires Conserved(sizes, s)
    ensures Phases(sizes.maxBuffer, s.conn)
  {
  }

  lemma NothingPending(maxBuffer: nat, c: Conn<nat>)
    requires Phases(maxBuffer, c) && c.draining
    ensures c.pending.None? && Carried(c.pending) == []
  {
  }

  lemma LoopKeeps(sizes: Sizes, s: Net, a: Action)
    requires Conserved(sizes, s) && Can(sizes, s, a)
    requires a in {LoopAttach, LoopReport, Process, Closed, Kick}
    ensures Conserved(sizes, Do(sizes, s, a)) && Pipeline(Do(sizes, s, a)) == Pipeline(s)
  {
    hide InOrder, Phases, Range, Carried, Awaiting;
    PhasesStep(sizes.maxBuffer, s.conn, Attach);
    LoopMoves(sizes, s, a);
  }

  /** What the loop has processed and what waits for it, one after the other, stay the same. */
  lemma LoopMoves(sizes: Sizes, s: Net, a: Action)
    requires Can(sizes, s, a) && a in {LoopAttach, LoopReport, Process, Closed, Kick}
    ensures
      var s' := Do(sizes, s, a);
      && s'.loop.next <= |s'.conn.output| && s'.loop.processed + Awaiting(s') == s.loop.processed + Awaiting(s)
  {
    if a == Process {
      ProcessMoves(s.loop.processed, s.conn.output, s.loop.next);
    }
  }

  lemma ProcessMoves(processed: seq<nat>, output: seq<nat>, next: nat)
    requires next < |output|
    ensures processed + [output[next]] + output[next + 1..] == processed + output[next..]
  {
  }

  lemma LoopLagKeeps(sizes: Sizes, s: Net)
    requires Conserved(sizes, s) && Can(sizes, s, LoopLag)
    ensures Conserved(sizes, Do(sizes, s, LoopLag))
  {
    hide InOrder, Phases;
    var s' := Do(sizes, s, LoopLag);
    var skipped := s.conn.output[s.loop.next..s'.loop.next];
    var tail := Awaiting(s') + Carried(s.conn.pending) + s.conn.buffer + Range(s.taken, s.published);
    assert Awaiting(s) == skipped + Awaiting(s');
    assert Pipeline(s) == s.loop.processed + skipped + tail;
    TakeOut(Pipeline(s), s.published, s.loop.processed, skipped, tail);
    assert Pipeline(s') == s.loop.processed + tail;
  }

  lemma {:induction false} EveryMessageIsAccountedFor(sizes: Sizes, actions: seq<Action>)
    requires Sound(sizes) && Happens(sizes, actions)
    ensures Conserved(sizes, After(sizes, actions))
    decreases |actions|
  {
    if actions != [] {
      EveryMessageIsAccountedFor(sizes, Front(actions));
      var s, a := After(sizes, Front(actions)), Last(actions);
      match a {
        case Publish => PublishKeeps(sizes, s);
        case Take => TakeKeeps(sizes, s);
        case SourceLag => SourceLagKeeps(sizes, s);
        case LoopLag => LoopLagKeeps(sizes, s);
        case Forward | OtherAttach | OtherLock | LoopLock | DrainOne | Release => ForwarderKeeps(sizes, s, a);
        case _ => LoopKeeps(sizes, s, a);
      }
    }
  }

  // --- consequences ---

  lemma {:induction false} AllInOrder(s: seq<nat>, bound: nat)
    requires InOrder(s, bound)
    ensures |s| <= bound && (|s| == bound ==> s == Range(0, bound))
    decreases bound
  {
    if s != [] {
      var last := |s| - 1;
      AllInOrder(s[..last], s[last]);
      if |s| == bound {
        assert s == s[..last] + [s[last]];
        assert Range(0, bound) == Range(0, bound - 1) + [bound - 1];
      }
    }
  }

  /** With nothing lost and nothing under way, the loop processed every message, in order. */
  lemma AllProcessed(sizes: Sizes, actions: seq<Action>)
    requires Sound(sizes) && Happens(sizes, actions)
    requires
      var s := After(sizes, actions);
      && s.loop.next == |s.conn.output| && s.conn.pending.None? && s.conn.buffer == [] && s.taken == s.published
      && s.conn.dropped == s.loop.skipped == s.loop.missed == 0
    ensures After(sizes, actions).loop.processed == Range(0, After(sizes, actions).published)
  {
    EveryMessageIsAccountedFor(sizes, actions);
    var s := After(sizes, actions);
    assert Pipeline(s) == s.loop.processed;
    AllInOrder(s.loop.processed, s.published);
  }

  /** Nothing is sent past the loop unless someone else subscribes or the channel closes under it. */
  lemma {:induction false} NothingMissed(sizes: Sizes, actions: seq<Action>)
    requires Happens(sizes, actions) && OtherLock !in actions && Closed !in actions
    ensures
      var s := After(sizes, actions);
      && s.loop.next <= |s.conn.output| && MissedBy(s) == 0
      && (s.loop.phase.Detached? || s.loop.phase.Attached? ==>
            !s.conn.subscribed && !s.conn.draining && s.conn.output == [] && s.conn.pending.None?)
    decreases |actions|
  {
    if actions != [] {
      NothingMissed(sizes, Front(actions));
    }
  }

  /** Emptying the buffer for the loop's receiver never makes it lag. */
  lemma DrainDoesNotLag(sizes: Sizes, actions: seq<Action>)
    requires Sound(sizes) && Happens(sizes, actions) && After(sizes, actions).loop.phase.Emptying?
    ensures var s := After(sizes, actions);
            s.loop.next <= |s.conn.output| && s.conn.draining && |Awaiting(s)| + |s.conn.buffer| <= sizes.output
  {
    hide InOrder, Pipeline, MissedBy;
    EveryMessageIsAccountedFor(sizes, actions);
    EmptyingHoldsTheLock(sizes, actions);
  }

  lemma {:induction false} EmptyingHoldsTheLock(sizes: Sizes, actions: seq<Action>)
    requires Happens(sizes, actions)
    ensures var s := After(sizes, actions); s.loop.phase.Emptying? ==> s.conn.draining
    decreases |actions|
  {
    if actions != [] {
      EmptyingHoldsTheLock(sizes, Front(actions));
    }
  }

  lemma Unfold(sizes: Sizes, actions: seq<Action>, a: Action)
    requires Happens(sizes, actions + [a])
    ensures Happens(sizes, actions) && Can(sizes, After(sizes, actions), a)
    ensures After(sizes, actions + [a]) == Do(sizes, After(sizes, actions), a)
  {
  }

  /** If a watcher subscribed before the loop, the loop misses exactly what was sent until it
      attaches, and nobody is told. */
  lemma {:induction false} AttachMissesWhatWasSent(sizes: Sizes, before: seq<Action>)
    requires Sound(sizes) && Happens(sizes, before + [LoopAttach]) && LoopAttach !in before
    ensures Happens(sizes, before)
    ensures
      var s := After(sizes, before + [LoopAttach]);
      s.loop.missed == |After(sizes, before).conn.output| && s.loop.told == 0
  {
    Unfold(sizes, before, LoopAttach);
    DetachedYet(sizes, before);
  }

  lemma {:induction false} DetachedYet(sizes: Sizes, actions: seq<Action>)
    requires Happens(sizes, actions) && LoopAttach !in actions
    ensures After(sizes, actions).loop == BEGIN.loop
    decreases |actions|
  {
    if actions != [] {
      DetachedYet(sizes, Front(actions));
    }
  }

  /** What the loop reported on subscribing adds up to the forwarder's counter at that moment. */
  lemma {:induction false} ReportsTelescope(sizes: Sizes, before: seq<Action>, after: seq<Action>)
    requires Sound(sizes) && Happens(sizes, before + [LoopReport] + after) && LoopReport !in after
    ensures Happens(sizes, before)
    ensures
      var s, at := After(sizes, before + [LoopReport] + after), After(sizes, before);
      && s.loop.reported == at.conn.dropped
      && s.loop.told == at.conn.dropped + s.loop.skipped
    decreases |after|
  {
    hide Happens, After, Conserved;
    var actions := before + [LoopReport] + after;
    ToldIsReportedPlusSkipped(sizes, actions);
    if after == [] {
      assert actions == before + [LoopReport];
      Unfold(sizes, before, LoopReport);
    } else {
      var a, prior := Last(after), before + [LoopReport] + Front(after);
      assert actions == prior + [a];
      Unfold(sizes, prior, a);
      ReportsTelescope(sizes, before, Front(after));
      assert a in after;
    }
  }

  lemma ToldIsReportedPlusSkipped(sizes: Sizes, actions: seq<Action>)
    requires Sound(sizes) && Happens(sizes, actions)
    ensures var s := After(sizes, actions); s.loop.told == s.loop.reported + s.loop.skipped
  {
    EveryMessageIsAccountedFor(sizes, actions);
  }
}
