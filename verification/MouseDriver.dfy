/** The mouse driver as a whole: clock interrupt, ring and main-loop task, in every interleaving. */
module MouseDriver {
  import opened Bits
  import opened Ring
  import opened Receiver
  import opened Wire
  import opened Handshake

  const BUFFER_SIZE := 2

  /** The main loop's side of the driver. The receiver, its ring and the filter are disjoint objects. */
  class Driver {
    const receiver: MouseReceiver
    const filter: MouseFilter

    ghost predicate Valid()
      reads this, receiver, receiver.ring, filter, filter.bytes
    {
      receiver.Valid() && filter.Valid() && filter.bytes != receiver.ring.data
    }

    constructor ()
      ensures Valid() && fresh(receiver) && fresh(receiver.ring) && fresh(filter)
      ensures receiver.State() == Ready && receiver.ring.Contents() == [] && receiver.ring.data.Length == 2
      ensures filter.View() == Session(2, 0, [], [], []) && filter.config == DEFAULTS
    {
      receiver := new MouseReceiver(BUFFER_SIZE);
      filter := new MouseFilter();
    }

    /** Filters the oldest queued byte; a byte the filter sends makes the receiver start over. */
    method FilterOne()
      requires Valid() && receiver.ring.Contents() != []
      modifies receiver`bitN, receiver`buffer, receiver`error, receiver`sent, receiver.ring, filter, filter.bytes
      ensures Valid() && filter.config == old(filter.config)
      ensures receiver.ring.Contents() == old(receiver.ring.Contents())[1..]
      ensures filter.View() == Advance(filter.config, old(filter.View()), old(receiver.ring.Contents())[0])
      ensures receiver.State() == if filter.sent == old(filter.sent) then old(receiver.State()) else Ready
    {
      hide Edge, Advance;
      ghost var before := filter.View();
      var scancode := receiver.ring.GetElement();
      assert old(receiver.ring.Contents())[1..] == receiver.ring.Contents();
      var sentBefore := |filter.sent|;
      filter.EventFilter(scancode);
      SendsAtMostOne(filter.config, before, scancode);
      if |filter.sent| > sentBefore {
        var _ := receiver.SendByte(filter.sent[sentBefore]);
      }
    }

    /**
     * One pass of the event loop with no interrupt in between: the filter takes all queued bytes in order. `idle` tells
     * that the stick has to be centred again.
     */
    method EventTask() returns (idle: bool)
      requires Valid()
      modifies receiver, receiver.ring, filter, filter.bytes
      ensures Valid() && receiver.ring.Contents() == [] && filter.config == old(filter.config)
      ensures filter.View() == AdvanceAll(filter.config, old(filter.View()), old(receiver.ring.Contents()))
      ensures receiver.State() == if filter.sent == old(filter.sent) then old(receiver.State()) else Ready
      ensures idle == old(receiver.action) && !receiver.action
    {
      hide Advance, Edge, MouseReceiver.State, MouseReceiver.InRange;
      var more := receiver.ring.HasElement();
      while more
        invariant Valid() && filter.config == old(filter.config)
        invariant more <==> receiver.ring.Contents() != []
        invariant AdvanceAll(filter.config, filter.View(), receiver.ring.Contents())
               == AdvanceAll(filter.config, old(filter.View()), old(receiver.ring.Contents()))
        invariant old(filter.sent) <= filter.sent
        invariant receiver.State() == if filter.sent == old(filter.sent) then old(receiver.State()) else Ready
        invariant receiver.action == old(receiver.action)
        decreases |receiver.ring.Contents()|
      {
        SendsAtMostOne(filter.config, filter.View(), receiver.ring.Contents()[0]);
        FilterOne();
        more := receiver.ring.HasElement();
      }
      idle := receiver.action;
      if receiver.action {
        receiver.action := false;
      }
    }
  }

  lemma SendsAtMostOne(config: Config, s: Session, b: byte)
    requires s.Valid()
    ensures s.sent <= Advance(config, s, b).sent && |Advance(config, s, b).sent| <= |s.sent| + 1
  {
  }

  // Interleavings

  /**
   * Interrupt state, ring, the byte that the main loop has taken out of it but not filtered yet, and the filter, with
   * the bytes accepted, refused and filtered since the start.
   */
  datatype Link = Link(rx: Rx, queue: seq<byte>, held: seq<byte>, session: Session,
                       accepted: seq<byte>, refused: nat, consumed: seq<byte>) {
    predicate Valid() { rx.Valid() && session.Valid() }
  }

  /**
   * A falling clock edge runs the interrupt. The main loop takes a byte, if there is one, and then filters it and sends
   * what the filter says; edges may come between the two, but not into the sending, which disables them.
   */
  datatype Event = Falling(level: bool) | Take | Handle

  function React(config: Config, capacity: nat, l: Link, event: Event): (r: Link)
    requires l.Valid()
    ensures r.Valid()
  {
    match event
    case Falling(level) =>
      var (rx, effect) := Edge(l.rx, level);
      (match effect
       case Accept(b) =>
         if |l.queue| < capacity then l.(rx := rx, queue := Offer(l.queue, capacity, b), accepted := l.accepted + [b])
         else l.(rx := rx, refused := l.refused + 1)
       case _ => l.(rx := rx))
    case Take =>
      if l.held != [] || l.queue == [] then l else l.(held := [l.queue[0]], queue := l.queue[1..])
    case Handle =>
      if l.held == [] then l else
      var session := Advance(config, l.session, l.held[0]);
      l.(held := l.held[1..], consumed := l.consumed + [l.held[0]], session := session,
         rx := if session.sent == l.session.sent then l.rx else Ready)
  }

  function ReactAll(config: Config, capacity: nat, l: Link, events: seq<Event>): (r: Link)
    requires l.Valid()
    ensures r.Valid()
    decreases |events|
  {
    if events == [] then l else ReactAll(config, capacity, React(config, capacity, l, events[0]), events[1..])
  }

  function Start(session: Session): Link {
    Link(Ready, [], [], session, [], 0, [])
  }

  ghost predicate Orderly(config: Config, capacity: nat, start: Session, l: Link)
    requires l.Valid() && start.Valid()
  {
    && l.accepted == l.consumed + l.held + l.queue
    && |l.queue| <= capacity && |l.held| <= 1
    && l.session == AdvanceAll(config, start, l.consumed)
  }

  /**
   * In every interleaving, handshake or not, the filter has seen exactly the accepted bytes but those still in the
   * ring or in the main loop's hands, in the order of their arrival.
   */
  lemma {:induction false} FilterSeesAcceptedBytes(config: Config, capacity: nat, start: Session, l: Link, events: seq<Event>)
    requires l.Valid() && start.Valid() && Orderly(config, capacity, start, l)
    ensures Orderly(config, capacity, start, ReactAll(config, capacity, l, events))
    decreases |events|
  {
    hide Advance, Edge;
    if events != [] {
      hide React, Orderly;
      var next := React(config, capacity, l, events[0]);
      StaysOrderly(config, capacity, start, l, events[0]);
      FilterSeesAcceptedBytes(config, capacity, start, next, events[1..]);
    }
  }

  lemma StaysOrderly(config: Config, capacity: nat, start: Session, l: Link, event: Event)
    requires l.Valid() && start.Valid() && Orderly(config, capacity, start, l)
    ensures Orderly(config, capacity, start, React(config, capacity, l, event))
  {
    hide Advance, Edge, AdvanceAll;
    match event {
      case Falling(level) =>
        var effect := Edge(l.rx, level).1;
        if effect.Accept? {
          assert l.consumed + l.held + l.queue + [effect.b] == l.consumed + l.held + (l.queue + [effect.b]);
        }
      case Take =>
        if l.held == [] && l.queue != [] {
          assert l.queue == [l.queue[0]] + l.queue[1..];
        }
      case Handle =>
        if l.held != [] {
          AdvanceConcat(config, start, l.consumed, l.held);
          AdvanceOne(config, l.session, l.held[0]);
          assert l.held == [l.held[0]] && l.held[1..] == [];
        }
    }
  }

  lemma AdvanceOne(config: Config, s: Session, b: byte)
    requires s.Valid()
    ensures AdvanceAll(config, s, [b]) == Advance(config, s, b)
  {
    hide Advance;
    assert [b][1..] == [];
  }

  /**
   * A round of the main loop that no edge interrupts takes and filters the oldest byte. If the filter answers it, even
   * in the middle of a frame, the next whole frame is received, whatever came before; else the receiver goes on.
   */
  lemma OneRound(config: Config, capacity: nat, l: Link, lead: nat, b: byte)
    requires l.Valid() && l.held == [] && l.queue != []
    ensures var after := React(config, capacity, React(config, capacity, l, Take), Handle);
            && (after.queue, after.held, after.consumed) == (l.queue[1..], [], l.consumed + [l.queue[0]])
            && (after.accepted, after.refused) == (l.accepted, l.refused)
            && after.session == Advance(config, l.session, l.queue[0])
            && if after.session.sent == l.session.sent then after.rx == l.rx
               else Run(Trace(after.rx, [], []), Repeat(true, lead) + Frame(b)) == Trace(after.rx, [b], [])
  {
    hide Advance, Edge, Frame, Run;
    CleanFrame(lead, b);
    assert [l.queue[0]][1..] == [];
  }

  lemma CleanFrame(lead: nat, b: byte)
    ensures var t := Trace(Ready, [], []); Run(t, Repeat(true, lead) + Frame(b)) == t.(accepted := [b])
  {
    hide OddOnes, Digits, Value, Corrupt;
    var t := Trace(Ready, [], []);
    RunFrame(t, b, lead, Clean);
    CorruptParts(b, Clean);
    assert Frame(b) == [false] + Unpack(b) + [!OddOnes(Unpack(b)), true];
    assert [] + [b] == [b];
  }

  function Levels(events: seq<Event>): seq<bool> {
    if events == [] then [] else (match events[0] case Falling(level) => [level] case _ => []) + Levels(events[1..])
  }

  /** While streaming the main loop never disturbs the receiver, so reception only depends on the line. */
  lemma {:induction false} StreamingIsUndisturbed(config: Config, capacity: nat, l: Link, t: Trace, events: seq<Event>)
    requires l.Valid() && l.session.Streaming()
    requires l.rx == t.rx && l.refused == 0 && l.accepted == t.accepted
    ensures var after, heard := ReactAll(config, capacity, l, events), Run(t, Levels(events));
            && after.session.Streaming() && after.rx == heard.rx
            && (after.refused == 0 ==> after.accepted == heard.accepted)
    decreases |events|
  {
    hide Advance, Edge;
    if events != [] {
      var next := React(config, capacity, l, events[0]);
      match events[0] {
        case Falling(level) =>
          assert Levels(events) == [level] + Levels(events[1..]);
          RunConcat(t, [level], Levels(events[1..]));
          RunOne(t, level);
          if next.refused == 0 {
            StreamingIsUndisturbed(config, capacity, next, Clock(t, level), events[1..]);
          } else {
            RefusedStays(config, capacity, next, Clock(t, level), events[1..]);
          }
        case _ =>
          if l.held != [] {
            StaysStreaming(config, l.session, l.held[0]);
          }
          assert Levels(events) == [] + Levels(events[1..]) == Levels(events[1..]);
          StreamingIsUndisturbed(config, capacity, next, t, events[1..]);
      }
    }
  }

  lemma {:induction false} RefusedStays(config: Config, capacity: nat, l: Link, t: Trace, events: seq<Event>)
    requires l.Valid() && l.session.Streaming() && l.rx == t.rx && l.refused > 0
    ensures var after := ReactAll(config, capacity, l, events);
            after.refused > 0 && after.session.Streaming() && after.rx == Run(t, Levels(events)).rx
    decreases |events|
  {
    hide Advance, Edge;
    if events != [] {
      var next := React(config, capacity, l, events[0]);
      match events[0] {
        case Falling(level) =>
          assert Levels(events) == [level] + Levels(events[1..]);
          RunConcat(t, [level], Levels(events[1..]));
          RunOne(t, level);
          RefusedStays(config, capacity, next, Clock(t, level), events[1..]);
        case _ =>
          if l.held != [] {
            StaysStreaming(config, l.session, l.held[0]);
          }
          assert Levels(events) == [] + Levels(events[1..]) == Levels(events[1..]);
          RefusedStays(config, capacity, next, t, events[1..]);
      }
    }
  }

  // Keeping up

  const FRAME_EDGES := 11

  /** The main loop takes and handles in turn, and not more than a frame's edges pass from one time it takes to the next. */
  predicate Timely(edges: nat, holding: bool, events: seq<Event>)
    decreases |events|
  {
    events == [] ||
    (InTime(edges, holding, events[0]) && Timely(Later(edges, events[0]), Holds(holding, events[0]), events[1..]))
  }

  /** The main loop comes round once more after the last edge. */
  predicate Drained(events: seq<Event>) {
    |events| >= 2 && events[|events| - 2..] == [Take, Handle]
  }

  /** The edges that the frame being received has taken at least. */
  function Into(line: Line): nat {
    match line
    case Idle => 0
    case Data(bits) => 1 + |bits|
    case Stop(_) => 10
  }

  /** A byte in the ring came less than `edges` edges ago, so the frame after it cannot be complete yet. */
  ghost predicate KeepsUp(l: Link, edges: nat, holding: bool) {
    l.refused == 0 && |l.queue| <= 1 && (l.queue != [] ==> Into(l.rx.line) < edges) && |l.held| <= 1 && (l.held == [] || holding)
  }

  function Later(edges: nat, event: Event): nat {
    match event
    case Falling(_) => edges + 1
    case Take => 0
    case Handle => edges
  }

  function Holds(holding: bool, event: Event): bool {
    match event
    case Falling(_) => holding
    case Take => true
    case Handle => false
  }

  predicate InTime(edges: nat, holding: bool, event: Event) {
    match event
    case Falling(_) => edges < FRAME_EDGES
    case Take => !holding
    case Handle => holding
  }

  lemma StepKeepsUp(config: Config, capacity: nat, l: Link, edges: nat, holding: bool, event: Event)
    requires l.Valid() && capacity > 0 && KeepsUp(l, edges, holding) && InTime(edges, holding, event)
    ensures KeepsUp(React(config, capacity, l, event), Later(edges, event), Holds(holding, event))
  {
    hide Advance, OddOnes;
  }

  /** A main loop that comes round once per frame never lets the ring overflow, and its last round empties it. */
  lemma {:induction false} NeverRefuses(config: Config, capacity: nat, l: Link, edges: nat, holding: bool, events: seq<Event>)
    requires l.Valid() && capacity > 0 && KeepsUp(l, edges, holding) && Timely(edges, holding, events)
    ensures var after := ReactAll(config, capacity, l, events);
            after.refused == 0 && (Drained(events) ==> after.queue == [] && after.held == [])
    decreases |events|
  {
    hide React, KeepsUp, InTime;
    if events == [] {
      KeptUp(l, edges, holding);
    } else if |events| == 2 && Drained(events) {
      assert events == [Take, Handle];
      LastRound(config, capacity, l, edges, holding);
    } else {
      var event := events[0];
      StepKeepsUp(config, capacity, l, edges, holding, event);
      assert Drained(events) ==> Drained(events[1..]);
      NeverRefuses(config, capacity, React(config, capacity, l, event), Later(edges, event), Holds(holding, event), events[1..]);
    }
  }

  lemma KeptUp(l: Link, edges: nat, holding: bool)
    requires KeepsUp(l, edges, holding)
    ensures l.refused == 0
  {
  }

  lemma LastRound(config: Config, capacity: nat, l: Link, edges: nat, holding: bool)
    requires l.Valid() && KeepsUp(l, edges, holding) && Timely(edges, holding, [Take, Handle])
    ensures var after := ReactAll(config, capacity, l, [Take, Handle]);
            after.refused == 0 && after.queue == [] && after.held == []
  {
    hide Advance, Edge;
    var next := React(config, capacity, l, Take);
    assert [Take, Handle][1..] == [Handle] && [Handle][1..] == [];
    assert ReactAll(config, capacity, next, [Handle]) == React(config, capacity, next, Handle);
  }

  /** The main loop finds the ring empty, and leaves its drain, before as many edges have passed as fill the ring. */
  predicate EmptiedInTime(config: Config, capacity: nat, l: Link, edges: nat, events: seq<Event>)
    requires l.Valid()
    decreases |events|
  {
    events == [] ||
    ((events[0].Falling? ==> edges < FRAME_EDGES * capacity) &&
     EmptiedInTime(config, capacity, React(config, capacity, l, events[0]), SinceEmpty(l, edges, events[0]), events[1..]))
  }

  function SinceEmpty(l: Link, edges: nat, event: Event): nat {
    match event
    case Falling(_) => edges + 1
    case Take => if l.queue == [] && l.held == [] then 0 else edges
    case Handle => edges
  }

  /** Every queued byte has taken a frame's edges since the ring was found empty, but for what had come of the first. */
  predicate Paced(l: Link, edges: nat) {
    l.refused == 0 && FRAME_EDGES * |l.queue| + Into(l.rx.line) <= edges + FRAME_EDGES - 1
  }

  lemma StepPaced(config: Config, capacity: nat, l: Link, edges: nat, event: Event)
    requires l.Valid() && Paced(l, edges) && (event.Falling? ==> edges < FRAME_EDGES * capacity)
    ensures Paced(React(config, capacity, l, event), SinceEmpty(l, edges, event))
  {
    hide Advance, OddOnes;
  }

  /** So the whole ring is of use: it never overflows if it is emptied once in the time it takes to fill. */
  lemma {:induction false} NeverRefusesIfEmptied(config: Config, capacity: nat, l: Link, edges: nat, events: seq<Event>)
    requires l.Valid() && Paced(l, edges) && EmptiedInTime(config, capacity, l, edges, events)
    ensures ReactAll(config, capacity, l, events).refused == 0
    decreases |events|
  {
    if events != [] {
      StepPaced(config, capacity, l, edges, events[0]);
      hide React;
      NeverRefusesIfEmptied(config, capacity, React(config, capacity, l, events[0]), SinceEmpty(l, edges, events[0]), events[1..]);
    }
  }

  // Noise

  /** One event keeps the account of how the history of levels explains the accepted bytes. */
  lemma AccountLink(config: Config, capacity: nat, l: Link, history: seq<bool>, from: nat, rejected: nat, delayed: nat, event: Event)
    returns (from': nat, rejected': nat, delayed': nat)
    requires l.Valid() && l.rx.pin == MOUSE_PIN && from <= |history|
    requires Explains(history[..from], l.accepted) && Partial(l.rx.line, history[from..], rejected, delayed)
    ensures var next, longer := React(config, capacity, l, event), history + Levels([event]);
            && from' <= |longer| && next.rx.pin == MOUSE_PIN
            && Explains(longer[..from'], next.accepted) && Partial(next.rx.line, longer[from'..], rejected', delayed')
  {
    hide Advance, Edge, Explains, Partial, OddOnes;
    var next, longer := React(config, capacity, l, event), history + Levels([event]);
    from', rejected', delayed' := from, rejected, delayed;
    match event {
      case Falling(level) =>
        assert Levels([event]) == [level] + Levels([event][1..]) == [level];
        var t := Trace(l.rx, l.accepted, []);
        from', rejected', delayed' := Account(t, history, from, rejected, delayed, level);
        if next.accepted != Clock(t, level).accepted {
          AcceptedIsIdle(l.rx, level);
          from' := |longer|;
          StartOver(history, longer, from, l.accepted);
        }
      case Take =>
        assert Levels([event]) == [] + Levels([event][1..]) == [] && longer == history;
      case Handle =>
        assert Levels([event]) == [] + Levels([event][1..]) == [] && longer == history;
        if next.rx != l.rx {
          from' := |history|;
          StartOver(history, longer, from, l.accepted);
        }
    }
    IdlePartial(longer[from'..], rejected', delayed');
  }

  lemma IdlePartial(tail: seq<bool>, rejected: nat, delayed: nat)
    ensures Partial(Idle, tail, rejected, delayed)
  {
  }

  lemma StartOver(history: seq<bool>, longer: seq<bool>, from: nat, queued: seq<byte>)
    requires from <= |history| <= |longer| && longer[..|history|] == history
    requires Explains(history[..from], queued)
    ensures Explains(longer[..|longer|], queued)
  {
    hide Explains;
    ExplainsAll(history[..from], longer[from..], queued);
    assert history[..from] == longer[..from] && longer[..from] + longer[from..] == longer == longer[..|longer|];
  }

  lemma AcceptedIsIdle(rx: Rx, level: bool)
    requires rx.Valid() && Edge(rx, level).1.Accept?
    ensures Edge(rx, level).0.line == Idle
  {
  }

  /**
   * In every interleaving and for every stream of line levels, noise, refused bytes and frames cut short by what the
   * main loop sends included, every byte that enters the ring was on the line as a frame of its own with right parity.
   */
  lemma AcceptedBytesJustified(config: Config, capacity: nat, session: Session, events: seq<Event>)
    requires session.Valid()
    ensures Explains(Levels(events), ReactAll(config, capacity, Start(session), events).accepted)
  {
    JustifyLink(config, capacity, Start(session), [], 0, 0, 0, events);
    assert [] + Levels(events) == Levels(events);
  }

  lemma {:induction false} JustifyLink(config: Config, capacity: nat, l: Link, history: seq<bool>, from: nat, rejected: nat, delayed: nat, events: seq<Event>)
    requires l.Valid() && l.rx.pin == MOUSE_PIN && from <= |history|
    requires Explains(history[..from], l.accepted) && Partial(l.rx.line, history[from..], rejected, delayed)
    ensures Explains(history + Levels(events), ReactAll(config, capacity, l, events).accepted)
    decreases |events|
  {
    hide Partial, React, Explains;
    if events == [] {
      ExplainsAll(history[..from], history[from..], l.accepted);
      assert history[..from] + history[from..] == history == history + Levels(events);
    } else {
      var from', rejected', delayed' := AccountLink(config, capacity, l, history, from, rejected, delayed, events[0]);
      JustifyLink(config, capacity, React(config, capacity, l, events[0]), history + Levels([events[0]]), from', rejected', delayed', events[1..]);
      assert Levels([events[0]]) + Levels(events[1..]) == Levels(events) by { assert [events[0]][1..] == []; }
      assert history + Levels([events[0]]) + Levels(events[1..]) == history + Levels(events);
    }
  }

  // From movement packets to movement packets

  /** The levels a device really puts on the line, resends included. */
  function Seen(t: Trace, bits: seq<bool>, again: seq<bool>): seq<bool>
    requires t.Valid()
    decreases |bits|
  {
    if bits == [] then [] else
    var next := Clock(t, bits[0]);
    [bits[0]] + if |next.driven| > |t.driven| then Answer(next.driven[|t.driven|], again) else Seen(next, bits[1..], again)
  }

  lemma {:induction false} SeenIsTransmitted(t: Trace, bits: seq<bool>, again: seq<bool>)
    requires t.Valid()
    ensures Run(t, Seen(t, bits, again)) == Transmit(t, bits, again)
    decreases |bits|
  {
    hide Edge;
    if bits != [] {
      var next := Clock(t, bits[0]);
      var rest := if |next.driven| > |t.driven| then Answer(next.driven[|t.driven|], again) else Seen(next, bits[1..], again);
      assert ([bits[0]] + rest)[1..] == rest;
      if |next.driven| <= |t.driven| {
        SeenIsTransmitted(next, bits[1..], again);
      }
    }
  }

  function SeenAll(t: Trace, sendings: seq<Sending>): seq<bool>
    requires t.Valid() && forall s :: s in sendings ==> s.fault.Valid()
    decreases |sendings|
  {
    if sendings == [] then [] else
    var s := sendings[0];
    Seen(t, Repeat(true, s.lead) + Corrupt(s.b, s.fault), Repeat(true, s.gap) + Corrupt(s.b, Clean))
    + SeenAll(Deliver(t, s.b, s.lead, s.fault, s.gap, Clean, 0), sendings[1..])
  }

  lemma {:induction false} SeenAllIsSent(t: Trace, sendings: seq<Sending>)
    requires t.Valid() && forall s :: s in sendings ==> s.fault.Valid()
    ensures Run(t, SeenAll(t, sendings)) == SendAll(t, sendings)
    decreases |sendings|
  {
    hide Clock, Edge, Corrupt;
    if sendings != [] {
      var s := sendings[0];
      var bits, again := Repeat(true, s.lead) + Corrupt(s.b, s.fault), Repeat(true, s.gap) + Corrupt(s.b, Clean);
      SeenIsTransmitted(t, bits, again);
      var next := Deliver(t, s.b, s.lead, s.fault, s.gap, Clean, 0);
      assert next == Transmit(t, bits, again);
      SeenAllIsSent(next, sendings[1..]);
      RunConcat(t, Seen(t, bits, again), SeenAll(next, sendings[1..]));
    }
  }

  /**
   * End to end. The mouse sends whole movement packets as frames, each frame corrupted at most once; interrupts strike
   * anywhere, and the main loop comes round at least once per frame and once more at the end. Then exactly those
   * packets are dispatched, unchanged and in order.
   */
  lemma PacketsArrive(config: Config, session: Session, sendings: seq<Sending>, items: seq<Item>, events: seq<Event>)
    requires session.Valid() && session.Streaming() && session.pending == []
    requires forall s :: s in sendings ==> s.fault.Valid()
    requires forall item :: item in items ==> Proper(item)
    requires Payload(sendings) == Flatten(items)
    requires Levels(events) == SeenAll(Trace(Ready, [], []), sendings)
    requires Timely(0, false, events) && Drained(events)
    ensures var after := ReactAll(config, BUFFER_SIZE, Start(session), events).session;
            after.packets == session.packets + Packets(items) && after.pending == [] && after.state == session.state
  {
    hide Advance, Edge, Clock, React, ReactAll, SendAll, SeenAll, Deliver, HasMark, Parse, Table, Corrupt;
    NeverRefuses(config, BUFFER_SIZE, Start(session), 0, false, events);
    UnrefusedPacketsArrive(config, session, sendings, items, events);
  }

  /** The same for any pace of the main loop with which no byte is refused or left over. */
  lemma UnrefusedPacketsArrive(config: Config, session: Session, sendings: seq<Sending>, items: seq<Item>, events: seq<Event>)
    requires session.Valid() && session.Streaming() && session.pending == []
    requires forall s :: s in sendings ==> s.fault.Valid()
    requires forall item :: item in items ==> Proper(item)
    requires Payload(sendings) == Flatten(items)
    requires Levels(events) == SeenAll(Trace(Ready, [], []), sendings)
    requires var after := ReactAll(config, BUFFER_SIZE, Start(session), events);
             after.refused == 0 && after.queue == [] && after.held == []
    ensures var after := ReactAll(config, BUFFER_SIZE, Start(session), events).session;
            after.packets == session.packets + Packets(items) && after.pending == [] && after.state == session.state
  {
    hide Advance, Edge, Clock, React, ReactAll, SendAll, SeenAll, Deliver, HasMark, Parse, Table, Corrupt;
    var t := Trace(Ready, [], []);
    var after := ReactAll(config, BUFFER_SIZE, Start(session), events);
    StreamingIsUndisturbed(config, BUFFER_SIZE, Start(session), t, events);
    SeenAllIsSent(t, sendings);
    AllDelivered(t, sendings);
    assert after.accepted == [] + Payload(sendings) == Flatten(items);
    FilterSeesAcceptedBytes(config, BUFFER_SIZE, session, Start(session), events);
    assert after.consumed + [] + [] == after.consumed;
    StreamIsParse(config, session, Flatten(items));
    ParseUnique(items, []);
    assert [] + Flatten(items) == Flatten(items) + [] == Flatten(items);
  }
}
