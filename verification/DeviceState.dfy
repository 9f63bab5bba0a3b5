/** The device side: standard requests handled statement by statement, with bus interrupts in between. */
module DeviceState {
  import opened Bits

  datatype State = Unattached | Powered | Default | Addressed | Configured | Suspended

  datatype Request = Request(requestType: byte, request: byte, value: nat, index: nat)

  /** What the application answers: whether it has the descriptor asked for, and whether it handles other requests. */
  datatype Application = Application(hasDescriptor: bool, handles: bool)

  const NUM_CONFIGURATIONS := 1

  function Low(word: nat): nat { word % 256 }

  /** Requests the library handles itself, by number and request type. */
  predicate Standard(r: Request) {
    match r.request
    case 0 => r.requestType == 0x80 || r.requestType == 0x82
    case 1 => r.requestType == 0x00 || r.requestType == 0x02
    case 3 => r.requestType == 0x00 || r.requestType == 0x02
    case 5 => r.requestType == 0x00
    case 6 => r.requestType == 0x80 || r.requestType == 0x81
    case 8 => r.requestType == 0x80
    case 9 => r.requestType == 0x00
    case _ => false
  }

  /** Which requests are answered rather than stalled. */
  predicate Accepts(r: Request, app: Application) {
    if !Standard(r) then app.handles
    else if r.request == 1 || r.request == 3 then
      if r.requestType == 0x00 then Low(r.value) == 1
      else Low(r.value) != 0 || And(Low(r.index), 0x07) != 0
    else if r.request == 6 then app.hasDescriptor
    else if r.request == 9 then Low(r.value) <= NUM_CONFIGURATIONS
    else true
  }

  /** Where the control loop is. */
  datatype Pc =
    | Idle
    | AddressClear | AddressStatus | AddressReady | AddressState | AddressHardware
    | ConfigCheck | ConfigClear | ConfigNumber | ConfigStatus | ConfigState
    | Other
    | Final
  {
    predicate InAddress() {
      AddressClear? || AddressStatus? || AddressReady? || AddressState? || AddressHardware?
    }

    predicate InConfiguration() {
      ConfigCheck? || ConfigClear? || ConfigNumber? || ConfigStatus? || ConfigState?
    }
  }

  datatype Flags = Flags(vbus: bool, suspend: bool, wakeup: bool, reset: bool)

  /**
   * An account of all SETUP packets: `accepted` and `stalled` by the control loop after it has read them, cleared
   * `unread` while it was busy with an earlier request, `lost` to a newer packet or a bus reset, or still pending in
   * `setup`. `undisturbed` tells that no packet and no reset has come since the loop began its request, when the
   * account stood at `since`.
   */
  datatype Book = Book(setup: bool, arrived: nat, accepted: nat, stalled: nat, lost: nat, unread: nat,
                       undisturbed: bool, since: (nat, nat)) {
    predicate Waiting() { setup && undisturbed && (accepted, stalled) == since }

    predicate Answered() { !setup && accepted == since.0 + 1 && stalled == since.1 }

    predicate Balanced() { arrived == accepted + stalled + lost + unread + (if setup then 1 else 0) }

    function Begin(): Book { this.(undisturbed := true, since := (accepted, stalled)) }

    /** Only the packet whose request is being handled is answered by clearing or stalling it. */
    function Clear(): Book {
      if !setup then this else if undisturbed then this.(setup := false, accepted := accepted + 1) else Swallow()
    }

    function Stall(): Book {
      if !setup then this else if undisturbed then this.(setup := false, stalled := stalled + 1) else Swallow()
    }

    function Swallow(): Book { this.(setup := false, unread := unread + 1) }

    function Answers(): (nat, nat) { (accepted, stalled) }

    function Drop(): Book { this.(setup := false, lost := lost + (if setup then 1 else 0), undisturbed := false) }

    function Arrive(): Book { Drop().(setup := true, arrived := arrived + 1) }
  }

  /** The library's variables, the interrupt flags, the control loop's position and request, and the latest SETUP packet. */
  datatype Device = Device(
    state: State, config: nat, address: nat, suspendEnabled: bool, wakeupEnabled: bool, pending: Flags,
    pc: Pc, request: Request, incoming: Request, book: Book)

  /** One statement of the control loop; `ready` tells whether the host has made the endpoint ready. */
  function Task(d: Device, app: Application, ready: bool): Device {
    match d.pc
    case Idle => Fetch(d)
    case Other => AtEnd(d, app)
    case Final => AtEnd(d, app)
    case _ => if d.pc.InAddress() then InSetAddress(d, ready) else InSetConfiguration(d, ready)
  }

  function Fetch(d: Device): Device {
    if d.state == Unattached || !d.book.setup then d else
    var r := d.incoming;
    d.(request := r, book := d.book.Begin(),
       pc := if Standard(r) && r.request == 5 then AddressClear
             else if Standard(r) && r.request == 9 then ConfigCheck
             else Other)
  }

  function InSetAddress(d: Device, ready: bool): Device {
    match d.pc
    case AddressClear => d.(pc := AddressStatus, book := d.book.Clear())
    case AddressStatus => if ready || d.state == Unattached then d.(pc := AddressReady) else d
    case AddressReady => if ready then d.(pc := AddressState) else if d.state == Unattached then d.(pc := Final) else d
    case AddressState => d.(pc := AddressHardware, state := if And(d.request.value, 0x7F) != 0 then Addressed else d.state)
    case AddressHardware => d.(pc := Final, address := And(d.request.value, 0x7F))
    case _ => d
  }

  function InSetConfiguration(d: Device, ready: bool): Device {
    match d.pc
    case ConfigCheck => d.(pc := if Low(d.request.value) > NUM_CONFIGURATIONS then Final else ConfigClear)
    case ConfigClear => d.(pc := ConfigNumber, book := d.book.Clear())
    case ConfigNumber => d.(pc := ConfigStatus, config := Low(d.request.value))
    case ConfigStatus => if ready || d.state == Unattached then d.(pc := ConfigState) else d
    case ConfigState => d.(pc := Final, state := if d.config != 0 then Configured else Addressed)
    case _ => d
  }

  /** All other requests, and the stall of a request that nobody has answered. */
  function AtEnd(d: Device, app: Application): Device {
    match d.pc
    case Other => d.(pc := Final, book := if Accepts(d.request, app) then d.book.Clear() else d.book)
    case Final => d.(pc := Idle, book := d.book.Stall())
    case _ => d
  }

  // The device part of the general interrupt: each pending and enabled source in turn.

  function VbusChanged(d: Device, vbus: bool): Device {
    if d.pending.vbus then d.(pending := d.pending.(vbus := false), state := if vbus then Powered else Unattached) else d
  }

  function Suspend(d: Device): Device {
    if d.pending.suspend && d.suspendEnabled
    then d.(pending := d.pending.(suspend := false), suspendEnabled := false, wakeupEnabled := true, state := Suspended)
    else d
  }

  function WakeUp(d: Device): Device {
    if d.pending.wakeup && d.wakeupEnabled
    then d.(pending := d.pending.(wakeup := false), wakeupEnabled := false, suspendEnabled := true,
            state := if d.config != 0 then Configured else Addressed)
    else d
  }

  function EndOfReset(d: Device): Device {
    if d.pending.reset
    then d.(pending := d.pending.(reset := false, suspend := false), state := Default, config := 0,
            suspendEnabled := false, wakeupEnabled := true, book := d.book.Drop())
    else d
  }

  function Interrupt(d: Device, vbus: bool): Device {
    EndOfReset(WakeUp(Suspend(VbusChanged(d, vbus))))
  }

  datatype Event = Run(app: Application, ready: bool) | Isr(vbus: bool) | Raise(flags: Flags) | Arrive(r: Request)

  function React(d: Device, event: Event): Device {
    match event
    case Run(app, ready) => Task(d, app, ready)
    case Isr(vbus) => Interrupt(d, vbus)
    case Raise(f) => d.(pending := Flags(d.pending.vbus || f.vbus, d.pending.suspend || f.suspend,
                                         d.pending.wakeup || f.wakeup, d.pending.reset || f.reset))
    case Arrive(r) =>
      d.(incoming := r, book := d.book.Arrive())
  }

  function ReactAll(d: Device, events: seq<Event>): Device
    decreases |events|
  {
    if events == [] then d else ReactAll(React(d, events[0]), events[1..])
  }

  /** A device whose interface has just been reset; the VBUS and end-of-reset interrupts are enabled from then on. */
  const FRESH := Device(Unattached, 0, 0, true, false, Flags(false, false, false, false),
                        Idle, Request(0, 0, 0, 0), Request(0, 0, 0, 0), Book(false, 0, 0, 0, 0, 0, false, (0, 0)))

  /** Between the two assignments of SetConfiguration(0). */
  predicate Unconfiguring(d: Device) {
    (d.pc == ConfigStatus || d.pc == ConfigState) && Low(d.request.value) == 0
  }

  /** How the account of SETUP packets stands while an undisturbed request is being processed. */
  predicate Accounted(d: Device) {
    match d.pc
    case Idle => true
    case AddressClear => d.book.Waiting() && Standard(d.request) && d.request.request == 5
    case ConfigCheck => d.book.Waiting() && Standard(d.request) && d.request.request == 9
    case ConfigClear => d.book.Waiting() && Standard(d.request) && d.request.request == 9
    case Other => d.book.Waiting() && !(Standard(d.request) && (d.request.request == 5 || d.request.request == 9))
    case Final => d.book.Waiting() || d.book.Answered()
    case _ => d.book.Answered()
  }

  ghost predicate Inv(d: Device) { Consistent(d) && Balanced(d) }

  ghost predicate Consistent(d: Device) {
    && d.suspendEnabled != d.wakeupEnabled
    && (d.state == Configured && d.config == 0 ==> Unconfiguring(d))
    && (Unconfiguring(d) ==> d.config == 0)
  }

  ghost predicate Balanced(d: Device) {
    d.book.Balanced() && (d.book.undisturbed ==> Accounted(d))
  }

  lemma TaskKeeps(d: Device, app: Application, ready: bool)
    requires Inv(d)
    ensures Inv(Task(d, app, ready))
  {
    hide Inv, Fetch, InSetAddress, InSetConfiguration, AtEnd;
    if d.pc.InAddress() {
      AddressKeeps(d, ready);
    } else if d.pc.InConfiguration() {
      ConfigurationKeeps(d, ready);
    } else {
      if d.pc == Idle {
        FetchKeeps(d);
      } else {
        EndKeeps(d, app);
      }
    }
  }

  lemma FetchKeeps(d: Device)
    requires Inv(d) && d.pc == Idle
    ensures Inv(Fetch(d))
  {
    hide Low;
  }

  lemma AddressKeeps(d: Device, ready: bool)
    requires Inv(d) && d.pc.InAddress()
    ensures Inv(InSetAddress(d, ready))
  {
    hide And, Standard, Low;
  }

  lemma ConfigurationKeeps(d: Device, ready: bool)
    requires Inv(d) && d.pc.InConfiguration()
    ensures Inv(InSetConfiguration(d, ready))
  {
    hide Standard, Low;
  }

  lemma EndKeeps(d: Device, app: Application)
    requires Inv(d) && (d.pc == Other || d.pc == Final)
    ensures Inv(AtEnd(d, app))
  {
    hide Standard, Accepts, Low;
  }

  lemma InterruptKeeps(d: Device, vbus: bool)
    requires Inv(d)
    ensures Inv(Interrupt(d, vbus))
  {
    hide VbusChanged, Suspend, WakeUp, EndOfReset, Inv;
    VbusKeeps(d, vbus);
    SuspendKeeps(VbusChanged(d, vbus));
    WakeUpKeeps(Suspend(VbusChanged(d, vbus)));
    ResetKeeps(WakeUp(Suspend(VbusChanged(d, vbus))));
  }

  lemma VbusKeeps(d: Device, vbus: bool)
    requires Inv(d)
    ensures Inv(VbusChanged(d, vbus))
  {
    hide Standard;
  }

  lemma SuspendKeeps(d: Device)
    requires Inv(d)
    ensures Inv(Suspend(d))
  {
    hide Standard;
  }

  lemma WakeUpKeeps(d: Device)
    requires Inv(d)
    ensures Inv(WakeUp(d))
  {
    hide Standard;
  }

  lemma ResetKeeps(d: Device)
    requires Inv(d)
    ensures Inv(EndOfReset(d))
  {
    hide Standard;
  }

  /**
   * Under every interleaving of the control loop with interrupts and requests exactly one of the suspend and
   * wake-up interrupts is enabled, and a configured device has a zero configuration number exactly between the two
   * assignments of SetConfiguration(0).
   */
  lemma {:induction false} AlwaysConsistent(d: Device, events: seq<Event>)
    requires Inv(d)
    ensures var after := ReactAll(d, events);
            && Inv(after)
            && (after.suspendEnabled <==> !after.wakeupEnabled)
            && (after.state == Configured ==> (after.config == 0 <==> Unconfiguring(after)))
    decreases |events|
  {
    if events != [] {
      hide Task, Interrupt;
      match events[0] {
        case Run(app, ready) => TaskKeeps(d, app, ready);
        case Isr(vbus) => InterruptKeeps(d, vbus);
        case _ =>
      }
      AlwaysConsistent(React(d, events[0]), events[1..]);
    }
  }

  // Where the interrupts lead, in plain terms

  const QUIET := Flags(false, false, false, false)

  /** Nothing from the host, no bus reset and no change of VBUS; the idle control loop has nothing to do. */
  predicate Undisturbing(event: Event) {
    match event
    case Arrive(_) => false
    case Raise(flags) => !flags.vbus && !flags.reset
    case _ => true
  }

  predicate AtRest(d: Device) {
    d.pc == Idle && !d.book.setup && !d.pending.vbus && !d.pending.reset
  }

  /** A device that has resumed is configured if it has a configuration, and else counts as addressed. */
  predicate Resumed(d: Device) {
    d.suspendEnabled && !d.wakeupEnabled && d.state == if d.config != 0 then Configured else Addressed
  }

  lemma {:induction false} RestingRun(d: Device, events: seq<Event>)
    requires AtRest(d) && d.suspendEnabled != d.wakeupEnabled && (d.wakeupEnabled || Resumed(d))
    requires forall e :: e in events ==> Undisturbing(e)
    ensures var after := ReactAll(d, events);
            && AtRest(after) && after.suspendEnabled != after.wakeupEnabled && (after.wakeupEnabled || Resumed(after))
            && (after.config, after.address) == (d.config, d.address)
    decreases |events|
  {
    hide Low, And, Standard, Accepts;
    if events != [] {
      assert Undisturbing(events[0]);
      RestingRun(React(d, events[0]), events[1..]);
    }
  }

  /**
   * A suspended device that wakes up, however often it has done so in between, ends configured if and only if it has a
   * configuration number, and keeps that and its address.
   */
  lemma ResumesAsConfigured(d: Device, suspended: bool, events: seq<Event>, resumed: bool)
    requires AtRest(d) && d.suspendEnabled && !d.wakeupEnabled
    requires forall e :: e in events ==> Undisturbing(e)
    ensures var asleep := React(React(d, Raise(QUIET.(suspend := true))), Isr(suspended));
            var after := React(React(ReactAll(asleep, events), Raise(QUIET.(wakeup := true))), Isr(resumed));
            && (d.pending == QUIET ==> asleep.state == Suspended)
            && (after.config, after.address) == (d.config, d.address)
            && after.state == if d.config != 0 then Configured else Addressed
  {
    var asleep := React(React(d, Raise(QUIET.(suspend := true))), Isr(suspended));
    RestingRun(asleep, events);
  }

  /** Whatever else is pending, the end of a bus reset leaves a default device without configuration and without a SETUP. */
  lemma ResetsToDefault(d: Device, vbus: bool)
    ensures var after := React(React(d, Raise(QUIET.(reset := true))), Isr(vbus));
            && after.state == Default && after.config == 0 && !after.book.setup
            && !after.suspendEnabled && after.wakeupEnabled
            && !after.pending.reset && !after.pending.vbus && !after.pending.suspend
  {
  }

  /** A change of VBUS powers the device or detaches it, and changes nothing else. */
  lemma FollowsVbus(d: Device, vbus: bool)
    requires d.pending == QUIET
    ensures React(React(d, Raise(QUIET.(vbus := true))), Isr(vbus)) == d.(state := if vbus then Powered else Unattached)
  {
  }

  /** Disabled sources wait: a suspension while asleep, and a wake-up while awake, change nothing but their flag. */
  lemma DisabledSourcesWait(d: Device, vbus: bool)
    requires d.pending == QUIET
    ensures !d.suspendEnabled ==> React(React(d, Raise(QUIET.(suspend := true))), Isr(vbus)) == d.(pending := QUIET.(suspend := true))
    ensures !d.wakeupEnabled ==> React(React(d, Raise(QUIET.(wakeup := true))), Isr(vbus)) == d.(pending := QUIET.(wakeup := true))
  {
  }

  /** A source is pending until the interrupt serves it: from the start, or raised by some event. */
  lemma {:induction false} PendingUntilServed(d: Device, events: seq<Event>)
    requires forall e :: e in events ==> !e.Isr?
    ensures var pending := ReactAll(d, events).pending;
            && (pending.vbus <==> d.pending.vbus || exists e :: e in events && e.Raise? && e.flags.vbus)
            && (pending.suspend <==> d.pending.suspend || exists e :: e in events && e.Raise? && e.flags.suspend)
            && (pending.wakeup <==> d.pending.wakeup || exists e :: e in events && e.Raise? && e.flags.wakeup)
            && (pending.reset <==> d.pending.reset || exists e :: e in events && e.Raise? && e.flags.reset)
    decreases |events|
  {
    if events != [] {
      PendingUntilServed(React(d, events[0]), events[1..]);
      assert forall e :: e in events <==> e == events[0] || e in events[1..];
      hide ReactAll;
      TaskRaisesNothing(d, events[0]);
    }
  }

  lemma TaskRaisesNothing(d: Device, event: Event)
    ensures event.Run? || event.Arrive? ==> React(d, event).pending == d.pending
  {
    hide Low, And, Standard, Accepts;
  }

  /**
   * Before the number or address of a request takes effect the loop waits for the host to take the status stage. A
   * device that is detached gives up its address there, but goes on to change its configuration.
   */
  lemma StatusStageWaits(d: Device, app: Application)
    requires d.pc in {AddressStatus, AddressReady, ConfigStatus}
    ensures d.state != Unattached ==> Task(d, app, false) == d
    ensures d.state == Unattached ==>
              Task(d, app, false).pc == match d.pc case AddressStatus => AddressReady case AddressReady => Final case _ => ConfigState
  {
    hide Low, And, Standard, Accepts;
  }

  // Which requests are answered, in plain numbers

  /**
   * The device itself serves GET_STATUS, CLEAR_FEATURE, SET_FEATURE, SET_ADDRESS, GET_DESCRIPTOR, GET_CONFIGURATION
   * and SET_CONFIGURATION from the recipients listed; all else is left to the application.
   */
  lemma AnsweredRequests(r: Request, app: Application)
    ensures Accepts(r, app) <==>
            match (r.request, r.requestType)
            case (0, 0x80) => true
            case (0, 0x82) => true
            case (1, 0x00) => r.value % 256 == 1
            case (3, 0x00) => r.value % 256 == 1
            case (1, 0x02) => r.value % 256 != 0 || r.index % 8 != 0
            case (3, 0x02) => r.value % 256 != 0 || r.index % 8 != 0
            case (5, 0x00) => true
            case (6, 0x80) => app.hasDescriptor
            case (6, 0x81) => app.hasDescriptor
            case (8, 0x80) => true
            case (9, 0x00) => r.value % 256 <= 1
            case _ => app.handles
    ensures Standard(r) && r.request == 5 <==> r == Request(0x00, 5, r.value, r.index)
    ensures Standard(r) && r.request == 9 <==> r == Request(0x00, 9, r.value, r.index)
  {
    hide And;
    Powers();
    AndLow(Low(r.index), 3);
    assert r.index % 256 % 8 == r.index % 8;
  }

  /** A SET_ADDRESS that nothing disturbs takes the low seven bits as address, and addresses the device unless they are 0. */
  lemma TakesAddress(d: Device, app: Application)
    requires d.pc == AddressClear
    ensures var after := Finish(d, app);
            && after.pc == Idle && after.address == d.request.value % 128 && after.config == d.config
            && after.state == if d.request.value % 128 != 0 then Addressed else d.state
  {
    Powers();
    AndLow(d.request.value, 7);
    hide And, Finish;
    FinishAddress(d, app);
  }

  /** A SET_CONFIGURATION takes the low byte if it is at most 1, and configures the device unless it is 0. */
  lemma TakesConfiguration(d: Device, app: Application)
    requires d.pc == ConfigCheck
    ensures var after, number := Finish(d, app), d.request.value % 256;
            && after.pc == Idle && after.address == d.address
            && (after.config, after.state) == if number > 1 then (d.config, d.state)
                                              else if number == 1 then (1, Configured) else (0, Addressed)
  {
    hide Finish;
    FinishConfiguration(d, app);
  }

  // Each request is answered once

  /** How an undisturbed request stands against the verdict it deserves. */
  predicate Decided(d: Device, app: Application) {
    var verdict := Accepts(d.request, app);
    match d.pc
    case Idle => var b := d.book; !b.setup && (b.accepted, b.stalled) == if verdict then (b.since.0 + 1, b.since.1) else (b.since.0, b.since.1 + 1)
    case Final => if verdict then d.book.Answered() else d.book.Waiting()
    case AddressClear => d.book.Waiting() && verdict
    case ConfigCheck => d.book.Waiting() && (verdict <==> Low(d.request.value) <= NUM_CONFIGURATIONS)
    case ConfigClear => d.book.Waiting() && verdict
    case Other => d.book.Waiting()
    case _ => d.book.Answered() && verdict
  }

  ghost predicate CalmAfter(d: Device, app: Application, next: Device) {
    Decided(next, app) && next.pending == d.pending && next.request == d.request && next.book.since == d.book.since
  }

  lemma CalmTask(d: Device, app: Application, ready: bool)
    requires Decided(d, app)
    ensures CalmAfter(d, app, Task(d, app, ready))
  {
    hide Fetch, InSetAddress, InSetConfiguration, AtEnd, Decided, CalmAfter;
    if d.pc.InAddress() {
      CalmAddress(d, app, ready);
    } else if d.pc.InConfiguration() {
      CalmConfiguration(d, app, ready);
    } else {
      CalmEnd(d, app);
    }
  }

  lemma CalmAddress(d: Device, app: Application, ready: bool)
    requires Decided(d, app) && d.pc.InAddress()
    ensures CalmAfter(d, app, InSetAddress(d, ready))
  {
    hide Accepts, And;
  }

  lemma CalmEnd(d: Device, app: Application)
    requires Decided(d, app) && !d.pc.InAddress() && !d.pc.InConfiguration()
    ensures CalmAfter(d, app, if d.pc == Idle then Fetch(d) else AtEnd(d, app))
  {
    hide And, Accepts, Standard, Low;
  }

  lemma CalmConfiguration(d: Device, app: Application, ready: bool)
    requires Decided(d, app) && d.pc.InConfiguration()
    ensures CalmAfter(d, app, InSetConfiguration(d, ready))
  {
    hide Accepts, Low;
  }

  lemma InterruptLeaves(d: Device, vbus: bool)
    ensures var next := Interrupt(d, vbus);
            && next.pc == d.pc && next.request == d.request && next.incoming == d.incoming
            && next.book == if d.pending.reset then d.book.Drop() else d.book
  {
  }

  /** Statements of the control loop and bus interrupts of all kinds, and nothing new from the host. */
  predicate Alone(event: Event, app: Application) {
    match event
    case Run(a, _) => a == app
    case Arrive(_) => false
    case _ => true
  }

  /** Whether some interrupt finds the end of a bus reset while a SETUP is still pending. */
  predicate Dropped(d: Device, events: seq<Event>)
    decreases |events|
  {
    events != [] && ((events[0].Isr? && d.pending.reset && d.book.setup) || Dropped(React(d, events[0]), events[1..]))
  }

  /** The number of accepted and stalled requests once this one has been answered as it deserves. */
  function Verdict(r: Request, app: Application, before: (nat, nat)): (nat, nat) {
    if Accepts(r, app) then (before.0 + 1, before.1) else (before.0, before.1 + 1)
  }

  // The ways of a SETUP packet: not read yet, being handled or answered, never to be read, or gone without an answer.

  predicate Fetchable(d: Device, r: Request, before: (nat, nat)) {
    d.pc == Idle && d.book.setup && d.incoming == r && d.book.Answers() == before
  }

  predicate InHand(d: Device, r: Request, app: Application, before: (nat, nat)) {
    Decided(d, app) && d.request == r && d.book.since == before
  }

  predicate Ignored(d: Device, before: (nat, nat)) {
    d.book.Answers() == before && (d.book.setup ==> d.pc != Idle && !d.book.undisturbed)
  }

  lemma InHandStep(d: Device, r: Request, app: Application, before: (nat, nat), event: Event)
    requires InHand(d, r, app, before) && Alone(event, app)
    ensures var next := React(d, event);
            if event.Isr? && d.pending.reset && d.book.setup then Ignored(next, before) else InHand(next, r, app, before)
  {
    hide Task, Accepts, Interrupt;
    match event {
      case Run(_, ready) => CalmTask(d, app, ready);
      case Isr(vbus) => InterruptLeaves(d, vbus);
      case _ =>
    }
  }

  /** A packet that has just been read is in hand. */
  lemma Fetched(d: Device, app: Application)
    requires d.pc == Idle && d.book.setup && d.state != Unattached
    ensures InHand(Fetch(d), d.incoming, app, d.book.Answers())
  {
    hide And;
  }

  lemma FetchableStep(d: Device, r: Request, app: Application, before: (nat, nat), event: Event)
    requires Fetchable(d, r, before) && Alone(event, app)
    ensures var next := React(d, event);
            if event.Isr? && d.pending.reset then Ignored(next, before) else Fetchable(next, r, before) || InHand(next, r, app, before)
  {
    hide Interrupt, And;
    match event {
      case Run(_, ready) => if d.state != Unattached { Fetched(d, app); }
      case Isr(vbus) => InterruptLeaves(d, vbus);
      case _ =>
    }
  }

  lemma IgnoredStep(d: Device, app: Application, before: (nat, nat), event: Event)
    requires Ignored(d, before) && Alone(event, app)
    ensures Ignored(React(d, event), before)
  {
    hide Accepts, Interrupt, And, Standard, Low;
    match event {
      case Run(_, ready) =>
      case Isr(vbus) => InterruptLeaves(d, vbus);
      case _ =>
    }
  }

  lemma {:induction false} IgnoredRun(d: Device, app: Application, before: (nat, nat), events: seq<Event>)
    requires Ignored(d, before) && forall e :: e in events ==> Alone(e, app)
    ensures Ignored(ReactAll(d, events), before)
    decreases |events|
  {
    hide React, Ignored, Alone;
    if events != [] {
      IgnoredStep(d, app, before, events[0]);
      IgnoredRun(React(d, events[0]), app, before, events[1..]);
    }
  }

  lemma {:induction false} ReadRun(d: Device, r: Request, app: Application, before: (nat, nat), events: seq<Event>)
    requires Fetchable(d, r, before) || InHand(d, r, app, before)
    requires forall e :: e in events ==> Alone(e, app)
    ensures var after := ReactAll(d, events);
            if Dropped(d, events) then Ignored(after, before) else Fetchable(after, r, before) || InHand(after, r, app, before)
    ensures InHand(d, r, app, before) && !Dropped(d, events) ==> InHand(ReactAll(d, events), r, app, before)
    decreases |events|
  {
    hide React, Fetchable, InHand, Ignored, Alone;
    if events != [] {
      var next := React(d, events[0]);
      if InHand(d, r, app, before) {
        InHandStep(d, r, app, before, events[0]);
      } else {
        FetchableStep(d, r, app, before, events[0]);
        FetchablePends(d, r, before);
      }
      if events[0].Isr? && d.pending.reset && d.book.setup {
        IgnoredRun(next, app, before, events[1..]);
      } else {
        ReadRun(next, r, app, before, events[1..]);
      }
    }
  }

  lemma FetchablePends(d: Device, r: Request, before: (nat, nat))
    requires Fetchable(d, r, before)
    ensures d.book.setup
  {
  }

  /**
   * A SETUP packet found by an idle control loop, and not followed by another, leaves none pending, whatever interrupts
   * strike: once the loop is idle again the request has been answered exactly once, accepted if it deserves it and
   * stalled if not, if and only if no bus reset has struck it before that; else it has not been answered at all.
   */
  lemma AnsweredOnce(d: Device, app: Application, ready: bool, events: seq<Event>)
    requires d.pc == Idle && d.book.setup && d.state != Unattached
    requires forall e :: e in events ==> Alone(e, app)
    ensures var begun := Task(d, app, ready);
            var after := ReactAll(begun, events);
            after.pc == Idle ==>
              && !after.book.setup
              && after.book.Answers() == if Dropped(begun, events) then d.book.Answers() else Verdict(d.incoming, app, d.book.Answers())
  {
    hide ReactAll, And, Accepts, Dropped, Fetch;
    var begun := Task(d, app, ready);
    Fetched(d, app);
    ReadRun(begun, d.incoming, app, d.book.Answers(), events);
  }

  /**
   * The fate of every SETUP packet that is not overtaken by another: when it has been disposed of and the loop is idle,
   * it has been answered, as it deserves, if and only if the loop was idle when it arrived and no bus reset has struck
   * it. A packet that arrives in the middle of a request is never answered.
   */
  lemma AnsweredIfIdle(d: Device, r: Request, app: Application, events: seq<Event>)
    requires forall e :: e in events ==> Alone(e, app)
    ensures var arrived := React(d, Arrive(r));
            var after := ReactAll(arrived, events);
            after.pc == Idle && !after.book.setup ==>
              after.book.Answers() == if d.pc == Idle && !Dropped(arrived, events) then Verdict(r, app, d.book.Answers()) else d.book.Answers()
  {
    hide ReactAll, Accepts, Dropped;
    var arrived := React(d, Arrive(r));
    if d.pc == Idle {
      ReadRun(arrived, r, app, d.book.Answers(), events);
    } else {
      IgnoredRun(arrived, app, d.book.Answers(), events);
    }
  }

  /** The events are the rest of the request being handled: the last of them, and no other, makes the loop idle. */
  predicate Ends(d: Device, events: seq<Event>)
    decreases |events|
  {
    events != [] && d.pc != Idle &&
    var next := React(d, events[0]);
    if next.pc == Idle then |events| == 1 else Ends(next, events[1..])
  }

  function Arrivals(events: seq<Event>): nat {
    if events == [] then 0 else (if events[0].Arrive? then 1 else 0) + Arrivals(events[1..])
  }

  /**
   * However many SETUP packets arrive during a request, at its end none is pending and none of them has been read:
   * all of them are among the lost and the unread ones.
   */
  lemma {:induction false} NeverRead(d: Device, events: seq<Event>)
    requires Ends(d, events)
    ensures var after := ReactAll(d, events);
            && !after.book.setup && after.request == d.request
            && after.book.lost + after.book.unread >=
               d.book.lost + d.book.unread + Arrivals(events) + (if d.book.setup && !d.book.undisturbed then 1 else 0)
    decreases |events|
  {
    hide Interrupt, Task, Dropped;
    var next := React(d, events[0]);
    match events[0] {
      case Run(app, ready) => BusyTask(d, app, ready);
      case Isr(vbus) => InterruptLeaves(d, vbus);
      case _ =>
    }
    if next.pc != Idle {
      NeverRead(next, events[1..]);
    } else {
      assert events[1..] == [];
    }
  }

  lemma BusyTask(d: Device, app: Application, ready: bool)
    requires d.pc != Idle
    ensures var next := Task(d, app, ready);
            && next.request == d.request && (next.pc == Idle ==> !next.book.setup)
            && next.book in {d.book, d.book.Clear(), d.book.Stall()}
  {
    hide And, Accepts, Standard, Low;
  }

  // Disconnections

  predicate SetsAddress(d: Device) { And(d.request.value, 0x7F) != 0 }

  /**
   * Whether the rest of a request, run by these statements, writes the state: always once SetConfiguration has got
   * past its check, and in SetAddress for an address other than 0 if the endpoint is found ready by the statement that
   * looks for that, or has been.
   */
  predicate Overwrites(d: Device, runs: seq<Event>)
    requires |runs| == Ahead(d.pc) && forall e :: e in runs ==> e.Run?
  {
    match d.pc
    case ConfigCheck => Low(d.request.value) <= NUM_CONFIGURATIONS
    case ConfigClear => true
    case ConfigNumber => true
    case ConfigStatus => true
    case ConfigState => true
    case AddressClear => SetsAddress(d) && runs[2].ready
    case AddressStatus => SetsAddress(d) && runs[1].ready
    case AddressReady => SetsAddress(d) && runs[0].ready
    case AddressState => SetsAddress(d)
    case _ => false
  }

  /** A disconnection that strikes a request survives it if and only if the rest of the request does not write the state. */
  lemma {:induction false} DisconnectionSurvives(d: Device, runs: seq<Event>)
    requires d.state == Unattached
    requires |runs| == Ahead(d.pc) && forall e :: e in runs ==> e.Run?
    ensures var after := ReactAll(d, runs);
            && after.pc == Idle
            && (after.state == Unattached <==> !Overwrites(d, runs))
            && (Overwrites(d, runs) ==> after.state == Addressed || after.state == Configured)
    decreases |runs|
  {
    hide And, Standard, Accepts, Low;
    if d.pc != Idle {
      var next := React(d, runs[0]);
      if next.state == Unattached && Ahead(next.pc) == |runs| - 1 {
        DisconnectionSurvives(next, runs[1..]);
      } else {
        Undisturbed(next, runs[1..]);
      }
    }
  }

  /** Whether the rest of a request writes the state when the host is given the time to end it. */
  predicate Writes(d: Device) {
    match d.pc
    case ConfigCheck => Low(d.request.value) <= NUM_CONFIGURATIONS
    case ConfigClear => true
    case ConfigNumber => true
    case ConfigStatus => true
    case ConfigState => true
    case AddressClear => SetsAddress(d)
    case AddressStatus => SetsAddress(d)
    case AddressReady => SetsAddress(d)
    case AddressState => SetsAddress(d)
    case _ => false
  }

  /** A bus reset, a suspension or a new connection to power that strikes a request survives it under the same condition. */
  lemma {:induction false} OtherStatesSurvive(d: Device, runs: seq<Event>)
    requires d.state in {Powered, Default, Suspended}
    requires Ends(d, runs) && forall e :: e in runs ==> e.Run?
    ensures ReactAll(d, runs).state == d.state <==> !Writes(d)
    decreases |runs|
  {
    hide And, Standard, Accepts, Low;
    var next := React(d, runs[0]);
    if next.pc == Idle {
      assert runs[1..] == [];
    } else if next.state == d.state {
      OtherStatesSurvive(next, runs[1..]);
    } else {
      WrittenStays(next, runs[1..]);
    }
  }

  lemma {:induction false} WrittenStays(d: Device, runs: seq<Event>)
    requires d.pc == AddressHardware || d.pc == Final
    requires Ends(d, runs) && forall e :: e in runs ==> e.Run?
    ensures ReactAll(d, runs).state == d.state
    decreases |runs|
  {
    hide And, Standard, Accepts, Low;
    var next := React(d, runs[0]);
    if next.pc == Idle {
      assert runs[1..] == [];
    } else {
      WrittenStays(next, runs[1..]);
    }
  }

  /** From a place in a request that no longer writes the state, its last statements leave it alone. */
  lemma {:induction false} Undisturbed(d: Device, runs: seq<Event>)
    requires d.pc == AddressHardware || d.pc == Final || (d.pc == Idle && (d.state == Unattached || runs == []))
    requires |runs| >= Ahead(d.pc) && (d.state == Unattached || |runs| == Ahead(d.pc)) && forall e :: e in runs ==> e.Run?
    ensures ReactAll(d, runs).pc == Idle && ReactAll(d, runs).state == d.state
    decreases |runs|
  {
    hide And, Standard, Accepts, Low;
    if runs != [] {
      Undisturbed(React(d, runs[0]), runs[1..]);
    }
  }

  // Runs from the fresh device

  ghost predicate Reachable(d: Device) {
    exists events :: ReactAll(FRESH, events) == d
  }

  lemma {:induction false} ReactAllConcat(d: Device, a: seq<Event>, b: seq<Event>)
    ensures ReactAll(d, a + b) == ReactAll(ReactAll(d, a), b)
    decreases |a|
  {
    hide React;
    if a == [] {
      assert a + b == b;
    } else {
      assert (a + b)[1..] == a[1..] + b;
      ReactAllConcat(React(d, a[0]), a[1..], b);
    }
  }

  lemma Reach(d: Device, event: Event) returns (next: Device)
    requires Reachable(d)
    ensures Reachable(next) && next == React(d, event)
  {
    hide React;
    next := React(d, event);
    var events :| ReactAll(FRESH, events) == d;
    ReactAllConcat(FRESH, events, [event]);
    assert ReactAll(FRESH, events + [event]) == ReactAll(next, [event][1..]) == next;
  }

  const SOME_APPLICATION := Application(false, false)

  function SetConfigurationRequest(number: nat): Request { Request(0x00, 9, number, 0) }

  /** SetConfiguration arrives and is fetched. */
  lemma ReachCheck(d: Device, number: nat) returns (next: Device)
    requires Reachable(d) && d.pc == Idle && d.state != Unattached
    ensures Reachable(next) && next.pc == ConfigCheck && next.request == SetConfigurationRequest(number)
    ensures (next.state, next.config, next.pending) == (d.state, d.config, d.pending)
  {
    hide Interrupt;
    next := Reach(d, Arrive(SetConfigurationRequest(number)));
    next := Reach(next, Run(SOME_APPLICATION, true));
  }

  lemma ReachNumber(d: Device, number: nat) returns (next: Device)
    requires Reachable(d) && d.pc == Idle && d.state != Unattached && number <= NUM_CONFIGURATIONS
    ensures Reachable(next) && next.pc == ConfigNumber && next.request == SetConfigurationRequest(number)
    ensures (next.state, next.config, next.pending) == (d.state, d.config, d.pending)
  {
    hide Interrupt, Fetch;
    next := ReachCheck(d, number);
    next := Reach(next, Run(SOME_APPLICATION, true));
    next := Reach(next, Run(SOME_APPLICATION, true));
  }

  /** A device that has been reset and configured. */
  lemma ReachConfigured() returns (d: Device)
    ensures Reachable(d) && d.pc == Idle && d.state == Configured && d.pending == Flags(false, false, false, false)
  {
    assert ReactAll(FRESH, []) == FRESH;
    d := Reach(FRESH, Raise(Flags(false, false, false, true)));
    d := Reach(d, Isr(true));
    hide Interrupt;
    d := ReachCheck(d, 1);
    FinishConfiguration(d, SOME_APPLICATION);
    ReachFinish(d);
    d := Finish(d, SOME_APPLICATION);
  }

  lemma {:induction false} ReachFinish(d: Device)
    requires Reachable(d)
    ensures Reachable(Finish(d, SOME_APPLICATION))
    decreases Ahead(d.pc)
  {
    hide InSetAddress, InSetConfiguration, AtEnd;
    if d.pc != Idle {
      var next := Reach(d, Run(SOME_APPLICATION, true));
      StatementsEnd(d);
      ReachFinish(next);
    }
  }

  lemma StatementsEnd(d: Device)
    requires d.pc != Idle
    ensures Ahead(Task(d, SOME_APPLICATION, true).pc) < Ahead(d.pc)
  {
    hide And, Standard, Accepts, Low;
  }

  /** The window is real: a device can be configured and have no configuration number. */
  lemma WindowIsReal()
    ensures exists events :: var d := ReactAll(FRESH, events); d.state == Configured && d.config == 0
  {
    var d := ReachConfigured();
    d := ReachNumber(d, 0);
    d := Reach(d, Run(SOME_APPLICATION, true));
    assert d.state == Configured && d.config == 0;
  }

  /** And so is the loss: a device unplugged during the status stage of SetConfiguration ends up configured. */
  lemma DisconnectionOverwritten()
    ensures exists events ::
              var d := ReactAll(FRESH, events);
              var runs := [Run(SOME_APPLICATION, false), Run(SOME_APPLICATION, false), Run(SOME_APPLICATION, false)];
              d.state == Unattached && d.pc == ConfigStatus && ReactAll(d, runs).pc == Idle && ReactAll(d, runs).state != Unattached
  {
    var d := ReachConfigured();
    d := ReachNumber(d, 1);
    d := Reach(d, Run(SOME_APPLICATION, true));
    d := Reach(d, Raise(Flags(true, false, false, false)));
    d := Reach(d, Isr(false));
    hide Interrupt, Task;
    DisconnectionSurvives(d, [Run(SOME_APPLICATION, false), Run(SOME_APPLICATION, false), Run(SOME_APPLICATION, false)]);
  }

  /** And a SETUP packet that arrives in the middle of a request can be swallowed by it. */
  lemma SetupSwallowed()
    ensures exists events ::
              var d := ReactAll(FRESH, events); d.pc == Idle && !d.book.setup && d.book.unread > 0 && d.request != d.incoming
  {
    hide Fetch;
    var d := ReachConfigured();
    d := ReachCheck(d, 1);
    d := Reach(d, Arrive(SetConfigurationRequest(0)));
    hide Interrupt, Task;
    FinishConfiguration(d, SOME_APPLICATION);
    ReachFinish(d);
    d := Finish(d, SOME_APPLICATION);
    assert d.pc == Idle && !d.book.setup && d.book.unread > 0 && d.request != d.incoming;
  }

  // The driver

  function Ahead(pc: Pc): nat {
    match pc
    case Idle => 0
    case Final => 1
    case AddressHardware => 2
    case AddressState => 3
    case AddressReady => 4
    case AddressStatus => 5
    case AddressClear => 6
    case ConfigState => 2
    case ConfigStatus => 3
    case ConfigNumber => 4
    case ConfigClear => 5
    case ConfigCheck => 6
    case Other => 2
  }

  /** The rest of a request when the host is always ready and no interrupt strikes. */
  function Finish(d: Device, app: Application): Device
    decreases Ahead(d.pc)
  {
    if d.pc == Idle then d else Finish(Task(d, app, true), app)
  }

  lemma FinishTwice(d: Device, app: Application)
    requires d.pc != Idle && Task(d, app, true).pc != Idle
    ensures Finish(d, app) == Finish(Task(Task(d, app, true), app, true), app)
  {
    hide Task;
  }

  class UsbDevice {
    var state: State
    var config: nat
    var address: nat
    var suspendEnabled: bool
    var wakeupEnabled: bool
    var pending: Flags
    var request: Request
    var incoming: Request
    var book: Book

    /** The device as seen between requests. */
    function View(): Device
      reads this
    {
      Device(state, config, address, suspendEnabled, wakeupEnabled, pending, Idle, request, incoming, book)
    }

    constructor ()
      ensures View() == FRESH && Inv(View())
    {
      state, config, address := Unattached, 0, 0;
      suspendEnabled, wakeupEnabled, pending := true, false, Flags(false, false, false, false);
      request, incoming, book := Request(0, 0, 0, 0), Request(0, 0, 0, 0), Book(false, 0, 0, 0, 0, 0, false, (0, 0));
    }

    method OnVbus(vbus: bool)
      modifies `pending, `state
      ensures View() == VbusChanged(old(View()), vbus)
    {
      if pending.vbus {
        pending := pending.(vbus := false);
        state := if vbus then Powered else Unattached;
      }
    }

    method OnSuspend()
      modifies `pending, `suspendEnabled, `wakeupEnabled, `state
      ensures View() == Suspend(old(View()))
    {
      if pending.suspend && suspendEnabled {
        pending := pending.(suspend := false);
        suspendEnabled := false;
        wakeupEnabled := true;
        state := Suspended;
      }
    }

    method OnWakeUp()
      modifies `pending, `suspendEnabled, `wakeupEnabled, `state
      ensures View() == WakeUp(old(View()))
    {
      if pending.wakeup && wakeupEnabled {
        pending := pending.(wakeup := false);
        wakeupEnabled := false;
        suspendEnabled := true;
        state := if config != 0 then Configured else Addressed;
      }
    }

    method OnEndOfReset()
      modifies this
      ensures View() == EndOfReset(old(View()))
    {
      if pending.reset {
        pending := pending.(reset := false);
        state := Default;
        config := 0;
        pending := pending.(suspend := false);
        suspendEnabled := false;
        wakeupEnabled := true;
        book := book.Drop();
      }
    }

    /** The sources are served in this order, whatever earlier ones have done. */
    method GeneralInterrupt(vbus: bool)
      modifies this
      ensures View() == Interrupt(old(View()), vbus)
    {
      hide VbusChanged, Suspend, WakeUp, EndOfReset;
      OnVbus(vbus);
      OnSuspend();
      OnWakeUp();
      OnEndOfReset();
    }

    method SetAddress()
      modifies `book, `state, `address
      ensures book == old(book).Clear() && address == And(request.value, 0x7F)
      ensures state == if address != 0 then Addressed else old(state)
    {
      var deviceAddress := And(request.value, 0x7F);
      book := book.Clear();
      if deviceAddress != 0 {
        state := Addressed;
      }
      address := deviceAddress;
    }

    method SetConfiguration()
      modifies `book, `config, `state
      ensures if Low(request.value) > NUM_CONFIGURATIONS
              then book == old(book) && config == old(config) && state == old(state)
              else book == old(book).Clear() && config == Low(request.value) && state == if config != 0 then Configured else Addressed
    {
      if Low(request.value) > NUM_CONFIGURATIONS {
        return;
      }
      book := book.Clear();
      config := Low(request.value);
      state := if config != 0 then Configured else Addressed;
    }

    /** A whole request, when the host keeps up and no interrupt strikes, is what the single statements add up to. */
    method ProcessControlRequest(app: Application)
      requires state != Unattached && book.setup
      modifies this
      ensures View() == Finish(Task(old(View()), app, true), app)
    {
      hide And, Accepts;
      ghost var start := View();
      ghost var begun := Task(start, app, true);
      request := incoming;
      book := book.Begin();
      if Standard(request) && request.request == 5 {
        SetAddress();
        FinishAddress(begun, app);
      } else if Standard(request) && request.request == 9 {
        SetConfiguration();
        FinishConfiguration(begun, app);
      } else {
        if Accepts(request, app) {
          book := book.Clear();
        }
        FinishTwice(begun, app);
      }
      if book.setup {
        book := book.Stall();
      }
    }
  }

  lemma FinishAddress(d: Device, app: Application)
    requires d.pc == AddressClear
    ensures var address := And(d.request.value, 0x7F);
            Finish(d, app) == d.(pc := Idle, book := d.book.Clear().Stall(), address := address,
                                 state := if address != 0 then Addressed else d.state)
  {
    hide And;
    var d2 := Task(Task(d, app, true), app, true);
    var d4 := Task(Task(d2, app, true), app, true);
    FinishTwice(d, app);
    FinishTwice(d2, app);
    FinishTwice(d4, app);
  }

  lemma FinishConfiguration(d: Device, app: Application)
    requires d.pc == ConfigCheck
    ensures Finish(d, app) ==
            if Low(d.request.value) > NUM_CONFIGURATIONS then d.(pc := Idle, book := d.book.Stall())
            else d.(pc := Idle, book := d.book.Clear().Stall(), config := Low(d.request.value),
                    state := if Low(d.request.value) != 0 then Configured else Addressed)
  {
    hide And, Standard, Accepts;
    FinishTwice(d, app);
    if Low(d.request.value) <= NUM_CONFIGURATIONS {
      var d2 := Task(Task(d, app, true), app, true);
      var d4 := Task(Task(d2, app, true), app, true);
      FinishTwice(d2, app);
      FinishTwice(d4, app);
    }
  }
}
