/** The host's enumeration state machine, its non-blocking waits, and the interrupts that may strike at any statement. */
module Enumeration {
  datatype State =
    | WaitForDeviceRemoval | WaitForDevice | Unattached | Powered | WaitForDeviceSettle | WaitForConnect
    | DoReset | ConfigPipe | Default | PostReset | PostAddressSet | Addressed | Configured | Suspended

  const SETTLE_DELAY_MS := 1500
  const NO_ERROR := 0
  const DEVICE_DISCONNECT := 1

  /** One flag per interrupt source: disconnection, VBUS dip, session request (attach), failed connection. */
  datatype Flags = Flags(disconnect: bool, vbusError: bool, session: bool, connectError: bool)

  const NONE := Flags(false, false, false, false)

  /**
   * The machine's variables and the interrupt flags, with the bus resets done and whether the device has accepted
   * its address, both counted from the moment the device was powered.
   */
  datatype Host = Host(state: State, waitMs: nat, postWait: State, pipeSize: nat,
                       pending: Flags, enabled: Flags, connected: bool, resets: nat, addressAccepted: bool, deviceAddress: nat)

  /** What the hardware and the device do during one call. */
  datatype Turn = Turn(waitCode: nat, pipeConfigured: bool, controlCode: nat, endpointSize: nat, frameAfter: nat) {
    predicate FaultFree() { waitCode == NO_ERROR && pipeConfigured && controlCode == NO_ERROR }
  }

  /** USB_ResetInterface in host mode. */
  function ResetInterface(h: Host): Host {
    h.(state := Unattached, pending := NONE, connected := false,
       enabled := Flags(false, false, true, true))
  }

  function NonBlockingWait(h: Host, ms: nat, next: State): Host {
    h.(state := WaitForDevice, waitMs := ms, postWait := next)
  }

  /** A bus reset; a disconnection seen meanwhile is forgotten if a frame is found within ten milliseconds. */
  function ResetDevice(h: Host, frameAfter: nat): Host {
    h.(resets := h.resets + 1,
       pending := if frameAfter < 10 then h.pending.(disconnect := false) else h.pending,
       enabled := h.enabled.(disconnect := true))
  }

  /** One call of USB_Host_ProcessNextHostState that no interrupt strikes. */
  function Step(h: Host, turn: Turn): Host {
    match h.state
    case WaitForDevice =>
      if h.waitMs == 0 then h
      else if turn.waitCode != NO_ERROR then Failed(h.(state := h.postWait))
      else h.(waitMs := h.waitMs - 1, state := if h.waitMs == 1 then h.postWait else WaitForDevice)
    case Powered =>
      h.(waitMs := SETTLE_DELAY_MS, state := WaitForDeviceSettle)
    case WaitForDeviceSettle =>
      if h.waitMs > 0 then h.(waitMs := h.waitMs - 1) else h.(waitMs := 0xFFFF, state := WaitForConnect)
    case WaitForConnect =>
      if !h.connected then h
      else NonBlockingWait(h.(connected := false, pending := h.pending.(disconnect := false, vbusError := false),
                              enabled := h.enabled.(vbusError := true)), 100, DoReset)
    case DoReset =>
      NonBlockingWait(ResetDevice(h, turn.frameAfter), 200, ConfigPipe)
    case ConfigPipe =>
      if !turn.pipeConfigured then Failed(h) else h.(state := Default)
    case Default =>
      if turn.controlCode != NO_ERROR then Failed(h)
      else NonBlockingWait(ResetDevice(h.(pipeSize := turn.endpointSize), turn.frameAfter), 200, PostReset)
    case PostReset =>
      if !turn.pipeConfigured then Failed(h)
      else if turn.controlCode != NO_ERROR then Failed(h)
      else NonBlockingWait(h.(addressAccepted := true), 100, PostAddressSet)
    case PostAddressSet =>
      h.(deviceAddress := 1, state := Addressed)
    case _ => h
  }

  /** The common failure exit; its test matters only to calls that an interrupt has struck. */
  function Failed(h: Host): Host {
    if h.state == Unattached then h else ResetInterface(h)
  }

  /** The host part of the general interrupt: each pending and enabled source in turn. */
  function Interrupt(h: Host): Host {
    var h1 := if h.pending.disconnect && h.enabled.disconnect then ResetInterface(h) else h;
    var h2 := if h1.pending.vbusError && h1.enabled.vbusError
              then h1.(pending := h1.pending.(vbusError := false), state := Unattached) else h1;
    var h3 := if h2.pending.session && h2.enabled.session
              then h2.(pending := h2.pending.(session := false), enabled := h2.enabled.(session := false, disconnect := true),
                       state := Powered, resets := 0, addressAccepted := false) else h2;
    if h3.pending.connectError && h3.enabled.connectError then ResetInterface(h3) else h3
  }

  // A call statement by statement

  /**
   * Where a call is. `Poll`: about to look at the state. The others name the statement that comes next: `Connecting`
   * has `left` statements before its pause; `Framing` looks for a frame for `msRem` more milliseconds; `Requested` and
   * `Waited` carry the outcome of a control request and of a millisecond's wait; `Failing` is the test at the end.
   */
  datatype Pc =
    | Poll
    | Powering | Settled | Connecting(left: nat)
    | Disabling(target: State) | Resetting(target: State) | Framing(target: State, msRem: nat) | Reenabling(target: State)
    | Pausing(ms: nat, target: State)
    | Waiting | Waited(code: nat)
    | Piped
    | Requesting(from: State) | Requested(from: State, code: nat)
    | Addressing
    | Failing | Detaching
  {
    predicate InReset() { Disabling? || Resetting? || Framing? || Reenabling? }
  }

  /**
   * The host in the middle of a call. `lost` is what the call had achieved for the previous device when an attachment
   * struck it: bus resets and accepted address that the device now attached has not seen.
   */
  datatype Machine = Machine(h: Host, pc: Pc, lost: (nat, bool))

  const NOTHING := (0, false)

  /** The next statement of the main loop. */
  function Task(m: Machine, turn: Turn): Machine {
    match m.pc
    case Poll => Dispatch(m, turn)
    case Connecting(_) => InConnection(m)
    case Disabling(_) => InReset(m, turn)
    case Resetting(_) => InReset(m, turn)
    case Framing(_, _) => InReset(m, turn)
    case Reenabling(_) => InReset(m, turn)
    case Waiting => InWait(m, turn)
    case Waited(_) => InWait(m, turn)
    case Requesting(_) => InRequest(m, turn)
    case Requested(_, _) => InRequest(m, turn)
    case _ => AtEnd(m)
  }

  /** The statements that begin to watch a device whose connection has been noticed. */
  function InConnection(m: Machine): Machine
    requires m.pc.Connecting?
  {
    var h := m.h;
    if m.pc.left >= 4 then m.(h := h.(connected := false), pc := Connecting(3))
    else if m.pc.left == 3 then m.(h := h.(pending := h.pending.(disconnect := false)), pc := Connecting(2))
    else if m.pc.left == 2 then m.(h := h.(pending := h.pending.(vbusError := false)), pc := Connecting(1))
    else m.(h := h.(enabled := h.enabled.(vbusError := true)), pc := Pausing(100, DoReset))
  }

  /** The bus reset, during which no disconnection interrupts unless an attachment enables that again. */
  function InReset(m: Machine, turn: Turn): Machine
    requires m.pc.InReset()
  {
    var h := m.h;
    match m.pc
    case Disabling(target) => m.(h := h.(enabled := h.enabled.(disconnect := false)), pc := Resetting(target))
    case Resetting(target) => m.(h := h.(resets := h.resets + 1), pc := Framing(target, 10))
    case Framing(target, msRem) =>
      if msRem > 0 && 10 - msRem != turn.frameAfter then m.(pc := Framing(target, msRem - 1))
      else m.(h := if msRem > 0 then h.(pending := h.pending.(disconnect := false)) else h, pc := Reenabling(target))
    case Reenabling(target) => m.(h := h.(enabled := h.enabled.(disconnect := true)), pc := Pausing(200, target))
  }

  /** A millisecond's wait, which looks for a detachment, and what is made of its outcome. */
  function InWait(m: Machine, turn: Turn): Machine
    requires m.pc.Waiting? || m.pc.Waited?
  {
    var h := m.h;
    match m.pc
    case Waiting => m.(pc := Waited(if h.state == Unattached then DEVICE_DISCONNECT else turn.waitCode))
    case Waited(code) =>
      if code != NO_ERROR then m.(h := h.(state := h.postWait), pc := Failing)
      else if h.waitMs <= 1 then m.(h := h.(waitMs := 0, state := h.postWait), pc := Poll)
      else m.(h := h.(waitMs := h.waitMs - 1), pc := Poll)
  }

  /** A control request, whose waits look for a detachment, and what is made of its outcome. */
  function InRequest(m: Machine, turn: Turn): Machine
    requires m.pc.Requesting? || m.pc.Requested?
  {
    var h := m.h;
    match m.pc
    case Requesting(from) =>
      var code := if h.state == Unattached then DEVICE_DISCONNECT else turn.controlCode;
      m.(h := if from == PostReset && code == NO_ERROR then h.(addressAccepted := true) else h, pc := Requested(from, code))
    case Requested(from, code) =>
      if code != NO_ERROR then m.(pc := Failing)
      else if from == Default then m.(h := h.(pipeSize := turn.endpointSize), pc := Disabling(PostReset))
      else m.(pc := Pausing(100, PostAddressSet))
  }

  /** The last write to the state, and the failure exit. */
  function AtEnd(m: Machine): Machine {
    var h := m.h;
    match m.pc
    case Powering => m.(h := h.(waitMs := SETTLE_DELAY_MS, state := WaitForDeviceSettle), pc := Poll)
    case Settled => m.(h := h.(state := WaitForConnect), pc := Poll)
    case Pausing(ms, target) => m.(h := NonBlockingWait(h, ms, target), pc := Poll)
    case Piped => m.(h := h.(state := Default), pc := Poll)
    case Addressing => m.(h := h.(state := Addressed), pc := Poll)
    case Failing => m.(pc := if h.state == Unattached then Poll else Detaching)
    case Detaching => m.(h := ResetInterface(h), pc := Poll)
    case _ => m
  }

  /** What a call does on looking at the state, up to the first statement that an interrupt could disturb. */
  function Dispatch(m: Machine, turn: Turn): Machine {
    var h := m.h;
    match h.state
    case WaitForDevice => if h.waitMs > 0 then m.(pc := Waiting) else m
    case Powered => m.(pc := Powering, lost := NOTHING)
    case WaitForDeviceSettle =>
      if h.waitMs > 0 then m.(h := h.(waitMs := h.waitMs - 1)) else m.(h := h.(waitMs := 0xFFFF), pc := Settled)
    case WaitForConnect => if h.connected then m.(pc := Connecting(4)) else m
    case DoReset => m.(pc := Disabling(ConfigPipe))
    case ConfigPipe => m.(pc := if turn.pipeConfigured then Piped else Failing)
    case Default => m.(pc := Requesting(Default))
    case PostReset => m.(pc := if turn.pipeConfigured then Requesting(PostReset) else Failing)
    case PostAddressSet => m.(h := h.(deviceAddress := 1), pc := Addressing)
    case _ => m
  }

  /** Whether the interrupt takes a device as newly attached. */
  predicate Attaches(h: Host) {
    h.pending.session && h.enabled.session && !(h.pending.disconnect && h.enabled.disconnect)
  }

  function Struck(m: Machine): Machine {
    m.(h := Interrupt(m.h), lost := if Attaches(m.h) then Achieved(m) else m.lost)
  }

  datatype Event = Work(turn: Turn) | Raise(flags: Flags) | Connect | Isr

  function Union(a: Flags, b: Flags): Flags {
    Flags(a.disconnect || b.disconnect, a.vbusError || b.vbusError, a.session || b.session, a.connectError || b.connectError)
  }

  function React(m: Machine, event: Event): Machine {
    match event
    case Work(turn) => Task(m, turn)
    case Raise(flags) => m.(h := m.h.(pending := Union(m.h.pending, flags)))
    case Connect => m.(h := m.h.(connected := true))
    case Isr => Struck(m)
  }

  function ReactAll(m: Machine, events: seq<Event>): Machine
    decreases |events|
  {
    if events == [] then m else ReactAll(React(m, events[0]), events[1..])
  }

  /** An upper bound on the statements that a call still has to run. */
  function Ahead(pc: Pc): nat {
    match pc
    case Poll => 0
    case Connecting(left) => 2 + if left > 4 then 4 else left
    case Reenabling(_) => 2
    case Framing(_, msRem) => 3 + msRem
    case Resetting(_) => 14
    case Disabling(_) => 15
    case Requested(_, _) => 16
    case Requesting(_) => 17
    case Failing => 2
    case Waited(_) => 3
    case Waiting => 4
    case _ => 1
  }

  lemma StatementsEnd(m: Machine, turn: Turn)
    requires m.pc != Poll
    ensures Ahead(Task(m, turn).pc) < Ahead(m.pc)
  {
  }

  /** The rest of a call that nothing interrupts. */
  function Finish(m: Machine, turn: Turn): Machine
    decreases Ahead(m.pc)
  {
    if m.pc == Poll then m else
    StatementsEnd(m, turn);
    Finish(Task(m, turn), turn)
  }

  lemma FinishStep(m: Machine, turn: Turn)
    ensures Finish(m, turn) == if m.pc == Poll then m else Finish(Task(m, turn), turn)
  {
    hide Task;
  }

  /** A bus reset from the search for a frame on. */
  lemma {:induction false} FinishFraming(m: Machine, turn: Turn)
    requires m.pc.Framing? && m.pc.msRem <= 10 && 10 - m.pc.msRem <= turn.frameAfter
    ensures Finish(m, turn) == m.(h := NonBlockingWait(Framed(m.h, turn.frameAfter), 200, m.pc.target), pc := Poll)
    decreases m.pc.msRem
  {
    hide NonBlockingWait;
    var next := Task(m, turn);
    FinishStep(m, turn);
    if m.pc.msRem > 0 && 10 - m.pc.msRem != turn.frameAfter {
      FinishFraming(next, turn);
    } else {
      FinishStep(next, turn);
      FinishStep(Task(next, turn), turn);
    }
  }

  function Framed(h: Host, frameAfter: nat): Host {
    h.(pending := if frameAfter < 10 then h.pending.(disconnect := false) else h.pending,
       enabled := h.enabled.(disconnect := true))
  }

  lemma FinishReset(m: Machine, turn: Turn)
    requires m.pc.Disabling?
    ensures Finish(m, turn) == m.(h := NonBlockingWait(ResetDevice(m.h, turn.frameAfter), 200, m.pc.target), pc := Poll)
  {
    hide NonBlockingWait;
    FinishStep(m, turn);
    FinishStep(Task(m, turn), turn);
    FinishFraming(Task(Task(m, turn), turn), turn);
  }

  lemma FinishConnection(m: Machine, turn: Turn)
    requires m.pc == Connecting(4)
    ensures Finish(m, turn) ==
            m.(h := NonBlockingWait(m.h.(connected := false, pending := m.h.pending.(disconnect := false, vbusError := false),
                                         enabled := m.h.enabled.(vbusError := true)), 100, DoReset), pc := Poll)
  {
    hide NonBlockingWait;
    var m2 := Task(Task(m, turn), turn);
    assert Finish(m, turn) == Finish(m2, turn);
    assert Finish(m2, turn) == Finish(Task(Task(m2, turn), turn), turn);
    FinishStep(Task(Task(m2, turn), turn), turn);
  }

  lemma FinishFailing(m: Machine, turn: Turn)
    requires m.pc == Failing
    ensures Finish(m, turn) == m.(h := Failed(m.h), pc := Poll)
  {
    FinishStep(m, turn);
    FinishStep(Task(m, turn), turn);
  }

  lemma FinishWait(m: Machine, turn: Turn)
    requires m.pc == Waiting && m.h.state == WaitForDevice && m.h.waitMs > 0
    ensures Finish(m, turn) == m.(h := Step(m.h, turn), pc := Poll)
  {
    var waited := Task(Task(m, turn), turn);
    FinishStep(m, turn);
    FinishStep(Task(m, turn), turn);
    if turn.waitCode != NO_ERROR {
      FinishFailing(waited, turn);
    }
  }

  lemma FinishRequest(m: Machine, turn: Turn)
    requires m.pc == Requesting(m.h.state) && (m.h.state == Default || (m.h.state == PostReset && turn.pipeConfigured))
    ensures Finish(m, turn) == m.(h := Step(m.h, turn), pc := Poll)
  {
    hide ResetDevice;
    var replied := Task(Task(m, turn), turn);
    FinishStep(m, turn);
    FinishStep(Task(m, turn), turn);
    if turn.controlCode != NO_ERROR {
      FinishFailing(replied, turn);
    } else if m.h.state == Default {
      FinishReset(replied, turn);
    } else {
      FinishStep(replied, turn);
    }
  }

  /** Statement by statement a call that nothing interrupts does what `Step` says. */
  lemma CallIsSteps(h: Host, lost: (nat, bool), turn: Turn)
    ensures var after := Finish(Task(Machine(h, Poll, lost), turn), turn);
            after.h == Step(h, turn) && after.pc == Poll
  {
    hide ResetDevice, NonBlockingWait, ResetInterface, Failed, InConnection, InReset, InWait, InRequest;
    var m := Task(Machine(h, Poll, lost), turn);
    match m.pc {
      case Poll =>
      case Connecting(_) => FinishConnection(m, turn);
      case Disabling(_) => FinishReset(m, turn);
      case Waiting => FinishWait(m, turn);
      case Requesting(_) => FinishRequest(m, turn);
      case Failing => FinishFailing(m, turn);
      case _ => FinishStep(m, turn);
    }
  }

  // What every reachable state keeps

  /** How far enumeration has come: the number of bus resets done, and whether the address has been accepted. */
  function Progress(s: State): (nat, bool) {
    match s
    case ConfigPipe => (1, false)
    case Default => (1, false)
    case PostReset => (2, false)
    case PostAddressSet => (2, true)
    case Addressed => (2, true)
    case _ => NOTHING
  }

  /** How far a call has come with it. */
  function Achieved(m: Machine): (nat, bool) {
    match m.pc
    case Disabling(target) => if target == PostReset then (1, false) else NOTHING
    case Resetting(target) => if target == PostReset then (1, false) else NOTHING
    case Framing(target, _) => Progress(target)
    case Reenabling(target) => Progress(target)
    case Pausing(_, target) => Progress(target)
    case Waiting => Progress(m.h.postWait)
    case Waited(_) => Progress(m.h.postWait)
    case Piped => (1, false)
    case Requesting(from) => Progress(from)
    case Requested(from, code) => if from == PostReset && code == NO_ERROR then (2, true) else Progress(from)
    case Addressing => (2, true)
    case _ => NOTHING
  }

  /** The state in which a call has arrived at its present statement, unless an interrupt has changed it. */
  function Seen(pc: Pc): State {
    match pc
    case Powering => Powered
    case Settled => WaitForDeviceSettle
    case Connecting(_) => WaitForConnect
    case Disabling(target) => Before(target)
    case Resetting(target) => Before(target)
    case Framing(target, _) => Before(target)
    case Reenabling(target) => Before(target)
    case Pausing(_, target) => Before(target)
    case Piped => ConfigPipe
    case Requesting(from) => from
    case Requested(from, _) => from
    case Addressing => PostAddressSet
    case _ => WaitForDevice
  }

  function Before(target: State): State {
    match target
    case DoReset => WaitForConnect
    case ConfigPipe => DoReset
    case PostReset => Default
    case _ => PostReset
  }

  predicate Stage(s: State) {
    s == DoReset || s == ConfigPipe || s == PostReset || s == PostAddressSet
  }

  /** Only what the source's text allows: arguments of its macros, and states it uses. */
  ghost predicate Placed(m: Machine) {
    && match m.pc {
         case Disabling(target) => target == ConfigPipe || target == PostReset
         case Resetting(target) => target == ConfigPipe || target == PostReset
         case Framing(target, msRem) => (target == ConfigPipe || target == PostReset) && msRem <= 10
         case Reenabling(target) => target == ConfigPipe || target == PostReset
         case Pausing(ms, target) => ms > 0 && Stage(target)
         case Waiting => m.h.waitMs > 0 && Stage(m.h.postWait)
         case Waited(_) => m.h.waitMs > 0 && Stage(m.h.postWait)
         case Requesting(from) => from == Default || from == PostReset
         case Requested(from, _) => from == Default || from == PostReset
         case _ => true
       }
    && (m.pc == Poll || m.pc == Failing || m.pc == Detaching || m.h.state in {Seen(m.pc), Unattached, Powered})
    && (m.pc == Poll && m.h.state == WaitForDevice ==> m.h.waitMs > 0 && Stage(m.h.postWait))
    && m.h.state !in {WaitForDeviceRemoval, Configured, Suspended}
  }

  /** Done for the device now attached and lost with the previous one add up to what the machine takes as done. */
  predicate Adds(m: Machine, progress: (nat, bool)) {
    && m.h.resets + m.lost.0 == progress.0
    && (if progress.1 then m.h.addressAccepted != m.lost.1 else !m.h.addressAccepted && !m.lost.1)
  }

  ghost predicate Counted(m: Machine) {
    && (m.pc == Poll || m.pc == Failing || m.pc == Detaching || Adds(m, Achieved(m)))
    && (m.pc == Poll && m.h.state != Unattached && m.h.state != Powered ==>
          Adds(m, Progress(if m.h.state == WaitForDevice then m.h.postWait else m.h.state)))
    && (m.h.state == Powered && (m.pc == Poll || m.pc == Waiting || m.pc.Waited?) ==> m.h.resets == 0 && !m.h.addressAccepted)
    && (m.pc == Addressing || (m.pc == Poll && m.h.state == Addressed) ==> m.h.deviceAddress == 1)
  }

  /** There is always an interrupt that can bring a detached host back. */
  predicate Armed(m: Machine) {
    m.h.enabled.connectError && (m.h.enabled.session || m.h.enabled.disconnect || m.pc.InReset())
  }

  ghost predicate Inv(m: Machine) { Placed(m) && Counted(m) && Armed(m) }

  lemma TaskKeeps(m: Machine, turn: Turn)
    requires Inv(m)
    ensures Inv(Task(m, turn))
  {
    hide Inv, Dispatch, InConnection, InReset, InWait, InRequest, AtEnd;
    match m.pc {
      case Poll => DispatchKeeps(m, turn);
      case Connecting(_) => ConnectionKeeps(m);
      case Disabling(_) => ResetKeeps(m, turn);
      case Resetting(_) => ResetKeeps(m, turn);
      case Framing(_, _) => ResetKeeps(m, turn);
      case Reenabling(_) => ResetKeeps(m, turn);
      case Waiting => WaitKeeps(m, turn);
      case Waited(_) => WaitKeeps(m, turn);
      case Requesting(_) => RequestKeeps(m, turn);
      case Requested(_, _) => RequestKeeps(m, turn);
      case _ => EndKeeps(m);
    }
  }

  lemma DispatchKeeps(m: Machine, turn: Turn)
    requires Inv(m) && m.pc == Poll
    ensures Inv(Dispatch(m, turn))
  {
  }

  lemma ConnectionKeeps(m: Machine)
    requires Inv(m) && m.pc.Connecting?
    ensures Inv(InConnection(m))
  {
  }

  lemma ResetKeeps(m: Machine, turn: Turn)
    requires Inv(m) && m.pc.InReset()
    ensures Inv(InReset(m, turn))
  {
  }

  lemma WaitKeeps(m: Machine, turn: Turn)
    requires Inv(m) && (m.pc.Waiting? || m.pc.Waited?)
    ensures Inv(InWait(m, turn))
  {
  }

  lemma RequestKeeps(m: Machine, turn: Turn)
    requires Inv(m) && (m.pc.Requesting? || m.pc.Requested?)
    ensures Inv(InRequest(m, turn))
  {
  }

  lemma EndKeeps(m: Machine)
    requires Inv(m) && (m.pc in {Powering, Settled, Piped, Addressing, Failing, Detaching} || m.pc.Pausing?)
    ensures Inv(AtEnd(m))
  {
  }

  lemma InterruptKeeps(m: Machine)
    requires Inv(m)
    ensures Inv(Struck(m))
  {
    hide Placed, Counted, Armed, Struck;
    InterruptPlaced(m);
    InterruptCounted(m);
    InterruptArmed(m);
  }

  lemma InterruptPlaced(m: Machine)
    requires Placed(m)
    ensures Placed(Struck(m))
  {
  }

  lemma InterruptCounted(m: Machine)
    requires Counted(m)
    ensures Counted(Struck(m))
  {
  }

  lemma InterruptArmed(m: Machine)
    requires Armed(m)
    ensures Armed(Struck(m))
  {
  }

  lemma EventKeeps(m: Machine, event: Event)
    requires Inv(m)
    ensures Inv(React(m, event))
  {
    match event {
      case Work(turn) =>
        hide Task, Inv;
        TaskKeeps(m, turn);
      case Isr =>
        hide Struck, Inv;
        InterruptKeeps(m);
      case _ =>
        hide Task, Struck, Achieved, Progress, Seen;
    }
  }

  lemma InvMeans(m: Machine)
    requires Inv(m)
    ensures m.pc == Poll && m.h.state == WaitForDevice ==> m.h.waitMs > 0
    ensures m.pc == Poll && m.h.state == Addressed ==>
              m.h.deviceAddress == 1 && (m.h.resets == 2 && m.h.addressAccepted <==> m.lost == NOTHING)
  {
  }

  /**
   * Whether the device that is attached in the end has been spared: its attachment did not strike a call that had
   * already achieved something, or a later call has found the machine in Powered and started over.
   */
  predicate Spared(m: Machine, spared: bool, events: seq<Event>)
    decreases |events|
  {
    if events == [] then spared else
    var now := if events[0] == Isr && Attaches(m.h) then Achieved(m) == NOTHING
               else spared || (events[0].Work? && m.pc == Poll && m.h.state == Powered);
    Spared(React(m, events[0]), now, events[1..])
  }

  lemma {:induction false} SparedLosesNothing(m: Machine, events: seq<Event>)
    ensures ReactAll(m, events).lost == NOTHING <==> Spared(m, m.lost == NOTHING, events)
    decreases |events|
  {
    if events != [] {
      EventLoses(m, events[0]);
      hide React, Attaches, Achieved;
      SparedLosesNothing(React(m, events[0]), events[1..]);
    }
  }

  lemma EventLoses(m: Machine, event: Event)
    ensures React(m, event).lost == if event == Isr && Attaches(m.h) then Achieved(m)
                                    else if event.Work? && m.pc == Poll && m.h.state == Powered then NOTHING
                                    else m.lost
  {
    hide Attaches, Achieved, Interrupt;
  }

  /**
   * In every interleaving of the statements of the calls with interrupts, with any faults, a wait never has zero
   * milliseconds left, and a device is only ever addressed under address 1 and with two bus resets and an accepted
   * SetAddress accounted for. The device has seen all of them itself if and only if it has been spared.
   */
  lemma AlwaysOrderly(m: Machine, events: seq<Event>)
    requires Inv(m)
    ensures var after := ReactAll(m, events);
            && Inv(after)
            && (after.pc == Poll && after.h.state == WaitForDevice ==> after.h.waitMs > 0)
            && (after.pc == Poll && after.h.state == Addressed ==>
                  && after.h.deviceAddress == 1
                  && (after.h.resets == 2 && after.h.addressAccepted <==> Spared(m, m.lost == NOTHING, events)))
  {
    hide ReactAll, Inv, Spared;
    AlwaysInv(m, events);
    InvMeans(ReactAll(m, events));
    SparedLosesNothing(m, events);
  }

  lemma {:induction false} AlwaysInv(m: Machine, events: seq<Event>)
    requires Inv(m)
    ensures Inv(ReactAll(m, events))
    decreases |events|
  {
    hide React, Inv;
    if events != [] {
      EventKeeps(m, events[0]);
      AlwaysInv(React(m, events[0]), events[1..]);
    }
  }

  // The stages, in plain numbers

  /**
   * What a fault-free call makes of each state: 1500 ms to settle; 100 ms after the connection; a bus reset and 200 ms;
   * the control pipe; the device's packet size, a second bus reset and 200 ms; the address accepted and 100 ms; address 1.
   * The packet size is the one the device has reported, and no other call touches it.
   */
  lemma FaultFreeStages(h: Host, turn: Turn)
    requires turn.FaultFree()
    ensures var after := Step(h, turn);
            && (h.state != Default ==> after.pipeSize == h.pipeSize)
            && match h.state
               case WaitForDevice =>
                 h.waitMs > 0 ==> after == h.(waitMs := h.waitMs - 1, state := if h.waitMs == 1 then h.postWait else WaitForDevice)
               case Powered => after == h.(state := WaitForDeviceSettle, waitMs := 1500)
               case WaitForDeviceSettle =>
                 if h.waitMs > 0 then after == h.(waitMs := h.waitMs - 1) else after == h.(state := WaitForConnect, waitMs := 0xFFFF)
               case WaitForConnect =>
                 if !h.connected then after == h
                 else
                   && (after.state, after.waitMs, after.postWait) == (WaitForDevice, 100, DoReset)
                   && !after.connected && !after.pending.disconnect && !after.pending.vbusError && after.enabled.vbusError
               case DoReset =>
                 && (after.state, after.waitMs, after.postWait, after.resets) == (WaitForDevice, 200, ConfigPipe, h.resets + 1)
                 && after.enabled.disconnect && after.pending.disconnect == (h.pending.disconnect && turn.frameAfter >= 10)
               case ConfigPipe => after == h.(state := Default)
               case Default =>
                 && (after.state, after.waitMs, after.postWait, after.resets) == (WaitForDevice, 200, PostReset, h.resets + 1)
                 && after.enabled.disconnect && after.pending.disconnect == (h.pending.disconnect && turn.frameAfter >= 10)
                 && after.pipeSize == turn.endpointSize
               case PostReset => after == h.(state := WaitForDevice, waitMs := 100, postWait := PostAddressSet, addressAccepted := true)
               case PostAddressSet => after == h.(state := Addressed, deviceAddress := 1)
               case _ => after == h
  {
  }

  /**
   * What the interrupt makes of a single source: a disconnection or a failed connection resets the interface, a VBUS
   * dip only detaches, and an attachment powers; a disabled source changes nothing.
   */
  lemma InterruptSources(h: Host)
    requires h.pending == NONE
    ensures var after := Interrupt(h.(pending := NONE.(disconnect := true)));
            if h.enabled.disconnect then
              after == h.(state := Unattached, pending := Flags(false, false, false, false), connected := false,
                          enabled := Flags(false, false, true, true))
            else after == h.(pending := NONE.(disconnect := true))
    ensures var after := Interrupt(h.(pending := NONE.(connectError := true)));
            if h.enabled.connectError then
              after == h.(state := Unattached, pending := Flags(false, false, false, false), connected := false,
                          enabled := Flags(false, false, true, true))
            else after == h.(pending := NONE.(connectError := true))
    ensures Interrupt(h.(pending := NONE.(vbusError := true))) ==
            if h.enabled.vbusError then h.(state := Unattached) else h.(pending := NONE.(vbusError := true))
    ensures var after := Interrupt(h.(pending := NONE.(session := true)));
            if h.enabled.session then
              && after.state == Powered && after.pending == NONE && after.connected == h.connected
              && after.enabled == h.enabled.(session := false, disconnect := true)
            else after == h.(pending := NONE.(session := true))
  {
  }

  /**
   * While the host begins to watch a device, what happens late enough is not forgotten: another connection after the
   * first of its statements, a disconnection after the second, a VBUS dip after the third.
   */
  lemma LateFlagsSurvive(m: Machine, f: Flags, turn: Turn)
    requires m.pc.Connecting? && 1 <= m.pc.left <= 4
    ensures var after := Finish(React(React(m, Connect), Raise(f)), turn).h;
            && (after.connected <==> m.pc.left < 4)
            && (after.pending.disconnect <==> (m.h.pending.disconnect || f.disconnect) && m.pc.left < 3)
            && (after.pending.vbusError <==> (m.h.pending.vbusError || f.vbusError) && m.pc.left < 2)
            && (after.pending.session <==> m.h.pending.session || f.session)
            && (after.pending.connectError <==> m.h.pending.connectError || f.connectError)
            && after.enabled.vbusError && (after.state, after.waitMs, after.postWait) == (WaitForDevice, 100, DoReset)
  {
    var m1 := React(React(m, Connect), Raise(f));
    var m2 := Task(m1, turn);
    var m3 := Task(m2, turn);
    var m4 := Task(m3, turn);
    FinishStep(m1, turn);
    FinishStep(m2, turn);
    FinishStep(m3, turn);
    FinishStep(m4, turn);
    FinishStep(Task(m4, turn), turn);
  }

  // Failures

  /** Whether this call meets a fault that its state asks about. */
  predicate Fails(h: Host, turn: Turn) {
    match h.state
    case WaitForDevice => h.waitMs > 0 && turn.waitCode != NO_ERROR
    case ConfigPipe => !turn.pipeConfigured
    case Default => turn.controlCode != NO_ERROR
    case PostReset => !turn.pipeConfigured || turn.controlCode != NO_ERROR
    case _ => false
  }

  /**
   * A call that nothing interrupts detaches the device exactly when it fails, and then it also waits for a new
   * session with all flags clear.
   */
  lemma FailingCallDetaches(m: Machine, turn: Turn)
    requires Inv(m) && m.pc == Poll && m.h.state != Unattached
    ensures Step(m.h, turn).state == Unattached <==> Fails(m.h, turn)
    ensures Fails(m.h, turn) ==> Step(m.h, turn).pending == NONE && Step(m.h, turn).enabled == Flags(false, false, true, true)
  {
  }

  /** The events are the rest of a call: the last of them, and no other, ends it. */
  predicate Ends(m: Machine, events: seq<Event>)
    decreases |events|
  {
    events != [] && m.pc != Poll &&
    var next := React(m, events[0]);
    if next.pc == Poll then |events| == 1 else Ends(next, events[1..])
  }

  /** A call that has met a fault. */
  predicate Faulty(pc: Pc) {
    pc == Failing || pc == Detaching || ((pc.Requested? || pc.Waited?) && pc.code != NO_ERROR)
  }

  /** Whatever interrupts strike the rest of it, such a call ends Unattached. */
  lemma {:induction false} FaultyCallEnds(m: Machine, events: seq<Event>)
    requires Faulty(m.pc) && Ends(m, events)
    ensures ReactAll(m, events).pc == Poll && ReactAll(m, events).h.state == Unattached
    decreases |events|
  {
    hide Interrupt;
    var next := React(m, events[0]);
    if next.pc == Poll {
      assert events[1..] == [];
    } else {
      FaultyCallEnds(next, events[1..]);
    }
  }

  /** What becomes of a detachment that strikes in the middle of a call. */
  datatype Fate = Kept | ResetAgain | Overwritten

  /** The rest of the call ends without a write to the state, resets the interface once more, or writes the state. */
  function FateOf(m: Machine): Fate {
    match m.pc
    case Poll => Kept
    case Requesting(_) => Kept
    case Requested(_, code) => if code != NO_ERROR then Kept else Overwritten
    case Waiting => ResetAgain
    case Waited(code) => if code != NO_ERROR then ResetAgain else if m.h.waitMs > 1 then Kept else Overwritten
    case Failing => Kept
    case Detaching => ResetAgain
    case _ => Overwritten
  }

  /** The rest of a call, with any faults but no interrupts. */
  function Complete(m: Machine, turns: seq<Turn>): Machine
    decreases |turns|
  {
    if m.pc == Poll || turns == [] then m else Complete(Task(m, turns[0]), turns[1..])
  }

  /**
   * The call notices a detachment if it still waits for a frame, in a request or on its own; it overwrites it in all
   * other places from which it still writes the state. Where it keeps it, the interrupts stay as they were, so that a
   * VBUS dip during a request leaves the host stranded.
   */
  lemma {:induction false} DetachedCallEnds(m: Machine, turns: seq<Turn>)
    requires Placed(m) && m.h.state == Unattached && Complete(m, turns).pc == Poll
    ensures var after := Complete(m, turns).h;
            match FateOf(m)
            case Kept => after.state == Unattached && after.enabled == m.h.enabled && after.pending == m.h.pending
            case ResetAgain => after.state == Unattached && after.enabled == Flags(false, false, true, true) && after.pending == NONE
            case Overwritten => after.state != Unattached
    ensures Stranded(Complete(m, turns)) <==> FateOf(m) == Kept && !m.h.enabled.session
    decreases |turns|
  {
    if m.pc != Poll {
      var next := Task(m, turns[0]);
      if m.pc.Waited? && m.pc.code != NO_ERROR {
        var detaching := Task(next, turns[1]);
        assert Complete(next, turns[1..]) == Complete(detaching, turns[1..][1..]);
        assert Complete(detaching, turns[1..][1..]) == Task(detaching, turns[2]);
      } else if next.h.state == Unattached {
        DetachedCallEnds(next, turns[1..]);
      }
    }
  }

  // A VBUS dip

  /** Detached, and no attachment will be noticed. */
  predicate Stranded(m: Machine) {
    m.pc == Poll && m.h.state == Unattached && !m.h.enabled.session
  }

  predicate Raised(flags: Flags) { flags.disconnect || flags.connectError }

  /** Between calls exactly those interrupts strand the host that find a VBUS dip alone, after the session has begun. */
  lemma DipStrands(m: Machine)
    requires Inv(m) && m.pc == Poll && !Stranded(m)
    ensures Stranded(Struck(m)) <==>
            && m.h.pending.vbusError && m.h.enabled.vbusError && !m.h.enabled.session
            && !(m.h.pending.disconnect && m.h.enabled.disconnect) && !m.h.pending.connectError
  {
  }

  /** Whether some interrupt finds a disconnection or a failed connection raised before it. */
  predicate Freed(raised: bool, events: seq<Event>)
    decreases |events|
  {
    events != [] &&
    match events[0]
    case Isr => raised || Freed(raised, events[1..])
    case Raise(flags) => Freed(raised || Raised(flags), events[1..])
    case _ => Freed(raised, events[1..])
  }

  /** A stranded host stays so, whatever is attached, if and only if no such interrupt comes. */
  lemma {:induction false} StrandedUntilFreed(m: Machine, events: seq<Event>)
    requires Inv(m) && Stranded(m)
    ensures (forall k :: 0 <= k <= |events| ==> Stranded(ReactAll(m, events[..k]))) <==> !Freed(Raised(m.h.pending), events)
    decreases |events|
  {
    if events != [] {
      var next, rest := React(m, events[0]), events[1..];
      forall k | 0 <= k <= |rest| ensures ReactAll(next, rest[..k]) == ReactAll(m, events[..k + 1]) {
        assert events[..k + 1][1..] == rest[..k];
      }
      assert Stranded(ReactAll(m, events[..0]));
      if events[0] == Isr && Raised(m.h.pending) {
        FreedHostReturns(m);
        assert rest[..0] == [];
        assert !Stranded(ReactAll(m, events[..0 + 1]));
      } else {
        KeptStranded(m, events[0]);
        StrandedUntilFreed(next, rest);
        assert forall k :: 0 < k <= |events| ==> ReactAll(m, events[..k]) == ReactAll(next, rest[..k - 1]);
      }
    }
  }

  lemma KeptStranded(m: Machine, event: Event)
    requires Inv(m) && Stranded(m) && (event == Isr ==> !Raised(m.h.pending))
    ensures var next := React(m, event);
            && Inv(next) && Stranded(next)
            && Raised(next.h.pending) == (Raised(m.h.pending) || (event.Raise? && Raised(event.flags)))
  {
  }

  /** The interrupt that frees a stranded host resets its interface, and the next attachment powers the device. */
  lemma FreedHostReturns(m: Machine)
    requires Inv(m) && Stranded(m) && Raised(m.h.pending)
    ensures var freed := Struck(m);
            && freed.h == ResetInterface(m.h) && !Stranded(freed)
            && React(React(freed, Raise(NONE.(session := true))), Isr).h.state == Powered
  {
  }

  // Runs from power-up

  const START := Machine(Host(Unattached, 0, WaitForDeviceRemoval, 64, NONE, Flags(false, false, true, true),
                              false, 0, false, 0), Poll, NOTHING)

  /** So all that is said of every run holds from power-up on. */
  lemma OrderlyFromPowerUp(events: seq<Event>)
    ensures var after := ReactAll(START, events);
            && Inv(after)
            && (after.pc == Poll && after.h.state == Addressed ==>
                  (after.h.resets == 2 && after.h.addressAccepted <==> Spared(START, true, events)))
  {
    hide ReactAll, Spared;
    assert Inv(START);
    AlwaysOrderly(START, events);
  }

  ghost predicate Reachable(m: Machine) {
    exists events :: ReactAll(START, events) == m
  }

  lemma {:induction false} ReactAllConcat(m: Machine, a: seq<Event>, b: seq<Event>)
    ensures ReactAll(m, a + b) == ReactAll(ReactAll(m, a), b)
    decreases |a|
  {
    hide React;
    if a == [] {
      assert a + b == b;
    } else {
      assert (a + b)[1..] == a[1..] + b;
      ReactAllConcat(React(m, a[0]), a[1..], b);
    }
  }

  lemma Reach(m: Machine, event: Event) returns (next: Machine)
    requires Reachable(m)
    ensures Reachable(next) && next == React(m, event)
  {
    hide React;
    next := React(m, event);
    var events :| ReactAll(START, events) == m;
    ReactAllConcat(START, events, [event]);
    assert ReactAll(START, events + [event]) == ReactAll(next, [event][1..]) == next;
  }

  lemma {:induction false} ReachFinish(m: Machine, turn: Turn)
    requires Reachable(m)
    ensures Reachable(Finish(m, turn))
    decreases Ahead(m.pc)
  {
    hide Task;
    if m.pc != Poll {
      StatementsEnd(m, turn);
      var next := Reach(m, Work(turn));
      ReachFinish(next, turn);
    }
  }

  /** Between calls the machine may make a whole one. */
  lemma ReachCall(m: Machine, turn: Turn) returns (next: Machine)
    requires Reachable(m) && m.pc == Poll
    ensures Reachable(next) && next.pc == Poll && next.h == Step(m.h, turn)
    ensures m.h.state != Powered ==> next.lost == m.lost
  {
    var begun := Reach(m, Work(turn));
    ReachFinish(begun, turn);
    CallIsSteps(m.h, m.lost, turn);
    FinishKeepsLost(begun, turn);
    next := Finish(begun, turn);
  }

  lemma {:induction false} FinishKeepsLost(m: Machine, turn: Turn)
    ensures m.pc != Poll ==> Finish(m, turn).lost == m.lost
    decreases Ahead(m.pc)
  {
    if m.pc != Poll {
      StatementsEnd(m, turn);
      FinishKeepsLost(Task(m, turn), turn);
    }
  }

  const FINE := Turn(NO_ERROR, true, NO_ERROR, 64, 0)

  /** Calls until a wait, or the settling of the device, is over. */
  lemma {:induction false} ReachEndOfWait(m: Machine) returns (next: Machine)
    requires Reachable(m) && m.pc == Poll
    requires m.h.state == WaitForDeviceSettle || (m.h.state == WaitForDevice && m.h.waitMs > 0)
    ensures Reachable(next) && next.pc == Poll && next.lost == m.lost
    ensures next.h == m.h.(waitMs := 0, state := if m.h.state == WaitForDevice then m.h.postWait else m.h.state)
    decreases m.h.waitMs
  {
    next := m;
    if m.h.waitMs > 0 {
      next := ReachCall(m, FINE);
      if m.h.waitMs > 1 || m.h.state == WaitForDeviceSettle {
        next := ReachEndOfWait(next);
      }
    }
  }

  /** A device is attached, settles and connects. */
  lemma ReachConnected() returns (m: Machine)
    ensures Reachable(m) && m.pc == Poll && m.lost == NOTHING && m.h.resets == 0 && !m.h.addressAccepted
    ensures m.h.state == WaitForDevice && m.h.waitMs == 100 && m.h.postWait == DoReset
    ensures m.h.pending == NONE && m.h.enabled == Flags(true, true, false, true)
  {
    assert ReactAll(START, []) == START;
    m := Reach(START, Raise(NONE.(session := true)));
    m := Reach(m, Isr);
    m := Reach(m, Work(FINE));
    m := Reach(m, Work(FINE));
    assert m.pc == Poll && m.h.state == WaitForDeviceSettle && m.lost == NOTHING;
    m := ReachEndOfWait(m);
    m := ReachCall(m, FINE);
    m := Reach(m, Connect);
    m := ReachCall(m, FINE);
  }

  /** A dip strands a host that has been running normally. */
  lemma DipHappens()
    ensures exists events :: Stranded(ReactAll(START, events))
  {
    var m := ReachConnected();
    m := Reach(m, Raise(NONE.(vbusError := true)));
    m := Reach(m, Isr);
    assert Stranded(m);
  }

  /**
   * A failed connection and a new attachment during the first bus reset go unnoticed: the new device ends up
   * addressed with a single bus reset.
   */
  lemma ResetLost()
    ensures exists events :: var after := ReactAll(START, events); after.pc == Poll && after.h.state == Addressed && after.h.resets == 1
  {
    hide React, Step;
    var m := ReachConnected();
    m := ReachEndOfWait(m);
    m := ReachStruckReset(m);
    m := ReachEndOfWait(m);
    m := ReachAddressed(m);
    assert m.pc == Poll && m.h.state == Addressed && m.h.resets == 1;
  }

  lemma ReachStruckReset(m: Machine) returns (next: Machine)
    requires Reachable(m) && m.pc == Poll && m.h.state == DoReset && m.h.pending == NONE && m.h.enabled.connectError
    ensures Reachable(next) && next.pc == Poll && next.h.resets == 0
    ensures next.h.state == WaitForDevice && next.h.waitMs == 200 && next.h.postWait == ConfigPipe
  {
    hide Interrupt;
    next := Reach(m, Work(FINE));
    next := Reach(next, Work(FINE));
    next := Reach(next, Work(FINE));
    next := ReachReattached(next);
    assert next.pc == Framing(ConfigPipe, 10);
    ReachFinish(next, FINE);
    FinishFraming(next, FINE);
    next := Finish(next, FINE);
  }

  lemma ReachAddressed(m: Machine) returns (next: Machine)
    requires Reachable(m) && m.pc == Poll && m.h.state == ConfigPipe
    ensures Reachable(next) && next.pc == Poll && next.h.state == Addressed && next.h.resets == m.h.resets + 1
  {
    hide React;
    next := ReachCall(m, FINE);
    next := ReachCall(next, FINE);
    next := ReachEndOfWait(next);
    next := ReachCall(next, FINE);
    next := ReachEndOfWait(next);
    next := ReachCall(next, FINE);
  }

  lemma ReachReattached(m: Machine) returns (next: Machine)
    requires Reachable(m) && m.h.pending == NONE && m.h.enabled.connectError
    ensures Reachable(next) && next.pc == m.pc && next.h.state == Powered && next.h.resets == 0 && !next.h.addressAccepted
  {
    next := Reach(m, Raise(NONE.(connectError := true)));
    next := Reach(next, Isr);
    next := Reach(next, Raise(NONE.(session := true)));
    next := Reach(next, Isr);
  }

  // Time to enumerate

  /** The number of calls that a fault-free enumeration still takes, apart from polls that find no connection. */
  function Rank(m: Machine): nat {
    var h := m.h;
    match m.pc
    case Poll =>
      (match h.state
       case WaitForDevice => h.waitMs + Remaining(h.postWait)
       case WaitForDeviceSettle => h.waitMs + Remaining(WaitForDeviceSettle)
       case s => Remaining(s))
    case Powering => SETTLE_DELAY_MS + Remaining(WaitForDeviceSettle)
    case Settled => Remaining(WaitForConnect)
    case Connecting(_) => 100 + Remaining(DoReset)
    case Disabling(target) => 200 + Remaining(target)
    case Resetting(target) => 200 + Remaining(target)
    case Framing(target, _) => 200 + Remaining(target)
    case Reenabling(target) => 200 + Remaining(target)
    case Pausing(ms, target) => ms + Remaining(target)
    case Waiting => if h.waitMs > 0 then h.waitMs - 1 + Remaining(h.postWait) else 0
    case Waited(_) => if h.waitMs > 0 then h.waitMs - 1 + Remaining(h.postWait) else 0
    case Piped => Remaining(Default)
    case Requesting(from) => if from == Default then 200 + Remaining(PostReset) else 100 + Remaining(PostAddressSet)
    case Requested(from, _) => if from == Default then 200 + Remaining(PostReset) else 100 + Remaining(PostAddressSet)
    case _ => 0
  }

  function Remaining(s: State): nat {
    match s
    case Powered => 1 + SETTLE_DELAY_MS + 607
    case WaitForDeviceSettle => 607
    case WaitForConnect => 606
    case DoReset => 505
    case ConfigPipe => 304
    case Default => 303
    case PostReset => 102
    case PostAddressSet => 1
    case _ => 0
  }
  predicate Smooth(event: Event) { event == Connect || (event.Work? && event.turn.FaultFree()) }

  /** Events that do not begin a working call: the statements within one, and polls that find no connection. */
  predicate Idles(m: Machine, event: Event) {
    event == Connect || m.pc != Poll || (m.h.state == WaitForConnect && !m.h.connected)
  }

  /** The calls begun among the events, without the polls that find no connection. */
  function Calls(m: Machine, events: seq<Event>): nat
    decreases |events|
  {
    if events == [] then 0
    else (if Idles(m, events[0]) then 0 else 1) + Calls(React(m, events[0]), events[1..])
  }

  /** An enumeration in which nothing has failed. */
  ghost predicate Enumerating(m: Machine) {
    && Placed(m) && m.h.state != Unattached && (m.pc == Poll || m.h.state == Seen(m.pc))
    && m.pc != Failing && m.pc != Detaching
    && (m.pc.Waited? || m.pc.Requested? ==> m.pc.code == NO_ERROR)
  }

  predicate Done(m: Machine) { m.pc == Poll && m.h.state == Addressed }

  lemma RankFalls(m: Machine, event: Event)
    requires Enumerating(m) && Smooth(event)
    ensures var next := React(m, event);
            && Enumerating(next)
            && (if Done(m) then Done(next) else Rank(next) == Rank(m) - (if Idles(m, event) then 0 else 1))
  {
    if event.Work? && m.pc == Poll {
      DispatchFalls(m, event.turn);
    } else if event.Work? {
      hide InConnection, InReset, InWait, InRequest, AtEnd, Rank, Enumerating, Dispatch;
      StatementKeepsRank(m, event.turn);
    }
  }

  lemma DispatchFalls(m: Machine, turn: Turn)
    requires Enumerating(m) && m.pc == Poll && turn.FaultFree()
    ensures var next := Dispatch(m, turn);
            && Enumerating(next)
            && (if Done(m) then Done(next) else Rank(next) == Rank(m) - (if Idles(m, Work(turn)) then 0 else 1))
  {
    DispatchGoesOn(m, turn);
    hide Placed, Seen, Enumerating;
  }

  lemma DispatchGoesOn(m: Machine, turn: Turn)
    requires Enumerating(m) && m.pc == Poll && turn.FaultFree()
    ensures Enumerating(Dispatch(m, turn))
  {
  }

  ghost predicate SameRank(m: Machine, next: Machine) { Enumerating(next) && Rank(next) == Rank(m) }

  lemma StatementKeepsRank(m: Machine, turn: Turn)
    requires Enumerating(m) && m.pc != Poll && turn.FaultFree()
    ensures SameRank(m, Task(m, turn))
  {
    hide InConnection, InReset, InWait, InRequest, AtEnd, SameRank, Enumerating;
    if m.pc.InReset() {
      ResetKeepsRank(m, turn);
    } else if m.pc.Requesting? || m.pc.Requested? {
      RequestKeepsRank(m, turn);
    } else if m.pc.Waiting? || m.pc.Waited? {
      WaitKeepsRank(m, turn);
    } else if m.pc.Connecting? {
      ConnectionKeepsRank(m);
    } else {
      EndKeepsRank(m);
    }
  }

  lemma ResetKeepsRank(m: Machine, turn: Turn)
    requires Enumerating(m) && m.pc.InReset()
    ensures SameRank(m, InReset(m, turn))
  {
  }

  lemma RequestKeepsRank(m: Machine, turn: Turn)
    requires Enumerating(m) && (m.pc.Requesting? || m.pc.Requested?) && turn.FaultFree()
    ensures SameRank(m, InRequest(m, turn))
  {
  }

  lemma WaitKeepsRank(m: Machine, turn: Turn)
    requires Enumerating(m) && (m.pc.Waiting? || m.pc.Waited?) && turn.FaultFree()
    ensures SameRank(m, InWait(m, turn))
  {
  }

  lemma ConnectionKeepsRank(m: Machine)
    requires Enumerating(m) && m.pc.Connecting?
    ensures SameRank(m, InConnection(m))
  {
  }

  lemma EndKeepsRank(m: Machine)
    requires Enumerating(m) && (m.pc in {Powering, Settled, Piped, Addressing, Failing, Detaching} || m.pc.Pausing?)
    ensures SameRank(m, AtEnd(m))
  {
  }

  /** No calls are left exactly when the device is addressed, or will be at the end of this call. */
  lemma RankZero(m: Machine)
    requires Enumerating(m)
    ensures Rank(m) == 0 <==> Done(m) || m.pc == Addressing
  {
  }

  /**
   * Without faults every working call brings the end one call nearer, so a device is addressed after exactly as
   * many of them as the rank says and not earlier.
   */
  lemma {:induction false} EnumerationTakes(m: Machine, events: seq<Event>)
    requires Enumerating(m)
    requires forall e :: e in events ==> Smooth(e)
    requires Calls(m, events) <= Rank(m)
    ensures var after := ReactAll(m, events);
            after.h.state != Unattached && (after.pc == Poll ==> (Done(after) <==> Calls(m, events) == Rank(m)))
    decreases |events|
  {
    hide React, Rank;
    RankZero(m);
    if events != [] {
      RankFalls(m, events[0]);
      var next := React(m, events[0]);
      RankZero(next);
      EnumerationTakes(next, events[1..]);
    }
  }

  /** A freshly powered device is addressed by the 2108th working call. */
  lemma PoweredToAddressed(m: Machine, events: seq<Event>)
    requires m.pc == Poll && m.h.state == Powered
    requires forall e :: e in events ==> Smooth(e)
    requires Calls(m, events) <= 2108
    ensures var after := ReactAll(m, events);
            after.pc == Poll ==> (after.h.state == Addressed <==> Calls(m, events) == 2108)
  {
    EnumerationTakes(m, events);
  }

  // The driver

  class HostMachine {
    var state: State
    var waitMs: nat
    var postWait: State
    var pipeSize: nat
    var pending: Flags
    var enabled: Flags
    var connected: bool
    var resets: nat
    var addressAccepted: bool
    var deviceAddress: nat

    function View(): Host
      reads this
    {
      Host(state, waitMs, postWait, pipeSize, pending, enabled, connected, resets, addressAccepted, deviceAddress)
    }

    constructor ()
      ensures View() == START.h
    {
      state, waitMs, postWait, pipeSize := Unattached, 0, WaitForDeviceRemoval, 64;
      pending, enabled, connected := NONE, Flags(false, false, true, true), false;
      resets, addressAccepted, deviceAddress := 0, false, 0;
    }

    method ResetBus(frameAfter: nat)
      modifies this
      ensures View() == ResetDevice(old(View()), frameAfter)
    {
      enabled := enabled.(disconnect := false);
      resets := resets + 1;
      var msRem := 10;
      while msRem != 0
        invariant 0 <= msRem <= 10 && 10 - msRem <= frameAfter
        invariant View() == old(View()).(resets := old(resets) + 1, enabled := old(enabled).(disconnect := false))
      {
        if 10 - msRem == frameAfter {
          pending := pending.(disconnect := false);
          break;
        }
        msRem := msRem - 1;
      }
      enabled := enabled.(disconnect := true);
    }

    method StartWait(ms: nat, next: State)
      modifies this
      ensures View() == NonBlockingWait(old(View()), ms, next)
    {
      state, waitMs, postWait := WaitForDevice, ms, next;
    }

    method Reset()
      modifies this
      ensures View() == ResetInterface(old(View()))
    {
      enabled, pending, connected := NONE, NONE, false;
      state := Unattached;
      enabled := enabled.(session := true, connectError := true);
    }

    method ProcessNextHostState(turn: Turn)
      modifies this
      ensures View() == Step(old(View()), turn)
    {
      hide ResetDevice, NonBlockingWait, ResetInterface;
      var error := false;
      match state {
        case WaitForDevice =>
          if waitMs > 0 {
            if turn.waitCode != NO_ERROR {
              state := postWait;
              error := true;
            } else {
              waitMs := waitMs - 1;
              if waitMs == 0 {
                state := postWait;
              }
            }
          }
        case Powered =>
          waitMs := SETTLE_DELAY_MS;
          state := WaitForDeviceSettle;
        case WaitForDeviceSettle =>
          if waitMs > 0 {
            waitMs := waitMs - 1;
          } else {
            waitMs := 0xFFFF;
            state := WaitForConnect;
          }
        case WaitForConnect =>
          if connected {
            connected := false;
            pending := pending.(disconnect := false, vbusError := false);
            enabled := enabled.(vbusError := true);
            StartWait(100, DoReset);
          }
        case DoReset =>
          ResetBus(turn.frameAfter);
          StartWait(200, ConfigPipe);
        case ConfigPipe =>
          if !turn.pipeConfigured {
            error := true;
          } else {
            state := Default;
          }
        case Default =>
          if turn.controlCode != NO_ERROR {
            error := true;
          } else {
            pipeSize := turn.endpointSize;
            ResetBus(turn.frameAfter);
            StartWait(200, PostReset);
          }
        case PostReset =>
          if !turn.pipeConfigured || turn.controlCode != NO_ERROR {
            error := true;
          } else {
            addressAccepted := true;
            StartWait(100, PostAddressSet);
          }
        case PostAddressSet =>
          deviceAddress := 1;
          state := Addressed;
        case _ =>
      }
      if error && state != Unattached {
        Reset();
      }
    }

    method GeneralInterrupt()
      modifies this
      ensures View() == Interrupt(old(View()))
    {
      if pending.disconnect && enabled.disconnect {
        Reset();
      }
      if pending.vbusError && enabled.vbusError {
        pending := pending.(vbusError := false);
        state := Unattached;
      }
      if pending.session && enabled.session {
        pending := pending.(session := false);
        enabled := enabled.(session := false, disconnect := true);
        state, resets, addressAccepted := Powered, 0, false;
      }
      if pending.connectError && enabled.connectError {
        Reset();
      }
    }
  }
}
