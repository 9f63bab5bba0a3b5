/** The HID report sender of the emulated controller: reports on change, and at the idle rate the host has set. */
module IdleReports {
  import opened Bits

  type Report = seq<byte>

  const CHANGES_ONLY := 0

  /** The sender's variables and every report written to the endpoint so far. */
  datatype Sender = Sender(idleCount: nat, idleMs: nat, previous: Report, sent: seq<Report>)

  /** One millisecond has passed. */
  function Tick(s: Sender): Sender {
    if s.idleMs > 0 then s.(idleMs := s.idleMs - 1) else s
  }

  predicate Elapsed(s: Sender) { s.idleCount != CHANGES_ONLY && s.idleMs == 0 }

  /** One run of the report sender; an elapsed idle period starts over even if the endpoint is not ready. */
  function Task(s: Sender, report: Report, ready: bool): Sender {
    var due := report != s.previous || Elapsed(s);
    var restarted := if Elapsed(s) then s.(idleMs := s.idleCount) else s;
    if ready && due then restarted.(previous := report, sent := s.sent + [report]) else restarted
  }

  /** The idle rate arrives in units of four milliseconds in the high byte. */
  function SetIdle(s: Sender, value: nat): Sender {
    s.(idleCount := (value / 256 * 256) / 64 % 0x10000)
  }

  function GetIdle(s: Sender): byte {
    s.idleCount / 4 % 256
  }

  datatype Event = Millisecond | Run(report: Report, ready: bool) | Idle(value: nat)

  function React(s: Sender, event: Event): Sender {
    match event
    case Millisecond => Tick(s)
    case Run(report, ready) => Task(s, report, ready)
    case Idle(value) => SetIdle(s, value)
  }

  function ReactAll(s: Sender, events: seq<Event>): Sender
    decreases |events|
  {
    if events == [] then s else ReactAll(React(s, events[0]), events[1..])
  }

  /** The report the host got last, or `initial` if none. */
  function LastSent(sent: seq<Report>, initial: Report): Report {
    if sent == [] then initial else sent[|sent| - 1]
  }

  /** In every run the saved report is the one the host got last. */
  lemma {:induction false} SavedIsLastSent(s: Sender, initial: Report, events: seq<Event>)
    requires s.previous == LastSent(s.sent, initial)
    ensures var after := ReactAll(s, events); after.previous == LastSent(after.sent, initial)
    decreases |events|
  {
    if events != [] {
      SavedIsLastSent(React(s, events[0]), initial, events[1..]);
    }
  }

  /** So a report that still differs goes out at the first ready run, however long the endpoint was busy before. */
  lemma ReadyRunCatchesUp(s: Sender, initial: Report, events: seq<Event>, report: Report)
    requires s.previous == LastSent(s.sent, initial)
    ensures var before := ReactAll(s, events);
            var after := Task(before, report, true);
            && LastSent(after.sent, initial) == report
            && (LastSent(before.sent, initial) != report ==> after.sent == before.sent + [report])
  {
    SavedIsLastSent(s, initial, events);
  }

  /** The host reads back the rate it has set, which does not touch the period that is running. */
  lemma IdleRoundTrip(s: Sender, value: nat)
    requires value < 0x10000
    ensures GetIdle(SetIdle(s, value)) == value / 256 && SetIdle(s, value) == s.(idleCount := 4 * (value / 256))
  {
  }

  // Timing: one frame and then one run of the sender, every millisecond

  datatype Turn = Turn(report: Report, ready: bool)

  function Advance(s: Sender, turn: Turn): Sender { Task(Tick(s), turn.report, turn.ready) }

  function AdvanceAll(s: Sender, turns: seq<Turn>): Sender
    decreases |turns|
  {
    if turns == [] then s else AdvanceAll(Advance(s, turns[0]), turns[1..])
  }

  // When an idle period ends, and what is sent

  /** The number of the first millisecond, from 1, at which the idle period is over. */
  function FirstDue(s: Sender): nat { if s.idleMs > 0 then s.idleMs else 1 }

  predicate IsMultiple(n: nat, c: nat)
    requires c > 0
  {
    n == 0 || (n >= c && IsMultiple(n - c, c))
  }

  /** Whether the n-th millisecond from now, counting from 1, ends an idle period. */
  predicate Due(s: Sender, n: nat) {
    s.idleCount != CHANGES_ONLY && n >= FirstDue(s) && IsMultiple(n - FirstDue(s), s.idleCount)
  }

  /** The next millisecond ends a period or not whatever the report is and whether or not the endpoint is ready. */
  lemma DueLater(s: Sender, turn: Turn, n: nat)
    requires n >= 1
    ensures Due(Advance(s, turn), n) <==> Due(s, n + 1)
  {
    if s.idleCount != CHANGES_ONLY {
      var c, first := s.idleCount, FirstDue(s);
      if first > 1 {
        assert FirstDue(Advance(s, turn)) == first - 1;
      } else {
        assert FirstDue(Advance(s, turn)) == c;
      }
    }
  }

  /** The reports of those turns that are ready and whose report differs from the last one kept or that end a period. */
  function Expected(s: Sender, last: Report, turns: seq<Turn>, from: nat): seq<Report>
    decreases |turns|
  {
    if turns == [] then []
    else if turns[0].ready && (turns[0].report != last || Due(s, from)) then
      [turns[0].report] + Expected(s, turns[0].report, turns[1..], from + 1)
    else Expected(s, last, turns[1..], from + 1)
  }

  lemma {:induction false} ExpectedLater(s: Sender, turn: Turn, last: Report, turns: seq<Turn>, from: nat)
    requires from >= 1
    ensures Expected(Advance(s, turn), last, turns, from) == Expected(s, last, turns, from + 1)
    decreases |turns|
  {
    hide Due, Advance;
    if turns != [] {
      DueLater(s, turn, from);
      ExpectedLater(s, turn, last, turns[1..], from + 1);
      ExpectedLater(s, turn, turns[0].report, turns[1..], from + 1);
    }
  }

  /**
   * In every run at a fixed rate exactly those reports go out, in order, that find the endpoint ready and differ from
   * the last one sent or end an idle period. The periods themselves depend on the rate alone, so a busy endpoint
   * costs a whole further period.
   */
  lemma {:induction false} SentAsExpected(s: Sender, turns: seq<Turn>)
    ensures AdvanceAll(s, turns).sent == s.sent + Expected(s, s.previous, turns, 1)
    decreases |turns|
  {
    if turns != [] {
      var next := Advance(s, turns[0]);
      FirstTurn(s, turns[0]);
      ExpectedLater(s, turns[0], next.previous, turns[1..], 1);
      hide Due, Advance;
      SentAsExpected(next, turns[1..]);
    }
  }

  lemma FirstTurn(s: Sender, turn: Turn)
    ensures var next, sends := Advance(s, turn), turn.ready && (turn.report != s.previous || Due(s, 1));
            && next.sent == (if sends then s.sent + [turn.report] else s.sent)
            && next.previous == if sends then turn.report else s.previous
  {
  }

  /** The reports that differ from the last one sent, at the moments the endpoint is ready. */
  function Changes(last: Report, turns: seq<Turn>): seq<Report>
    decreases |turns|
  {
    if turns == [] then []
    else if turns[0].ready && turns[0].report != last then [turns[0].report] + Changes(turns[0].report, turns[1..])
    else Changes(last, turns[1..])
  }

  /** At rate 0 only changes are sent. */
  lemma OnlyChanges(s: Sender, turns: seq<Turn>)
    requires s.idleCount == CHANGES_ONLY
    ensures AdvanceAll(s, turns).sent == s.sent + Changes(s.previous, turns)
  {
    SentAsExpected(s, turns);
    ExpectedChanges(s, s.previous, turns, 1);
  }

  lemma {:induction false} ExpectedChanges(s: Sender, last: Report, turns: seq<Turn>, from: nat)
    requires s.idleCount == CHANGES_ONLY
    ensures Expected(s, last, turns, from) == Changes(last, turns)
    decreases |turns|
  {
    if turns != [] {
      ExpectedChanges(s, last, turns[1..], from + 1);
      ExpectedChanges(s, turns[0].report, turns[1..], from + 1);
    }
  }

  /** The number of milliseconds that end an idle period and find the endpoint ready. */
  function Kept(s: Sender, turns: seq<Turn>, from: nat): nat
    decreases |turns|
  {
    if turns == [] then 0 else (if Due(s, from) && turns[0].ready then 1 else 0) + Kept(s, turns[1..], from + 1)
  }

  /** While the report stays the same, that is how many are sent: none at rate 0. */
  lemma UnchangedReports(s: Sender, turns: seq<Turn>)
    requires forall t :: t in turns ==> t.report == s.previous
    ensures |AdvanceAll(s, turns).sent| == |s.sent| + Kept(s, turns, 1)
    ensures s.idleCount == CHANGES_ONLY ==> AdvanceAll(s, turns).sent == s.sent
  {
    SentAsExpected(s, turns);
    ExpectedKept(s, turns, 1);
  }

  lemma {:induction false} ExpectedKept(s: Sender, turns: seq<Turn>, from: nat)
    requires forall t :: t in turns ==> t.report == s.previous
    ensures |Expected(s, s.previous, turns, from)| == Kept(s, turns, from)
    ensures s.idleCount == CHANGES_ONLY ==> Kept(s, turns, from) == 0
    decreases |turns|
  {
    if turns != [] {
      assert turns[0] in turns;
      ExpectedKept(s, turns[1..], from + 1);
    }
  }

  // How long the host may have to wait

  /** The end of a period restarts it at the present rate, and from then on the time left is never longer. */
  lemma {:induction false} InRange(s: Sender, turns: seq<Turn>)
    requires s.idleCount != CHANGES_ONLY && (|turns| >= FirstDue(s) || s.idleMs <= s.idleCount)
    ensures AdvanceAll(s, turns).idleMs <= s.idleCount == AdvanceAll(s, turns).idleCount
    decreases |turns|
  {
    if turns != [] {
      InRange(Advance(s, turns[0]), turns[1..]);
    }
  }

  /** A ready endpoint gets a report when the present period ends, if not before. */
  lemma {:induction false} SendsWhenDue(s: Sender, turns: seq<Turn>)
    requires s.idleCount != CHANGES_ONLY && |turns| >= FirstDue(s)
    requires forall t :: t in turns ==> t.ready
    ensures |AdvanceAll(s, turns).sent| > |s.sent|
    decreases |turns|
  {
    var next := Advance(s, turns[0]);
    assert turns[0] in turns;
    if next.sent == s.sent {
      SendsWhenDue(next, turns[1..]);
    } else {
      SentGrows(next, turns[1..]);
    }
  }

  lemma {:induction false} SentGrows(s: Sender, turns: seq<Turn>)
    ensures |s.sent| <= |AdvanceAll(s, turns).sent|
    decreases |turns|
  {
    if turns != [] {
      SentGrows(Advance(s, turns[0]), turns[1..]);
    }
  }

  /**
   * Once an idle period has ended, with the endpoint ready or not, and whatever time was left when the rate was set,
   * no `idleCount` consecutive milliseconds with a ready endpoint pass without a report.
   */
  lemma NeverSilent(s: Sender, before: seq<Turn>, turns: seq<Turn>)
    requires s.idleCount != CHANGES_ONLY && |before| >= FirstDue(s) && |turns| >= s.idleCount
    requires forall t :: t in turns ==> t.ready
    ensures |AdvanceAll(s, before + turns).sent| > |AdvanceAll(s, before).sent|
  {
    InRange(s, before);
    AdvanceAllConcat(s, before, turns);
    SendsWhenDue(AdvanceAll(s, before), turns);
  }

  lemma {:induction false} AdvanceAllConcat(s: Sender, a: seq<Turn>, b: seq<Turn>)
    ensures AdvanceAll(s, a + b) == AdvanceAll(AdvanceAll(s, a), b)
    decreases |a|
  {
    if a == [] {
      assert a + b == b;
    } else {
      assert (a + b)[1..] == a[1..] + b;
      AdvanceAllConcat(Advance(s, a[0]), a[1..], b);
    }
  }

  class HidSender {
    var idleCount: nat
    var idleMs: nat
    var previous: Report
    var sent: seq<Report>

    function View(): Sender
      reads this
    {
      Sender(idleCount, idleMs, previous, sent)
    }

    constructor (size: nat)
      ensures View() == Sender(500, 0, seq(size, _ => 0), [])
    {
      idleCount, idleMs, previous, sent := 500, 0, seq(size, _ => 0), [];
    }

    method StartOfFrame()
      modifies `idleMs
      ensures View() == Tick(old(View()))
    {
      if idleMs > 0 {
        idleMs := idleMs - 1;
      }
    }

    method SendNextReport(report: Report, ready: bool)
      modifies this
      ensures View() == Task(old(View()), report, ready)
    {
      var sendReport := report != previous;
      if idleCount != CHANGES_ONLY && idleMs == 0 {
        idleMs := idleCount;
        sendReport := true;
      }
      if ready && sendReport {
        previous := report;
        sent := sent + [report];
      }
    }

    method SetIdleRate(value: nat)
      modifies `idleCount
      ensures View() == SetIdle(old(View()), value)
    {
      idleCount := (value / 256 * 256) / 64 % 0x10000;
    }
  }
}
