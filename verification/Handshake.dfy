/** The mouse byte filter: a table-driven start-up handshake that turns into a packet assembler. */
module Handshake {
  import opened Bits

  /** Bytes `2 * row` and `2 * row + 1` of the table: what the mouse must send, and what the host answers. */
  function Table(row: nat): (byte, byte)
    requires row < 26
  {
    match row
    case 0 => (0xFA, 0x00)
    case 1 => (0xAA, 0x00)
    case 2 => (0x00, 0xFF)
    case 3 => (0xFA, 0x00)
    case 4 => (0xAA, 0x00)
    case 5 => (0x00, 0xFF)
    case 6 => (0xFA, 0x00)
    case 7 => (0xAA, 0x00)
    case 8 => (0x00, 0xFF)
    case 9 => (0xFA, 0x00)
    case 10 => (0xAA, 0x00)
    case 11 => (0x00, 0xF3)
    case 12 => (0xFA, 200)
    case 13 => (0xFA, 0xF3)
    case 14 => (0xFA, 100)
    case 15 => (0xFA, 0xF3)
    case 16 => (0xFA, 80)
    case 17 => (0xFA, 0xF2)
    case 18 => (0xFA, 0x00)
    case 19 => (0x03, 0xE8)
    case 20 => (0xFA, 0xD1)
    case 21 => (0xFA, 0xD2)
    case 22 => (0xFA, 0xF3)
    case 23 => (0xFA, 0xD3)
    case 24 => (0xFA, 0xF4)
    case _ => (0xFA, 0x00)
  }

  const ROWS := 26
  const RETRIES := 5
  const GIVEN_UP := 0xFF
  const RESET: byte := 0xFF

  datatype Config = Config(frequency: byte, resolution: byte, scale: byte)

  const DEFAULTS := Config(100, 3, 1)

  predicate Matches(row: nat, b: byte)
    requires row < ROWS
  {
    b == Table(row).0 || (Table(row).0 == 0xFA && b == 0xF4)
  }

  /** The bytes the host sends once a row has matched; three table codes stand for configured values. */
  function Reply(config: Config, row: nat): (sent: seq<byte>)
    requires row < ROWS
    ensures |sent| <= 1
  {
    var code := Table(row).1;
    if code == 0xD1 then [config.resolution]
    else if code == 0xD2 then [if config.scale == 1 then 0xE6 else 0xE7]
    else if code == 0xD3 then [config.frequency]
    else if code > 0 then [code]
    else []
  }

  /** Bit 3 of a header byte is always set. */
  predicate HasMark(b: byte) { And(b, 0x08) != 0 }

  lemma MarkIsBitThree(b: byte)
    ensures HasMark(b) <==> b / 8 % 2 == 1
  {
    hide And;
    Powers();
    AndTests(b, 3);
  }

  /** The filter's variables, with everything it has sent to the mouse and every packet it has dispatched. */
  datatype Session = Session(state: nat, retry: nat, pending: seq<byte>, sent: seq<byte>, packets: seq<seq<byte>>) {
    predicate Valid() {
      && (state == GIVEN_UP || (state <= 2 * ROWS && state % 2 == 0))
      && retry <= RETRIES
      && |pending| < 4
      && (pending != [] ==> HasMark(pending[0]))
    }

    predicate Streaming() { state >= 2 * ROWS }
  }

  /** One received byte. */
  function Advance(config: Config, s: Session, b: byte): (r: Session)
    requires s.Valid()
    ensures r.Valid()
  {
    if s.state < 2 * ROWS then
      if Matches(s.state / 2, b) then s.(state := s.state + 2, sent := s.sent + Reply(config, s.state / 2))
      else if s.retry < RETRIES then Restart(s.(retry := s.retry + 1))
      else s.(state := GIVEN_UP, retry := 0)
    else if s.pending == [] && !HasMark(b) then s
    else if |s.pending| < 3 then s.(retry := 0, pending := s.pending + [b])
    else s.(retry := 0, pending := [], packets := s.packets + [s.pending + [b]])
  }

  function Restart(s: Session): Session {
    s.(state := 0, sent := s.sent + [RESET])
  }

  function AdvanceAll(config: Config, s: Session, bytes: seq<byte>): (r: Session)
    requires s.Valid()
    ensures r.Valid()
    decreases |bytes|
  {
    if bytes == [] then s else AdvanceAll(config, Advance(config, s, bytes[0]), bytes[1..])
  }

  lemma {:induction false} AdvanceConcat(config: Config, s: Session, a: seq<byte>, b: seq<byte>)
    requires s.Valid()
    ensures AdvanceAll(config, s, a + b) == AdvanceAll(config, AdvanceAll(config, s, a), b)
    decreases |a|
  {
    hide Table, Advance;
    if a == [] {
      assert a + b == b;
    } else {
      assert (a + b)[1..] == a[1..] + b;
      AdvanceConcat(config, Advance(config, s, a[0]), a[1..], b);
    }
  }

  // The handshake always ends

  function Rank(s: Session): int {
    ROWS * (RETRIES - s.retry) + (2 * ROWS - s.state) / 2
  }

  /** Every byte of a handshake either ends it or strictly lowers the rank. */
  lemma RankFalls(config: Config, s: Session, b: byte)
    requires s.Valid() && !s.Streaming()
    ensures var next := Advance(config, s, b); next.Streaming() || Rank(next) < Rank(s)
  {
  }

  lemma RankRange(s: Session)
    requires s.Valid() && !s.Streaming()
    ensures Rank(s) == 26 * (5 - s.retry) + (52 - s.state) / 2
    ensures 0 < Rank(s) <= 156
  {
  }

  /** Any 156 bytes, whatever they are, end a handshake. */
  lemma {:induction false} HandshakeEnds(config: Config, s: Session, bytes: seq<byte>)
    requires s.Valid() && (s.Streaming() || |bytes| >= Rank(s))
    ensures AdvanceAll(config, s, bytes).Streaming()
    decreases |bytes|
  {
    hide Table, Advance, Rank;
    if !s.Streaming() {
      RankRange(s);
      RankFalls(config, s, bytes[0]);
      HandshakeEnds(config, Advance(config, s, bytes[0]), bytes[1..]);
    } else if bytes != [] {
      StaysStreaming(config, s, bytes[0]);
      HandshakeEnds(config, Advance(config, s, bytes[0]), bytes[1..]);
    }
  }

  lemma StaysStreaming(config: Config, s: Session, b: byte)
    requires s.Valid() && s.Streaming()
    ensures var next := Advance(config, s, b);
            next.Streaming() && next.state == s.state && next.sent == s.sent
  {
  }

  // The handshake as a sequence of attempts

  /** How many leading bytes match the rows from `row` on. */
  function Matched(row: nat, bytes: seq<byte>): (n: nat)
    requires row <= ROWS
    ensures row + n <= ROWS && n <= |bytes|
    decreases |bytes|
  {
    if row == ROWS || bytes == [] || !Matches(row, bytes[0]) then 0 else 1 + Matched(row + 1, bytes[1..])
  }

  /** The transmit column of `n` rows from `row` on. */
  function Replies(config: Config, row: nat, n: nat): seq<byte>
    requires row + n <= ROWS
    decreases n
  {
    if n == 0 then [] else Reply(config, row) + Replies(config, row + 1, n - 1)
  }

  datatype Verdict = Waiting(row: nat) | Established | Failed

  /** `used` bytes decide the verdict; `start` is where the last attempt began. */
  datatype Outcome = Outcome(verdict: Verdict, resets: nat, sent: seq<byte>, used: nat, start: nat)

  /** Independent reading of the handshake: attempts separated by mismatches, `budget` of which are forgiven. */
  function Attempt(config: Config, row: nat, budget: nat, bytes: seq<byte>): (o: Outcome)
    requires row < ROWS
    ensures o.start <= o.used <= |bytes|
    decreases |bytes|
  {
    var n := Matched(row, bytes);
    var sent := Replies(config, row, n);
    if row + n == ROWS then Outcome(Established, 0, sent, n, 0)
    else if n == |bytes| then Outcome(Waiting(row + n), 0, sent, n, 0)
    else if budget == 0 then Outcome(Failed, 0, sent, n + 1, 0)
    else
      var o := Attempt(config, 0, budget - 1, bytes[n + 1..]);
      Outcome(o.verdict, o.resets + 1, sent + [RESET] + o.sent, n + 1 + o.used, n + 1 + o.start)
  }

  lemma {:induction false} AdvanceMatched(config: Config, s: Session, bytes: seq<byte>)
    requires s.Valid() && s.state < 2 * ROWS
    ensures var n := Matched(s.state / 2, bytes);
            AdvanceAll(config, s, bytes) == AdvanceAll(config, AfterRows(config, s, n), bytes[n..])
    decreases |bytes|
  {
    hide Table, Matches, Reply, Replies, AfterRows, HasMark, Advance, AdvanceAll;
    var row := s.state / 2;
    var n := Matched(row, bytes);
    assert bytes[0..] == bytes;
    AfterNoRows(config, s);
    if n > 0 {
      AdvanceMatch(config, s, bytes[0]);
      AdvanceStep(config, s, bytes, 0);
      var next := Advance(config, s, bytes[0]);
      AfterOneRow(config, s, n);
      if row + 1 == ROWS {
        AfterNoRows(config, next);
      } else {
        AdvanceMatched(config, next, bytes[1..]);
        assert bytes[1..][n - 1..] == bytes[n..];
      }
    }
  }

  lemma AfterNoRows(config: Config, s: Session)
    requires s.Valid() && s.state / 2 <= ROWS
    ensures AfterRows(config, s, 0) == s
  {
  }

  lemma AfterOneRow(config: Config, s: Session, n: nat)
    requires s.Valid() && 0 < n && s.state / 2 + n <= ROWS
    ensures var next := s.(state := s.state + 2, sent := s.sent + Reply(config, s.state / 2));
            next.Valid() && AfterRows(config, s, n) == AfterRows(config, next, n - 1)
  {
    hide Table, Reply;
    var row := s.state / 2;
    assert s.sent + (Reply(config, row) + Replies(config, row + 1, n - 1)) == s.sent + Reply(config, row) + Replies(config, row + 1, n - 1);
  }

  lemma AdvanceMatch(config: Config, s: Session, b: byte)
    requires s.Valid() && s.state < 2 * ROWS && Matches(s.state / 2, b)
    ensures Advance(config, s, b) == s.(state := s.state + 2, sent := s.sent + Reply(config, s.state / 2))
  {
  }

  /** The session after `n` further rows have matched. */
  function AfterRows(config: Config, s: Session, n: nat): (r: Session)
    requires s.Valid() && s.state / 2 + n <= ROWS
    ensures r.Valid()
  {
    s.(state := s.state + 2 * n, sent := s.sent + Replies(config, s.state / 2, n))
  }

  lemma AdvanceMismatch(config: Config, s: Session, b: byte)
    requires s.Valid() && s.state < 2 * ROWS && !Matches(s.state / 2, b)
    ensures Advance(config, s, b) == if s.retry < RETRIES then s.(retry := s.retry + 1, state := 0, sent := s.sent + [RESET])
                                     else s.(state := GIVEN_UP, retry := 0)
  {
  }

  /** The session after the handshake part of the input, as the attempts describe it. */
  function Concluded(s: Session, o: Outcome): Session {
    var after := s.(sent := s.sent + o.sent, retry := s.retry + o.resets);
    match o.verdict
    case Waiting(row) => after.(state := 2 * row)
    case Established => after.(state := 2 * ROWS)
    case Failed => after.(state := GIVEN_UP, retry := 0)
  }

  /** The byte-by-byte filter and the reading by attempts agree, on every input, including what follows the handshake. */
  lemma {:induction false} HandshakeIsAttempts(config: Config, s: Session, bytes: seq<byte>)
    requires s.Valid() && !s.Streaming()
    ensures var o := Attempt(config, s.state / 2, RETRIES - s.retry, bytes);
            && Concluded(s, o).Valid()
            && (o.verdict.Waiting? ==> o.used == |bytes| && !Concluded(s, o).Streaming())
            && AdvanceAll(config, s, bytes) == AdvanceAll(config, Concluded(s, o), bytes[o.used..])
    decreases |bytes|
  {
    hide Table, Advance, AdvanceAll, Attempt, Matched, Replies, HasMark, Matches, Reply;
    var row, budget := s.state / 2, RETRIES - s.retry;
    var n := Matched(row, bytes);
    var o := Attempt(config, row, budget, bytes);
    var after := AfterRows(config, s, n);
    AdvanceMatched(config, s, bytes);
    AttemptStep(config, row, budget, bytes);
    if row + n == ROWS || n == |bytes| {
      assert Concluded(s, o) == after;
    } else {
      MismatchAfter(row, bytes);
      AdvanceMismatch(config, after, bytes[n]);
      var next := Advance(config, after, bytes[n]);
      AdvanceStep(config, after, bytes, n);
      if budget == 0 {
        assert Concluded(s, o) == next;
      } else {
        HandshakeIsAttempts(config, next, bytes[n + 1..]);
        var rest := Attempt(config, 0, budget - 1, bytes[n + 1..]);
        assert bytes[n + 1..][rest.used..] == bytes[o.used..];
        RetryConcluded(s, Replies(config, row, n), next, o, rest);
      }
    }
  }

  lemma RetryConcluded(s: Session, replies: seq<byte>, next: Session, o: Outcome, rest: Outcome)
    requires next == s.(state := 0, retry := s.retry + 1, sent := s.sent + replies + [RESET])
    requires (o.verdict, o.resets, o.sent) == (rest.verdict, rest.resets + 1, replies + [RESET] + rest.sent)
    ensures Concluded(s, o) == Concluded(next, rest)
  {
    assert s.sent + replies + [RESET] + rest.sent == s.sent + (replies + [RESET] + rest.sent);
  }

  lemma AdvanceStep(config: Config, s: Session, bytes: seq<byte>, n: nat)
    requires s.Valid() && n < |bytes|
    ensures AdvanceAll(config, s, bytes[n..]) == AdvanceAll(config, Advance(config, s, bytes[n]), bytes[n + 1..])
  {
    hide Table, Advance, HasMark;
    assert bytes[n..][1..] == bytes[n + 1..];
  }

  /** One attempt split off. */
  lemma AttemptStep(config: Config, row: nat, budget: nat, bytes: seq<byte>)
    requires row < ROWS
    ensures var n := Matched(row, bytes);
            var sent := Replies(config, row, n);
            var o := Attempt(config, row, budget, bytes);
            && (row + n == ROWS ==> o == Outcome(Established, 0, sent, n, 0))
            && (row + n < ROWS && n == |bytes| ==> o == Outcome(Waiting(row + n), 0, sent, n, 0))
            && (row + n < ROWS && n < |bytes| && budget == 0 ==> o == Outcome(Failed, 0, sent, n + 1, 0))
            && (row + n < ROWS && n < |bytes| && budget > 0 ==>
                  var rest := Attempt(config, 0, budget - 1, bytes[n + 1..]);
                  o == Outcome(rest.verdict, rest.resets + 1, sent + [RESET] + rest.sent, n + 1 + rest.used, n + 1 + rest.start))
  {
    hide Table, Matched, Replies, Matches, Reply;
  }

  lemma {:induction false} MismatchAfter(row: nat, bytes: seq<byte>)
    requires row <= ROWS && row + Matched(row, bytes) < ROWS && Matched(row, bytes) < |bytes|
    ensures !Matches(row + Matched(row, bytes), bytes[Matched(row, bytes)])
    decreases |bytes|
  {
    hide Table, Matches;
    if Matches(row, bytes[0]) {
      MismatchAfter(row + 1, bytes[1..]);
    }
  }

  /** The `n` bytes from `start` on match the rows from `first` on. */
  ghost predicate RowsMatch(first: nat, bytes: seq<byte>, start: nat, n: nat)
    requires first + n <= ROWS && start + n <= |bytes|
  {
    forall k :: start <= k < start + n ==> Matches(first + (k - start), bytes[k])
  }

  lemma RowsMatchLater(first: nat, bytes: seq<byte>, skip: nat, start: nat, n: nat)
    requires first + n <= ROWS && skip <= |bytes| && start + n <= |bytes[skip..]|
    requires RowsMatch(first, bytes[skip..], start, n)
    ensures RowsMatch(first, bytes, skip + start, n)
  {
    hide Table, Matches;
    forall k | skip + start <= k < skip + start + n
      ensures Matches(first + (k - (skip + start)), bytes[k])
    {
      assert bytes[skip..][k - skip] == bytes[k];
    }
  }

  lemma {:induction false} MatchedRows(row: nat, bytes: seq<byte>)
    requires row <= ROWS
    ensures RowsMatch(row, bytes, 0, Matched(row, bytes))
    decreases |bytes|
  {
    hide Table, Matches;
    if Matched(row, bytes) > 0 {
      MatchedRows(row + 1, bytes[1..]);
      RowsMatchLater(row + 1, bytes, 1, 0, Matched(row, bytes) - 1);
    }
  }

  /**
   * How a handshake that began at `row` ends. Success means that the bytes since the last reset matched every row
   * in order, and that the host has answered them with exactly that part of the transmit column; failure means
   * that all `budget` forgiven mismatches were used up.
   */
  lemma {:induction false} HowItEnds(config: Config, row: nat, budget: nat, bytes: seq<byte>)
    requires row < ROWS
    ensures var o := Attempt(config, row, budget, bytes);
            var first := if o.resets == 0 then row else 0;
            var tail := Replies(config, first, ROWS - first);
            && o.resets <= budget
            && (o.verdict.Failed? ==> o.resets == budget)
            && (o.verdict.Established? ==>
                  && o.used - o.start == ROWS - first
                  && RowsMatch(first, bytes, o.start, ROWS - first)
                  && (if o.resets == 0 then o.sent == tail
                      else |tail| < |o.sent| && o.sent[|o.sent| - |tail| - 1..] == [RESET] + tail))
    decreases |bytes|
  {
    hide Table, Attempt, Matches, Reply, Replies, Matched;
    AttemptStep(config, row, budget, bytes);
    MatchedRows(row, bytes);
    var n := Matched(row, bytes);
    if row + n < ROWS && n < |bytes| && budget > 0 {
      HowItEnds(config, 0, budget - 1, bytes[n + 1..]);
      var o := Attempt(config, row, budget, bytes);
      var rest := Attempt(config, 0, budget - 1, bytes[n + 1..]);
      if o.verdict.Established? {
        RowsMatchLater(0, bytes, n + 1, rest.start, ROWS);
      }
    }
  }

  /** The whole transmit column: three resets, the 200-100-80 wheel knock, then the configured settings. */
  function Column(config: Config): (column: seq<byte>)
    ensures |column| == 16
  {
    [RESET, RESET, RESET, 0xF3, 200, 0xF3, 100, 0xF3, 80, 0xF2, 0xE8, config.resolution,
     if config.scale == 1 then 0xE6 else 0xE7, 0xF3, config.frequency, 0xF4]
  }

  /** How many bytes of the column belong to the rows before `row`. */
  function Offset(row: nat): nat {
    if row <= 2 then 0 else if row <= 5 then 1 else if row <= 8 then 2
    else if row <= 11 then 3 else if row <= 17 then row - 8 else if row == 18 then 10
    else if row <= 25 then row - 9 else 16
  }

  lemma ColumnEntry(config: Config, row: nat)
    requires row < ROWS
    ensures Offset(row + 1) == Offset(row) + |Reply(config, row)| <= 16
    ensures Reply(config, row) != [] ==> Reply(config, row)[0] == Column(config)[Offset(row)]
  {
  }

  lemma ColumnEnds()
    ensures Offset(ROWS) == 16
  {
  }

  lemma {:induction false} ColumnFrom(config: Config, row: nat)
    requires row <= ROWS
    ensures Offset(row) <= 16 && Replies(config, row, ROWS - row) == Column(config)[Offset(row)..]
    decreases ROWS - row
  {
    hide Table, Reply, Column, Offset;
    ColumnEnds();
    if row < ROWS {
      ColumnEntry(config, row);
      ColumnFrom(config, row + 1);
      assert Column(config)[Offset(row)..] == Reply(config, row) + Column(config)[Offset(row + 1)..];
    }
  }

  lemma {:induction false} AllMatched(row: nat, bytes: seq<byte>)
    requires row <= ROWS && |bytes| >= ROWS - row && RowsMatch(row, bytes, 0, ROWS - row)
    ensures Matched(row, bytes) == ROWS - row
    decreases ROWS - row
  {
    hide Table, Matches;
    if row < ROWS {
      assert bytes[0] == bytes[0];
      assert RowsMatch(row + 1, bytes[1..], 0, ROWS - row - 1) by {
        forall k | 0 <= k < ROWS - row - 1
          ensures Matches(row + 1 + (k - 0), bytes[1..][k])
        {
          assert bytes[1..][k] == bytes[k + 1];
        }
      }
      AllMatched(row + 1, bytes[1..]);
    }
  }

  /** After a reset, a mouse that answers as the table expects is brought into wheel mode and starts streaming. */
  lemma CooperativeMouse(config: Config, s: Session, bytes: seq<byte>)
    requires s.Valid() && s.state == 0
    requires |bytes| == ROWS && RowsMatch(0, bytes, 0, ROWS)
    ensures AdvanceAll(config, s, bytes) == s.(state := 2 * ROWS, sent := s.sent + Column(config))
  {
    hide Table, Matches, Reply, Matched, Replies, Column;
    AllMatched(0, bytes);
    AdvanceMatched(config, s, bytes);
    ColumnFrom(config, 0);
    assert Offset(0) == 0 && Column(config)[0..] == Column(config);
    assert bytes[ROWS..] == [];
  }

  /** What a wheel mouse answers to the start-up sequence: three bytes to each of four resets, then to each command. */
  const ANSWERS: seq<byte> := [0xFA, 0xAA, 0x00, 0xFA, 0xAA, 0x00, 0xFA, 0xAA, 0x00, 0xFA, 0xAA, 0x00,
                               0xFA, 0xFA, 0xFA, 0xFA, 0xFA, 0xFA, 0xFA, 0x03, 0xFA, 0xFA, 0xFA, 0xFA, 0xFA, 0xFA]

  /** A byte fits the k-th answer if it is that, or 0xF4 where 0xFA is expected. */
  predicate Fits(k: nat, b: byte)
    requires k < 26
  {
    b == ANSWERS[k] || (ANSWERS[k] == 0xFA && b == 0xF4)
  }

  lemma MatchesAnswers(row: nat, b: byte)
    requires row < 26
    ensures Matches(row, b) <==> Fits(row, b)
  {
  }

  /** A mouse with exactly these answers to a reset starts streaming, having been sent exactly the column. */
  lemma AnswersStartStreaming(config: Config, s: Session, bytes: seq<byte>)
    requires s.Valid() && s.state == 0 && |bytes| == 26
    requires forall k :: 0 <= k < 26 ==> Fits(k, bytes[k])
    ensures AdvanceAll(config, s, bytes) == s.(state := 52, sent := s.sent + Column(config))
  {
    hide Table, Matches, Fits, Column;
    forall k | 0 <= k < 26 ensures Matches(0 + (k - 0), bytes[k]) { MatchesAnswers(k, bytes[k]); }
    CooperativeMouse(config, s, bytes);
  }

  /** Any other byte starts the sequence over with 0xFF, five times in all; the sixth gives the mouse up for good. */
  lemma MisfitResets(config: Config, s: Session, b: byte)
    requires s.Valid() && s.state < 52 && !Fits(s.state / 2, b)
    ensures Advance(config, s, b) ==
            if s.retry < 5 then s.(state := 0, retry := s.retry + 1, sent := s.sent + [0xFF])
            else s.(state := 0xFF, retry := 0)
  {
    hide Table, Matches, Fits, HasMark;
    MatchesAnswers(s.state / 2, b);
  }

  // Packets

  datatype Item = Dropped(b: byte) | Packet(bytes: seq<byte>)

  /** Greedy reading of a byte stream: drop bytes until a header, then take four. The rest is an unfinished packet. */
  function Parse(bytes: seq<byte>): (r: (seq<Item>, seq<byte>))
    decreases |bytes|
  {
    if bytes == [] then ([], [])
    else if !HasMark(bytes[0]) then
      var (items, rest) := Parse(bytes[1..]);
      ([Dropped(bytes[0])] + items, rest)
    else if |bytes| < 4 then ([], bytes)
    else
      var (items, rest) := Parse(bytes[4..]);
      ([Packet(bytes[..4])] + items, rest)
  }

  /** Bit 3 tells the header of a packet of four bytes from a byte that belongs to none. */
  predicate Proper(item: Item) {
    match item
    case Dropped(b) => b / 8 % 2 == 0
    case Packet(bytes) => |bytes| == 4 && bytes[0] / 8 % 2 == 1
  }

  function Flatten(items: seq<Item>): seq<byte> {
    if items == [] then []
    else (match items[0] case Dropped(b) => [b] case Packet(bytes) => bytes) + Flatten(items[1..])
  }

  function Packets(items: seq<Item>): seq<seq<byte>> {
    if items == [] then []
    else (match items[0] case Dropped(_) => [] case Packet(bytes) => [bytes]) + Packets(items[1..])
  }

  predicate Unfinished(rest: seq<byte>) {
    |rest| < 4 && (rest != [] ==> rest[0] / 8 % 2 == 1)
  }

  /** Every byte is dropped for lacking the header bit, in exactly one packet, or in the unfinished packet. */
  lemma {:induction false} ParseConserves(bytes: seq<byte>)
    ensures var (items, rest) := Parse(bytes);
            && Flatten(items) + rest == bytes
            && Unfinished(rest)
            && forall item :: item in items ==> Proper(item)
    decreases |bytes|
  {
    hide Table, HasMark, Flatten;
    FlattenNone();
    if bytes != [] {
      MarkIsBitThree(bytes[0]);
    }
    if bytes != [] && !HasMark(bytes[0]) {
      ParseConserves(bytes[1..]);
      var (items, rest) := Parse(bytes[1..]);
      FlattenFirst(Dropped(bytes[0]), items, rest);
      assert [bytes[0]] + bytes[1..] == bytes;
    } else if |bytes| >= 4 {
      ParseConserves(bytes[4..]);
      var (items, rest) := Parse(bytes[4..]);
      FlattenFirst(Packet(bytes[..4]), items, rest);
      assert bytes[..4] + bytes[4..] == bytes;
    }
  }

  lemma FlattenNone()
    ensures forall rest :: Flatten([]) + rest == rest
  {
  }

  lemma FlattenFirst(item: Item, items: seq<Item>, rest: seq<byte>)
    ensures Flatten([item] + items) + rest ==
            (match item case Dropped(b) => [b] case Packet(bytes) => bytes) + (Flatten(items) + rest)
  {
    assert ([item] + items)[1..] == items;
  }

  lemma ParseOne(item: Item, tail: seq<byte>)
    requires Proper(item)
    ensures Parse(Flatten([item]) + tail) == ([item] + Parse(tail).0, Parse(tail).1)
  {
    hide HasMark;
    var all := Flatten([item]) + tail;
    match item {
      case Dropped(b) =>
        MarkIsBitThree(b);
        assert all[1..] == tail;
      case Packet(bytes) =>
        MarkIsBitThree(bytes[0]);
        assert Flatten([item]) == bytes + [] == bytes;
        assert all[..4] == bytes && all[4..] == tail;
    }
  }

  /** The reading is the only one of its kind, so a stream of whole packets is recovered packet by packet. */
  lemma {:induction false} ParseUnique(items: seq<Item>, rest: seq<byte>)
    requires (forall item :: item in items ==> Proper(item)) && Unfinished(rest)
    ensures Parse(Flatten(items) + rest) == (items, rest)
    decreases |items|
  {
    hide Flatten;
    FlattenNone();
    if items == [] && rest != [] {
      MarkIsBitThree(rest[0]);
    }
    if items != [] {
      hide Parse, Proper;
      assert items == [items[0]] + items[1..] && [items[0]] + [] == [items[0]];
      ParseUnique(items[1..], rest);
      ParseOne(items[0], Flatten(items[1..]) + rest);
      FlattenFirst(items[0], items[1..], rest);
      FlattenFirst(items[0], [], Flatten(items[1..]) + rest);
    }
  }

  /** One streamed byte moves through the greedy reading. */
  lemma StreamStep(config: Config, s: Session, b: byte, tail: seq<byte>)
    requires s.Valid() && s.Streaming()
    ensures var next := Advance(config, s, b);
            && Parse(s.pending + ([b] + tail)).1 == Parse(next.pending + tail).1
            && s.packets + Packets(Parse(s.pending + ([b] + tail)).0) == next.packets + Packets(Parse(next.pending + tail).0)
  {
    hide Table, HasMark, Parse;
    var all := s.pending + ([b] + tail);
    MarkIsBitThree(all[0]);
    if s.pending == [] && !HasMark(b) {
      ParseOne(Dropped(b), tail);
      assert all == Flatten([Dropped(b)]) + tail && [] + tail == tail;
    } else if |s.pending| < 3 {
      assert all == (s.pending + [b]) + tail;
    } else {
      var packet := s.pending + [b];
      ParseOne(Packet(packet), tail);
      assert all == Flatten([Packet(packet)]) + tail && [] + tail == tail;
    }
  }

  /** A streamed byte that belongs to a packet clears the retry count; one that is dropped changes nothing. */
  lemma StreamedByte(config: Config, s: Session, b: byte)
    requires s.Valid() && s.Streaming()
    ensures if s.pending == [] && b / 8 % 2 == 0 then Advance(config, s, b) == s else Advance(config, s, b).retry == 0
  {
    hide Table, HasMark;
    MarkIsBitThree(b);
  }

  /** The streaming filter is the greedy reading, whatever it was holding back before. */
  lemma {:induction false} StreamIsParse(config: Config, s: Session, bytes: seq<byte>)
    requires s.Valid() && s.Streaming()
    ensures var after, (items, rest) := AdvanceAll(config, s, bytes), Parse(s.pending + bytes);
            && after.state == s.state && after.sent == s.sent
            && after.packets == s.packets + Packets(items)
            && after.pending == rest
    decreases |bytes|
  {
    if bytes == [] {
      assert s.pending + bytes == s.pending;
    } else {
      hide Table, HasMark, Advance, Parse, Packets;
      StaysStreaming(config, s, bytes[0]);
      StreamStep(config, s, bytes[0], bytes[1..]);
      assert [bytes[0]] + bytes[1..] == bytes;
      StreamIsParse(config, Advance(config, s, bytes[0]), bytes[1..]);
    }
  }

  // The driver

  /** The filter's static variables. `send` stands for the host-to-mouse transmission, `packets` for the dispatcher. */
  class MouseFilter {
    var state: nat
    var retry: nat
    var size: nat
    const bytes: array<byte>
    var config: Config
    var sent: seq<byte>
    var packets: seq<seq<byte>>

    ghost predicate Valid()
      reads this, bytes
    {
      bytes.Length == 4 && size < 4 && View().Valid()
    }

    ghost function View(): Session
      requires size <= bytes.Length
      reads this, bytes
    {
      Session(state, retry, bytes[..size], sent, packets)
    }

    /** A powered-up mouse announces itself, so the table is entered at its second row. */
    constructor ()
      ensures Valid() && fresh(bytes) && View() == Session(2, 0, [], [], [])
      ensures (config.frequency, config.resolution, config.scale) == (100, 3, 1) && config == DEFAULTS
    {
      state, retry, size, config, sent, packets := 2, 0, 0, DEFAULTS, [], [];
      bytes := new byte[4](_ => 0);
    }

    method EventFilter(scancode: byte)
      requires Valid()
      modifies this, bytes
      ensures Valid() && config == old(config)
      ensures View() == Advance(config, old(View()), scancode)
    {
      hide Table, HasMark;
      if state < 52 {
        var (target, code) := Table(state / 2);
        if scancode == target || (target == 0xFA && scancode == 0xF4) {
          if code == 0xD1 {
            sent := sent + [config.resolution];
          } else if code == 0xD2 {
            sent := sent + [if config.scale == 1 then 0xE6 else 0xE7];
          } else if code == 0xD3 {
            sent := sent + [config.frequency];
          } else if code > 0x00 {
            sent := sent + [code];
          }
          state := state + 2;
        } else if retry < 5 {
          retry := retry + 1;
          ResetState();
        } else {
          state := 0xFF;
          retry := 0;
        }
      } else if size == 0 && !HasMark(scancode) {
        size := 0;
      } else {
        retry := 0;
        bytes[size] := scancode;
        size := size + 1;
        if size == 4 {
          assert bytes[..] == old(bytes[..size]) + [scancode];
          packets := packets + [bytes[..]];
          size := 0;
        }
      }
    }

    method ResetState()
      modifies `state, `sent
      ensures state == 0 && sent == old(sent) + [0xFF]
    {
      sent := sent + [RESET];
      state := 0;
    }

    /** A soft reset keeps the retry count and, in mid packet, the bytes gathered so far. */
    method MouseReset()
      requires Valid()
      modifies this
      ensures Valid() && (config.frequency, config.resolution, config.scale) == (100, 3, 1)
      ensures View() == Restart(old(View())) == old(View()).(state := 0, sent := old(sent) + [0xFF])
    {
      config := DEFAULTS;
      ResetState();
    }
  }
}
