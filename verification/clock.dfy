/** The servo clock face (clock/clock.py): a Segment drives one PCA9685
    servo board, showing a two-digit number on fourteen servos. Channels
    0..6 show the ones digit and channels 7..13 the tens digit; within a
    group, the servo at position k shows segment k of the usual 7-segment
    layout, moved to its "on" duty when the segment is lit and to its "off"
    duty otherwise. */
module Clock {
  import opened Errors
  import opened RegisterBus
  import opened Pca9685
  import opened PwmPins

  const SEGMENTS := 7
  const CHANNELS := 14

  /** `bits_representation`: bit k of the mask of a numeral is set when
      segment k is lit. */
  const Bits: seq<int> := [0x3F, 0x06, 0x5B, 0x4F, 0x66, 0x6D, 0x7D, 0x07, 0x7F, 0x6F]

  /** The lit segments of each numeral, as the table's comments list them. */
  const Lit: seq<set<int>> := [
    {0, 1, 2, 3, 4, 5}, {1, 2}, {0, 1, 3, 4, 6}, {0, 1, 2, 3, 6}, {1, 2, 5, 6},
    {0, 2, 3, 5, 6}, {0, 2, 3, 4, 5, 6}, {0, 1, 2}, {0, 1, 2, 3, 4, 5, 6}, {0, 1, 2, 3, 5, 6}]

  type Digit = d: int | 0 <= d < 10

  /** Bit k of a non-negative x, the test `x & pow(2, k) != 0`. */
  function BitSet(x: int, k: nat): bool
    decreases k
  {
    if k == 0 then x % 2 == 1 else BitSet(x / 2, k - 1)
  }

  function Pow2(k: nat): nat {
    if k == 0 then 1 else 2 * Pow2(k - 1)
  }

  function Popcount(x: nat): nat {
    if x == 0 then 0 else x % 2 + Popcount(x / 2)
  }

  // ---------------------------------------------------------------------
  // The digit table

  /** Every mask fits in seven bits, its set bits are exactly the segments
      its comment lists, and it lights 6, 2, 5, 5, 4, 5, 6, 3, 7, 6 of them. */
  lemma DigitTable(d: Digit)
    ensures 0 <= Bits[d] < 0x80
    ensures forall k :: 0 <= k < SEGMENTS ==> (BitSet(Bits[d], k) <==> k in Lit[d])
    ensures Popcount(Bits[d]) == [6, 2, 5, 5, 4, 5, 6, 3, 7, 6][d]
  {
    if d == 0 {
      assert BitSet(0x3F, 0);
      assert BitSet(0x3F, 1);
      assert BitSet(0x3F, 2);
      assert BitSet(0x3F, 3);
      assert BitSet(0x3F, 4);
      assert BitSet(0x3F, 5);
      assert !BitSet(0x3F, 6);
    } else if d == 1 {
      assert !BitSet(0x6, 0);
      assert BitSet(0x6, 1);
      assert BitSet(0x6, 2);
      assert !BitSet(0x6, 3);
      assert !BitSet(0x6, 4);
      assert !BitSet(0x6, 5);
      assert !BitSet(0x6, 6);
    } else if d == 2 {
      assert BitSet(0x5B, 0);
      assert BitSet(0x5B, 1);
      assert !BitSet(0x5B, 2);
      assert BitSet(0x5B, 3);
      assert BitSet(0x5B, 4);
      assert !BitSet(0x5B, 5);
      assert BitSet(0x5B, 6);
    } else if d == 3 {
      assert BitSet(0x4F, 0);
      assert BitSet(0x4F, 1);
      assert BitSet(0x4F, 2);
      assert BitSet(0x4F, 3);
      assert !BitSet(0x4F, 4);
      assert !BitSet(0x4F, 5);
      assert BitSet(0x4F, 6);
    } else if d == 4 {
      assert !BitSet(0x66, 0);
      assert BitSet(0x66, 1);
      assert BitSet(0x66, 2);
      assert !BitSet(0x66, 3);
      assert !BitSet(0x66, 4);
      assert BitSet(0x66, 5);
      assert BitSet(0x66, 6);
    } else if d == 5 {
      assert BitSet(0x6D, 0);
      assert !BitSet(0x6D, 1);
      assert BitSet(0x6D, 2);
      assert BitSet(0x6D, 3);
      assert !BitSet(0x6D, 4);
      assert BitSet(0x6D, 5);
      assert BitSet(0x6D, 6);
    } else if d == 6 {
      assert BitSet(0x7D, 0);
      assert !BitSet(0x7D, 1);
      assert BitSet(0x7D, 2);
      assert BitSet(0x7D, 3);
      assert BitSet(0x7D, 4);
      assert BitSet(0x7D, 5);
      assert BitSet(0x7D, 6);
    } else if d == 7 {
      assert BitSet(0x7, 0);
      assert BitSet(0x7, 1);
      assert BitSet(0x7, 2);
      assert !BitSet(0x7, 3);
      assert !BitSet(0x7, 4);
      assert !BitSet(0x7, 5);
      assert !BitSet(0x7, 6);
    } else if d == 8 {
      assert BitSet(0x7F, 0);
      assert BitSet(0x7F, 1);
      assert BitSet(0x7F, 2);
      assert BitSet(0x7F, 3);
      assert BitSet(0x7F, 4);
      assert BitSet(0x7F, 5);
      assert BitSet(0x7F, 6);
    } else if d == 9 {
      assert BitSet(0x6F, 0);
      assert BitSet(0x6F, 1);
      assert BitSet(0x6F, 2);
      assert BitSet(0x6F, 3);
      assert !BitSet(0x6F, 4);
      assert BitSet(0x6F, 5);
      assert BitSet(0x6F, 6);
    }
  }

  /** Reads a mask back to its numeral (10 for a mask not in the table). */
  function NumeralOf(mask: int): int {
    if mask == 0x3F then 0 else if mask == 0x06 then 1 else if mask == 0x5B then 2
    else if mask == 0x4F then 3 else if mask == 0x66 then 4 else if mask == 0x6D then 5
    else if mask == 0x7D then 6 else if mask == 0x07 then 7 else if mask == 0x7F then 8
    else if mask == 0x6F then 9 else 10
  }

  /** The ten masks are pairwise distinct. */
  lemma MasksDistinct(d: Digit, e: Digit)
    requires Bits[d] == Bits[e]
    ensures d == e
  {
    assert NumeralOf(Bits[d]) == d && NumeralOf(Bits[e]) == e;
  }

  /** Two numbers below 2^n with the same low n bits are equal. */
  lemma {:induction false} BitsDetermine(x: nat, y: nat, n: nat)
    requires x < Pow2(n) && y < Pow2(n)
    requires forall k :: 0 <= k < n ==> BitSet(x, k) == BitSet(y, k)
    ensures x == y
  {
    if n > 0 {
      assert BitSet(x, 0) == BitSet(y, 0);
      forall k | 0 <= k < n - 1
        ensures BitSet(x / 2, k) == BitSet(y / 2, k)
      {
        assert BitSet(x, k + 1) == BitSet(y, k + 1);
      }
      BitsDetermine(x / 2, y / 2, n - 1);
    }
  }

  /** The on/off pattern of a group of seven determines the numeral. */
  lemma PatternDeterminesDigit(d: Digit, e: Digit)
    requires forall k :: 0 <= k < SEGMENTS ==> BitSet(Bits[d], k) == BitSet(Bits[e], k)
    ensures d == e
  {
    DigitTable(d);
    DigitTable(e);
    assert Pow2(7) == 0x80;
    BitsDetermine(Bits[d], Bits[e], 7);
    MasksDistinct(d, e);
  }

  // ---------------------------------------------------------------------
  // The segment

  /** A group entry `(index, pin)`: position in the group and channel. */
  type Entry = (nat, PinIndex)

  /** The `ones` list built by `Segment.__init__`: positions 0..6 on pins 0..6. */
  function Ones(): (g: seq<Entry>)
    ensures |g| == SEGMENTS && forall k :: 0 <= k < SEGMENTS ==> g[k] == (k, k)
  {
    seq(SEGMENTS, k requires 0 <= k < SEGMENTS => (k, k))
  }

  /** The `tens` list: positions 0..6 on pins 7..13. */
  function Tens(): (g: seq<Entry>)
    ensures |g| == SEGMENTS && forall k :: 0 <= k < SEGMENTS ==> g[k] == (k, SEGMENTS + k)
  {
    seq(SEGMENTS, k requires 0 <= k < SEGMENTS => (k, SEGMENTS + k))
  }

  /** A face: a servo board and the `(off, on)` duty pairs configured for
      its first channels. */
  datatype Segment = Segment(board: ServoController, duties: seq<(int, int)>) {
    /** `duties(pin)`: the configured pair, or the board's `(min_duty,
        max_duty)` for a channel past the end of the list. */
    function Duties(pin: nat): (int, int) {
      if pin < |duties| then duties[pin] else (board.bound.minDuty, board.bound.maxDuty)
    }
  }

  /** `divmod(number, 10)` for a two-digit number. */
  function Split(n: int): (p: (Digit, Digit))
    requires 0 <= n <= 99
    ensures 10 * p.0 + p.1 == n
  {
    (n / 10, n % 10)
  }

  /** The duty the loop asks a group entry's servo for. */
  function Request(seg: Segment, digit: Digit, e: Entry): int {
    var (off, on) := seg.Duties(e.1);
    if BitSet(Bits[digit], e.0) then on else off
  }

  /** That duty after the servo pin's clamp. */
  function Stored(seg: Segment, digit: Digit, e: Entry): int {
    seg.board.bound.Apply(Request(seg, digit, e))
  }

  /** The index of the first entry whose clamped duty the pin refuses, or
      the length of the group if there is none. */
  function FirstRejected(seg: Segment, digit: Digit, group: seq<Entry>): (i: nat)
    ensures i <= |group|
    ensures forall j :: 0 <= j < i ==> DutyAccepted(Stored(seg, digit, group[j]))
    ensures i < |group| ==> !DutyAccepted(Stored(seg, digit, group[i]))
    decreases |group|
  {
    if |group| == 0 then 0
    else if !DutyAccepted(Stored(seg, digit, group[0])) then 0
    else 1 + FirstRejected(seg, digit, group[1..])
  }

  /** The register writes for a run of accepted entries. */
  function Trace(seg: Segment, digit: Digit, group: seq<Entry>): (t: seq<Transaction>) {
    seq(|group|, j requires 0 <= j < |group| =>
      Write(PinRegister(group[j].1), PackedDuty(Stored(seg, digit, group[j]))))
  }

  predicate DistinctPins(group: seq<Entry>) {
    forall i, j :: 0 <= i < j < |group| ==> group[i].1 != group[j].1
  }

  /** What running a group from a bus with log `log0` leaves: writes for
      the entries before the first refused one, then the refusal if any. */
  predicate GroupRan(seg: Segment, digit: Digit, group: seq<Entry>, log0: seq<Transaction>, r: Outcome<()>) {
    var i := FirstRejected(seg, digit, group);
    && (r.Done? <==> i == |group|)
    && r.bus.log == log0 + Trace(seg, digit, group[..i])
    && (r.Raised? ==> r.error == InvalidPwm(EncodeDuty(Stored(seg, digit, group[i])).0,
                                            EncodeDuty(Stored(seg, digit, group[i])).1))
  }

  /** One `for index, pin in ...` loop of `write`: each entry's servo gets
      its on or off duty in turn; the first duty its pin refuses raises,
      keeping the writes made so far. */
  function WriteGroup(seg: Segment, bus: Bus, digit: Digit, group: seq<Entry>): (r: Outcome<()>)
    ensures GroupRan(seg, digit, group, bus.log, r)
    decreases |group|
  {
    if |group| == 0 then Done(bus, ())
    else
      var r0 := SetDuty(Pins(seg.board)[group[0].1], bus, Request(seg, digit, group[0]));
      if r0.Raised? then r0
      else
        var r := WriteGroup(seg, r0.bus, digit, group[1..]);
        GroupStepLog(seg, bus, digit, group, r0, r);
        r
  }

  /** The write the loop issues for an entry whose duty is accepted. */
  function EntryWrite(seg: Segment, digit: Digit, e: Entry): Transaction {
    Write(PinRegister(e.1), PackedDuty(Stored(seg, digit, e)))
  }

  lemma TraceCons(seg: Segment, digit: Digit, group: seq<Entry>, i: nat)
    requires 0 < i <= |group|
    requires forall j :: 0 <= j < i ==> DutyAccepted(Stored(seg, digit, group[j]))
    ensures Trace(seg, digit, group[..i])
      == [EntryWrite(seg, digit, group[0])] + Trace(seg, digit, group[1..][..i - 1])
  {
    var t, u := Trace(seg, digit, group[..i]), Trace(seg, digit, group[1..][..i - 1]);
    assert |t| == 1 + |u|;
    forall j | 1 <= j < i
      ensures t[j] == u[j - 1]
    {
      assert group[..i][j] == group[1..][..i - 1][j - 1];
    }
  }

  /** The inductive step of `WriteGroup`'s log contract. */
  lemma GroupStepLog(seg: Segment, bus: Bus, digit: Digit, group: seq<Entry>, r0: Outcome<()>, r: Outcome<()>)
    requires |group| > 0 && DutyAccepted(Stored(seg, digit, group[0]))
    requires r0.bus.log == bus.log + [EntryWrite(seg, digit, group[0])]
    requires var i := FirstRejected(seg, digit, group[1..]);
      && r.bus.log == r0.bus.log + Trace(seg, digit, group[1..][..i])
    ensures var i := FirstRejected(seg, digit, group);
      r.bus.log == bus.log + Trace(seg, digit, group[..i])
  {
    var i := FirstRejected(seg, digit, group);
    assert i == 1 + FirstRejected(seg, digit, group[1..]);
    TraceCons(seg, digit, group, i);
    var u := Trace(seg, digit, group[1..][..i - 1]);
    assert r.bus.log == bus.log + [EntryWrite(seg, digit, group[0])] + u;
  }

  /** What one group's writes leave in the registers: nothing changes
      outside the windows of the entries before the first refusal, and
      with distinct pins each of those windows holds its entry's packed
      duty. */
  ghost predicate GroupRegs(seg: Segment, digit: Digit, group: seq<Entry>, regs0: Registers, r: Outcome<()>) {
    && (forall a :: (forall j :: 0 <= j < FirstRejected(seg, digit, group) ==> !InWindow(group[j].1, a)) ==>
          Load(r.bus.regs, a) == Load(regs0, a))
    && (DistinctPins(group) ==> forall j :: 0 <= j < FirstRejected(seg, digit, group) ==>
          Fetch(r.bus.regs, PinRegister(group[j].1), 4) == PackedDuty(Stored(seg, digit, group[j])))
  }

  lemma {:induction false} WriteGroupRegisters(seg: Segment, bus: Bus, digit: Digit, group: seq<Entry>)
    ensures GroupRegs(seg, digit, group, bus.regs, WriteGroup(seg, bus, digit, group))
    decreases |group|
  {
    if |group| > 0 {
      var pin := Pins(seg.board)[group[0].1];
      var r0 := SetDuty(pin, bus, Request(seg, digit, group[0]));
      if r0.Done? {
        var r := WriteGroup(seg, r0.bus, digit, group[1..]);
        assert WriteGroup(seg, bus, digit, group) == r;
        WriteGroupRegisters(seg, r0.bus, digit, group[1..]);
        GroupRegsStep(seg, digit, group, bus.regs, r0, r);
      } else {
        assert WriteGroup(seg, bus, digit, group) == r0;
      }
    }
  }

  /** The inductive step of `WriteGroupRegisters`, from the first write's
      contract and the rest of the group's register facts. */
  lemma GroupRegsStep(seg: Segment, digit: Digit, group: seq<Entry>, regs0: Registers, r0: Outcome<()>, r: Outcome<()>)
    requires |group| > 0 && r0.Done? && DutyAccepted(Stored(seg, digit, group[0]))
    requires forall a :: !InWindow(group[0].1, a) ==> Load(r0.bus.regs, a) == Load(regs0, a)
    requires Fetch(r0.bus.regs, PinRegister(group[0].1), 4) == PackedDuty(Stored(seg, digit, group[0]))
    requires GroupRegs(seg, digit, group[1..], r0.bus.regs, r)
    ensures GroupRegs(seg, digit, group, regs0, r)
  {
    GroupStepFrame(seg, digit, group, regs0, r0.bus.regs, r.bus.regs);
    if DistinctPins(group) {
      GroupStepWindows(seg, digit, group, r0.bus.regs, r.bus.regs);
    }
  }

  lemma GroupStepWindows(seg: Segment, digit: Digit, group: seq<Entry>, regs1: Registers, regs2: Registers)
    requires |group| > 0 && DistinctPins(group) && DutyAccepted(Stored(seg, digit, group[0]))
    requires Fetch(regs1, PinRegister(group[0].1), 4) == PackedDuty(Stored(seg, digit, group[0]))
    requires forall a :: (forall j :: 0 <= j < FirstRejected(seg, digit, group[1..]) ==> !InWindow(group[1..][j].1, a)) ==>
      Load(regs2, a) == Load(regs1, a)
    requires forall j :: 0 <= j < FirstRejected(seg, digit, group[1..]) ==>
      Fetch(regs2, PinRegister(group[1..][j].1), 4) == PackedDuty(Stored(seg, digit, group[1..][j]))
    ensures forall j :: 0 <= j < FirstRejected(seg, digit, group) ==>
      Fetch(regs2, PinRegister(group[j].1), 4) == PackedDuty(Stored(seg, digit, group[j]))
  {
    GroupStepWindow(seg, digit, group, regs1, regs2);
    var i := FirstRejected(seg, digit, group);
    assert i == 1 + FirstRejected(seg, digit, group[1..]);
    forall j | 1 <= j < i
      ensures Fetch(regs2, PinRegister(group[j].1), 4) == PackedDuty(Stored(seg, digit, group[j]))
    {
      assert group[1..][j - 1] == group[j];
    }
  }

  lemma GroupStepFrame(seg: Segment, digit: Digit, group: seq<Entry>, regs0: Registers, regs1: Registers, regs2: Registers)
    requires |group| > 0 && DutyAccepted(Stored(seg, digit, group[0]))
    requires forall a :: !InWindow(group[0].1, a) ==> Load(regs1, a) == Load(regs0, a)
    requires forall a :: (forall j :: 0 <= j < FirstRejected(seg, digit, group[1..]) ==> !InWindow(group[1..][j].1, a)) ==>
      Load(regs2, a) == Load(regs1, a)
    ensures forall a :: (forall j :: 0 <= j < FirstRejected(seg, digit, group) ==> !InWindow(group[j].1, a)) ==>
      Load(regs2, a) == Load(regs0, a)
  {
    var i := FirstRejected(seg, digit, group);
    assert i == 1 + FirstRejected(seg, digit, group[1..]);
    forall a | forall j :: 0 <= j < i ==> !InWindow(group[j].1, a)
      ensures Load(regs2, a) == Load(regs0, a)
    {
      assert !InWindow(group[0].1, a);
      forall j | 0 <= j < i - 1
        ensures !InWindow(group[1..][j].1, a)
      {
        assert group[1..][j] == group[j + 1];
      }
    }
  }

  lemma GroupStepWindow(seg: Segment, digit: Digit, group: seq<Entry>, regs1: Registers, regs2: Registers)
    requires |group| > 0 && DistinctPins(group)
    requires Fetch(regs1, PinRegister(group[0].1), 4) == PackedDuty(Stored(seg, digit, group[0]))
    requires forall a :: (forall j :: 0 <= j < FirstRejected(seg, digit, group[1..]) ==> !InWindow(group[1..][j].1, a)) ==>
      Load(regs2, a) == Load(regs1, a)
    ensures Fetch(regs2, PinRegister(group[0].1), 4) == PackedDuty(Stored(seg, digit, group[0]))
  {
    var p := group[0].1;
    forall a | PinRegister(p) <= a < PinRegister(p) + 4
      ensures Load(regs2, a) == Load(regs1, a)
    {
      forall j | 0 <= j < FirstRejected(seg, digit, group[1..])
        ensures !InWindow(group[1..][j].1, a)
      {
        assert group[1..][j] == group[j + 1];
        WindowsDisjoint(p, group[j + 1].1, a);
      }
    }
    FetchUnaffected(regs1, PinRegister(p), 4, regs2);
  }

  // ---------------------------------------------------------------------
  // `write`, channel by channel

  /** The digit channel c shows: the ones digit on 0..6, the tens on 7..13. */
  function DigitFor(n: int, c: int): Digit
    requires 0 <= n <= 99 && 0 <= c < CHANNELS
  {
    if c < SEGMENTS then Split(n).1 else Split(n).0
  }

  /** Reference for what channel c of a face showing n is sent: the on duty
      of its pair when segment `c % 7` of its digit is lit, the off duty
      otherwise, after the board's clamp. */
  function Planned(seg: Segment, n: int, c: int): int
    requires 0 <= n <= 99 && 0 <= c < CHANNELS
  {
    var (off, on) := seg.Duties(c);
    seg.board.bound.Apply(if BitSet(Bits[DigitFor(n, c)], c % SEGMENTS) then on else off)
  }

  /** The writes to channels 0..m-1, in channel order. */
  function Plan(seg: Segment, n: int, m: nat): (t: seq<Transaction>)
    requires 0 <= n <= 99 && m <= CHANNELS
  {
    seq(m, c requires 0 <= c < m => Write(PinRegister(c), PackedDuty(Planned(seg, n, c))))
  }

  /** Channel c is the first whose planned duty its pin refuses. */
  predicate FirstRefusal(seg: Segment, n: int, c: int)
    requires 0 <= n <= 99 && 0 <= c < CHANNELS
  {
    && !DutyAccepted(Planned(seg, n, c))
    && forall c' :: 0 <= c' < c ==> DutyAccepted(Planned(seg, n, c'))
  }

  /** The error raised when channel c's planned duty is refused. */
  function Refusal(seg: Segment, n: int, c: int): Error
    requires 0 <= n <= 99 && 0 <= c < CHANNELS
  {
    InvalidPwm(EncodeDuty(Planned(seg, n, c)).0, EncodeDuty(Planned(seg, n, c)).1)
  }

  /** `Segment.write`: split n into tens and ones, then write channels 0..6
      from the ones digit and channels 7..13 from the tens digit, one duty
      each, in channel order. The first refused duty raises, keeping the
      writes before it. */
  function WriteNumber(seg: Segment, bus: Bus, n: int): (r: Outcome<()>)
    requires 0 <= n <= 99
    ensures r.Done? <==> forall c :: 0 <= c < CHANNELS ==> DutyAccepted(Planned(seg, n, c))
    ensures r.Done? ==> r.bus.log == bus.log + Plan(seg, n, CHANNELS)
    ensures r.Raised? ==> exists c :: (0 <= c < CHANNELS && FirstRefusal(seg, n, c)
                                       && r.bus.log == bus.log + Plan(seg, n, c)
                                       && r.error == Refusal(seg, n, c))
    ensures r.Done? ==> forall c :: 0 <= c < CHANNELS ==>
      Fetch(r.bus.regs, PinRegister(c), 4) == PackedDuty(Planned(seg, n, c))
    ensures forall a :: !(LED0 <= a < LED0 + 4 * CHANNELS) ==> Load(r.bus.regs, a) == Load(bus.regs, a)
    ensures forall c :: 0 <= c < CHANNELS && AcceptedThrough(seg, n, c) ==>
      Fetch(r.bus.regs, PinRegister(c), 4) == PackedDuty(Planned(seg, n, c))
    ensures forall c :: 0 <= c < CHANNELS && !AcceptedThrough(seg, n, c) ==>
      Fetch(r.bus.regs, PinRegister(c), 4) == Fetch(bus.regs, PinRegister(c), 4)
  {
    var r1 := WriteGroup(seg, bus, Split(n).1, Ones());
    var r := if r1.Raised? then r1 else WriteGroup(seg, r1.bus, Split(n).0, Tens());
    GroupsRan(seg, bus, n);
    WriteFacts(seg, bus, n, r1, r);
    CombineWritten(seg, n, bus.regs, r1, r);
    CombineUnwritten(seg, n, bus.regs, r1, r);
    r
  }

  /** The two loops' contracts, for the outcomes `WriteNumber` combines. */
  lemma GroupsRan(seg: Segment, bus: Bus, n: int)
    requires 0 <= n <= 99
    ensures var r1 := WriteGroup(seg, bus, Split(n).1, Ones());
      && GroupRan(seg, Split(n).1, Ones(), bus.log, r1)
      && Settled(seg, Split(n).1, 0, bus.regs, r1)
    ensures var r1 := WriteGroup(seg, bus, Split(n).1, Ones());
      var r2 := WriteGroup(seg, r1.bus, Split(n).0, Tens());
      && GroupRan(seg, Split(n).0, Tens(), r1.bus.log, r2)
      && Settled(seg, Split(n).0, SEGMENTS, r1.bus.regs, r2)
  {
    GroupSettles(seg, bus, Split(n).1, 0, Ones());
    GroupSettles(seg, WriteGroup(seg, bus, Split(n).1, Ones()).bus, Split(n).0, SEGMENTS, Tens());
  }

  /** `WriteNumber`'s contract, from the two loops' contracts. */
  lemma WriteFacts(seg: Segment, bus: Bus, n: int, r1: Outcome<()>, r: Outcome<()>)
    requires 0 <= n <= 99
    requires GroupRan(seg, Split(n).1, Ones(), bus.log, r1)
    requires Settled(seg, Split(n).1, 0, bus.regs, r1)
    requires r1.Raised? ==> r == r1
    requires r1.Done? ==> GroupRan(seg, Split(n).0, Tens(), r1.bus.log, r)
    requires r1.Done? ==> Settled(seg, Split(n).0, SEGMENTS, r1.bus.regs, r)
    ensures r.Done? <==> forall c :: 0 <= c < CHANNELS ==> DutyAccepted(Planned(seg, n, c))
    ensures r.Done? ==> r.bus.log == bus.log + Plan(seg, n, CHANNELS)
    ensures r.Raised? ==> exists c :: (0 <= c < CHANNELS && FirstRefusal(seg, n, c)
                                       && r.bus.log == bus.log + Plan(seg, n, c)
                                       && r.error == Refusal(seg, n, c))
    ensures r.Done? ==> forall c :: 0 <= c < CHANNELS ==>
      Fetch(r.bus.regs, PinRegister(c), 4) == PackedDuty(Planned(seg, n, c))
    ensures forall a :: !(LED0 <= a < LED0 + 4 * CHANNELS) ==> Load(r.bus.regs, a) == Load(bus.regs, a)
  {
    WriteOutcome(seg, bus, n, r1, r);
    CombineSettled(seg, n, bus.regs, r1, r);
  }

  lemma OnesAgree(seg: Segment, n: int, k: nat)
    requires 0 <= n <= 99 && k < SEGMENTS
    ensures Stored(seg, Split(n).1, Ones()[k]) == Planned(seg, n, k)
  {
  }

  lemma TensAgree(seg: Segment, n: int, k: nat)
    requires 0 <= n <= 99 && k < SEGMENTS
    ensures Stored(seg, Split(n).0, Tens()[k]) == Planned(seg, n, SEGMENTS + k)
  {
    assert (SEGMENTS + k) % SEGMENTS == k;
  }

  /** A group whose entries are channels base..base+6 and whose clamped
      duties are the planned ones. */
  predicate GroupMatches(seg: Segment, digit: Digit, group: seq<Entry>, n: int, base: nat)
    requires 0 <= n <= 99 && base + SEGMENTS <= CHANNELS
  {
    && |group| == SEGMENTS
    && forall k :: 0 <= k < SEGMENTS ==>
         group[k].1 == base + k && Stored(seg, digit, group[k]) == Planned(seg, n, base + k)
  }

  lemma OnesMatch(seg: Segment, n: int)
    requires 0 <= n <= 99
    ensures GroupMatches(seg, Split(n).1, Ones(), n, 0)
  {
    forall k | 0 <= k < SEGMENTS
      ensures Stored(seg, Split(n).1, Ones()[k]) == Planned(seg, n, k)
    {
      OnesAgree(seg, n, k);
    }
  }

  lemma TensMatch(seg: Segment, n: int)
    requires 0 <= n <= 99
    ensures GroupMatches(seg, Split(n).0, Tens(), n, SEGMENTS)
  {
    forall k | 0 <= k < SEGMENTS
      ensures Stored(seg, Split(n).0, Tens()[k]) == Planned(seg, n, SEGMENTS + k)
    {
      TensAgree(seg, n, k);
    }
  }

  /** The first refused entry of a matching group is the first refused
      channel of base..base+6. */
  lemma RejectedMatches(seg: Segment, digit: Digit, group: seq<Entry>, n: int, base: nat)
    requires 0 <= n <= 99 && base + SEGMENTS <= CHANNELS
    requires GroupMatches(seg, digit, group, n, base)
    ensures var i := FirstRejected(seg, digit, group);
      && (forall c :: base <= c < base + i ==> DutyAccepted(Planned(seg, n, c)))
      && (i < SEGMENTS ==> !DutyAccepted(Planned(seg, n, base + i)))
  {
    var i := FirstRejected(seg, digit, group);
    forall c | base <= c < base + i
      ensures DutyAccepted(Planned(seg, n, c))
    {
      assert DutyAccepted(Stored(seg, digit, group[c - base]));
    }
  }

  /** The writes of a matching group's accepted prefix are the plan's
      writes for the same channels. */
  lemma TraceMatches(seg: Segment, digit: Digit, group: seq<Entry>, n: int, base: nat, i: nat)
    requires 0 <= n <= 99 && base + SEGMENTS <= CHANNELS && i <= SEGMENTS
    requires GroupMatches(seg, digit, group, n, base)
    requires forall c :: 0 <= c < base + i ==> DutyAccepted(Planned(seg, n, c))
    ensures forall k :: 0 <= k < i ==> DutyAccepted(Stored(seg, digit, group[k]))
    ensures Trace(seg, digit, group[..i]) == Plan(seg, n, base + i)[base..]
  {
    forall k | 0 <= k < i
      ensures DutyAccepted(Stored(seg, digit, group[k]))
    {
      assert Stored(seg, digit, group[k]) == Planned(seg, n, base + k);
    }
    var t, p := Trace(seg, digit, group[..i]), Plan(seg, n, base + i)[base..];
    assert |t| == |p|;
    forall k | 0 <= k < i
      ensures t[k] == p[k]
    {
      assert group[..i][k] == group[k];
    }
  }

  /** The ones loop's log and refusal, restated channel by channel: it
      writes channels 0..i-1, where i is the first refused channel among
      0..6 (7 when there is none). */
  lemma OnesPhase(seg: Segment, log0: seq<Transaction>, n: int, r1: Outcome<()>)
    requires 0 <= n <= 99
    requires GroupRan(seg, Split(n).1, Ones(), log0, r1)
    ensures var i := FirstRejected(seg, Split(n).1, Ones());
      && (forall c :: 0 <= c < i ==> DutyAccepted(Planned(seg, n, c)))
      && (r1.Done? <==> i == SEGMENTS)
      && r1.bus.log == log0 + Plan(seg, n, i)
      && (r1.Raised? ==> FirstRefusal(seg, n, i) && r1.error == Refusal(seg, n, i))
  {
    var ones := Split(n).1;
    var i := FirstRejected(seg, ones, Ones());
    OnesMatch(seg, n);
    RejectedMatches(seg, ones, Ones(), n, 0);
    TraceMatches(seg, ones, Ones(), n, 0, i);
    assert Plan(seg, n, i)[0..] == Plan(seg, n, i);
    if i < SEGMENTS {
      assert Stored(seg, ones, Ones()[i]) == Planned(seg, n, i);
    }
  }

  /** The tens loop, run after every ones channel was accepted, writes
      channels 7..6+j, where 7+j is the first refused channel (14 when
      there is none). */
  lemma TensPhase(seg: Segment, log1: seq<Transaction>, n: int, r2: Outcome<()>)
    requires 0 <= n <= 99
    requires forall c :: 0 <= c < SEGMENTS ==> DutyAccepted(Planned(seg, n, c))
    requires GroupRan(seg, Split(n).0, Tens(), log1, r2)
    ensures var j := FirstRejected(seg, Split(n).0, Tens());
      && (forall c :: 0 <= c < SEGMENTS + j ==> DutyAccepted(Planned(seg, n, c)))
      && (r2.Done? <==> j == SEGMENTS)
      && r2.bus.log == log1 + Plan(seg, n, SEGMENTS + j)[SEGMENTS..]
      && (r2.Raised? ==> FirstRefusal(seg, n, SEGMENTS + j) && r2.error == Refusal(seg, n, SEGMENTS + j))
  {
    var tens := Split(n).0;
    var j := FirstRejected(seg, tens, Tens());
    TensMatch(seg, n);
    RejectedMatches(seg, tens, Tens(), n, SEGMENTS);
    TraceMatches(seg, tens, Tens(), n, SEGMENTS, j);
    if j < SEGMENTS {
      assert Stored(seg, tens, Tens()[j]) == Planned(seg, n, SEGMENTS + j);
    }
  }

  lemma WriteOutcome(seg: Segment, bus: Bus, n: int, r1: Outcome<()>, r: Outcome<()>)
    requires 0 <= n <= 99
    requires GroupRan(seg, Split(n).1, Ones(), bus.log, r1)
    requires r1.Raised? ==> r == r1
    requires r1.Done? ==> GroupRan(seg, Split(n).0, Tens(), r1.bus.log, r)
    ensures r.Done? <==> forall c :: 0 <= c < CHANNELS ==> DutyAccepted(Planned(seg, n, c))
    ensures r.Done? ==> r.bus.log == bus.log + Plan(seg, n, CHANNELS)
    ensures r.Raised? ==> exists c :: (0 <= c < CHANNELS && FirstRefusal(seg, n, c)
                                       && r.bus.log == bus.log + Plan(seg, n, c)
                                       && r.error == Refusal(seg, n, c))
  {
    OnesPhase(seg, bus.log, n, r1);
    if r1.Raised? {
      var i := FirstRejected(seg, Split(n).1, Ones());
      assert 0 <= i < CHANNELS && FirstRefusal(seg, n, i);
    } else {
      TensPhase(seg, r1.bus.log, n, r);
      TensOutcome(seg, bus.log, n, FirstRejected(seg, Split(n).0, Tens()), r);
    }
  }

  /** The whole write's outcome, from the tens loop's channel-level facts. */
  lemma TensOutcome(seg: Segment, log0: seq<Transaction>, n: int, j: nat, r: Outcome<()>)
    requires 0 <= n <= 99 && j <= SEGMENTS
    requires forall c :: 0 <= c < SEGMENTS + j ==> DutyAccepted(Planned(seg, n, c))
    requires r.Done? <==> j == SEGMENTS
    requires r.bus.log == log0 + Plan(seg, n, SEGMENTS) + Plan(seg, n, SEGMENTS + j)[SEGMENTS..]
    requires r.Raised? ==> FirstRefusal(seg, n, SEGMENTS + j) && r.error == Refusal(seg, n, SEGMENTS + j)
    ensures r.Done? <==> forall c :: 0 <= c < CHANNELS ==> DutyAccepted(Planned(seg, n, c))
    ensures r.Done? ==> r.bus.log == log0 + Plan(seg, n, CHANNELS)
    ensures r.Raised? ==> exists c :: (0 <= c < CHANNELS && FirstRefusal(seg, n, c)
                                       && r.bus.log == log0 + Plan(seg, n, c)
                                       && r.error == Refusal(seg, n, c))
  {
    PlanConcat(seg, log0, n, j);
    if r.Raised? {
      TensRefusal(seg, log0, n, SEGMENTS + j, r);
    }
  }

  lemma TensRefusal(seg: Segment, log0: seq<Transaction>, n: int, c: nat, r: Outcome<()>)
    requires 0 <= n <= 99 && SEGMENTS <= c < CHANNELS
    requires r.Raised? && FirstRefusal(seg, n, c) && r.error == Refusal(seg, n, c)
    requires r.bus.log == log0 + Plan(seg, n, c)
    ensures exists c' :: (0 <= c' < CHANNELS && FirstRefusal(seg, n, c')
                          && r.bus.log == log0 + Plan(seg, n, c')
                          && r.error == Refusal(seg, n, c'))
    ensures !forall c' :: 0 <= c' < CHANNELS ==> DutyAccepted(Planned(seg, n, c'))
  {
  }

  /** The ones channels' writes followed by the tens channels' writes are
      the writes to channels 0..6+j. */
  lemma PlanConcat(seg: Segment, log0: seq<Transaction>, n: int, j: nat)
    requires 0 <= n <= 99 && j <= SEGMENTS
    ensures log0 + Plan(seg, n, SEGMENTS) + Plan(seg, n, SEGMENTS + j)[SEGMENTS..]
         == log0 + Plan(seg, n, SEGMENTS + j)
  {
    var p, q := Plan(seg, n, SEGMENTS + j), Plan(seg, n, SEGMENTS);
    forall c | 0 <= c < SEGMENTS
      ensures q[c] == p[c]
    {
    }
    assert q == p[..SEGMENTS];
    assert q + p[SEGMENTS..] == p;
  }

  // ---------------------------------------------------------------------
  // What a write leaves behind

  /** What one group's writes leave in the registers: nothing outside
      channels base..base+6 changes, and on completion channel base+k
      holds the packed duty of entry (k, base+k). */
  ghost predicate Settled(seg: Segment, digit: Digit, base: nat, regs0: Registers, r: Outcome<()>)
    requires base + SEGMENTS <= PIN_COUNT
  {
    && (forall a :: !(LED0 + 4 * base <= a < LED0 + 4 * (base + SEGMENTS)) ==>
          Load(r.bus.regs, a) == Load(regs0, a))
    && (r.Done? ==> forall c :: base <= c < base + SEGMENTS ==>
          Fetch(r.bus.regs, PinRegister(c), 4) == PackedDuty(Stored(seg, digit, (c - base, c))))
    && (forall c :: base <= c < base + SEGMENTS && GroupAcceptedThrough(seg, digit, base, c) ==>
          Fetch(r.bus.regs, PinRegister(c), 4) == PackedDuty(Stored(seg, digit, (c - base, c))))
    && (forall c :: base <= c < base + SEGMENTS && !GroupAcceptedThrough(seg, digit, base, c) ==>
          Fetch(r.bus.regs, PinRegister(c), 4) == Fetch(regs0, PinRegister(c), 4))
  }

  /** The clamped duty of the group entry that drives channel c. */
  function SlotDuty(seg: Segment, digit: Digit, base: nat, c: PinIndex): int
    requires base <= c
  {
    Stored(seg, digit, (c - base, c))
  }

  /** Channels base..c of a group all accept their clamped duties. */
  predicate GroupAcceptedThrough(seg: Segment, digit: Digit, base: nat, c: PinIndex) {
    forall k: PinIndex :: base <= k <= c ==> DutyAccepted(SlotDuty(seg, digit, base, k))
  }

  lemma GroupSettles(seg: Segment, bus: Bus, digit: Digit, base: nat, group: seq<Entry>)
    requires base + SEGMENTS <= PIN_COUNT
    requires |group| == SEGMENTS && forall k :: 0 <= k < SEGMENTS ==> group[k] == (k, base + k)
    ensures var r := WriteGroup(seg, bus, digit, group);
      GroupRan(seg, digit, group, bus.log, r) && Settled(seg, digit, base, bus.regs, r)
  {
    assert DistinctPins(group);
    WriteGroupRegisters(seg, bus, digit, group);
    SettledFrom(seg, digit, base, group, bus.regs, WriteGroup(seg, bus, digit, group));
  }

  lemma SettledFrom(seg: Segment, digit: Digit, base: nat, group: seq<Entry>, regs0: Registers, r: Outcome<()>)
    requires base + SEGMENTS <= PIN_COUNT
    requires |group| == SEGMENTS && forall k :: 0 <= k < SEGMENTS ==> group[k] == (k, base + k)
    requires r.Done? ==> FirstRejected(seg, digit, group) == |group|
    requires DistinctPins(group) && GroupRegs(seg, digit, group, regs0, r)
    ensures Settled(seg, digit, base, regs0, r)
  {
    SettledParts(seg, digit, base, group, FirstRejected(seg, digit, group), regs0, r);
  }

  /** `SettledFrom`, with the group's register facts spelled out for the
      number i of entries written. */
  lemma SettledParts(seg: Segment, digit: Digit, base: nat, group: seq<Entry>, i: nat, regs0: Registers, r: Outcome<()>)
    requires base + SEGMENTS <= PIN_COUNT
    requires |group| == SEGMENTS && forall k :: 0 <= k < SEGMENTS ==> group[k] == (k, base + k)
    requires i == FirstRejected(seg, digit, group) && (r.Done? ==> i == |group|)
    requires forall a :: (forall j :: 0 <= j < i ==> !InWindow(group[j].1, a)) ==>
      Load(r.bus.regs, a) == Load(regs0, a)
    requires forall j :: 0 <= j < i ==>
      Fetch(r.bus.regs, PinRegister(group[j].1), 4) == PackedDuty(Stored(seg, digit, group[j]))
    ensures Settled(seg, digit, base, regs0, r)
  {
    GroupFrame(group, base, i, regs0, r.bus.regs);
    UnwrittenWindows(seg, digit, base, group, i, regs0, r.bus.regs);
    CompletedWindows(seg, digit, base, group, i, r);
    WrittenPrefix(seg, digit, base, group, i, r);
  }

  /** The channels of a group not reached keep their windows. */
  lemma UnwrittenWindows(seg: Segment, digit: Digit, base: nat, group: seq<Entry>, i: nat, regs0: Registers, regs: Registers)
    requires base + SEGMENTS <= PIN_COUNT
    requires |group| == SEGMENTS && forall k :: 0 <= k < SEGMENTS ==> group[k] == (k, base + k)
    requires i == FirstRejected(seg, digit, group)
    requires forall c :: base + i <= c < base + SEGMENTS ==> Fetch(regs, PinRegister(c), 4) == Fetch(regs0, PinRegister(c), 4)
    ensures forall c :: base <= c < base + SEGMENTS && !GroupAcceptedThrough(seg, digit, base, c) ==>
      Fetch(regs, PinRegister(c), 4) == Fetch(regs0, PinRegister(c), 4)
  {
    PrefixAccepted(seg, digit, base, group);
  }

  /** A completed group wrote every one of its channels. */
  lemma CompletedWindows(seg: Segment, digit: Digit, base: nat, group: seq<Entry>, i: nat, r: Outcome<()>)
    requires base + SEGMENTS <= PIN_COUNT
    requires |group| == SEGMENTS && forall k :: 0 <= k < SEGMENTS ==> group[k] == (k, base + k)
    requires i <= |group| && (r.Done? ==> i == |group|)
    requires forall j :: 0 <= j < i ==>
      Fetch(r.bus.regs, PinRegister(group[j].1), 4) == PackedDuty(Stored(seg, digit, group[j]))
    ensures r.Done? ==> forall c :: base <= c < base + SEGMENTS ==>
      Fetch(r.bus.regs, PinRegister(c), 4) == PackedDuty(Stored(seg, digit, (c - base, c)))
  {
    if r.Done? {
      forall c | base <= c < base + SEGMENTS
        ensures Fetch(r.bus.regs, PinRegister(c), 4) == PackedDuty(Stored(seg, digit, (c - base, c)))
      {
        assert group[c - base] == (c - base, c);
      }
    }
  }

  /** A group that wrote only its first i entries changed nothing outside
      its channels, and left the windows of channels base+i.. as they were. */
  lemma GroupFrame(group: seq<Entry>, base: nat, i: nat, regs0: Registers, regs: Registers)
    requires base + SEGMENTS <= PIN_COUNT && i <= SEGMENTS
    requires |group| == SEGMENTS && forall k :: 0 <= k < SEGMENTS ==> group[k] == (k, base + k)
    requires forall a :: (forall j :: 0 <= j < i ==> !InWindow(group[j].1, a)) ==> Load(regs, a) == Load(regs0, a)
    ensures forall a :: !(LED0 + 4 * base <= a < LED0 + 4 * (base + SEGMENTS)) ==> Load(regs, a) == Load(regs0, a)
    ensures forall c :: base + i <= c < base + SEGMENTS ==> Fetch(regs, PinRegister(c), 4) == Fetch(regs0, PinRegister(c), 4)
  {
    forall a | !(LED0 + 4 * base <= a < LED0 + 4 * (base + SEGMENTS))
      ensures Load(regs, a) == Load(regs0, a)
    {
      forall j | 0 <= j < i
        ensures !InWindow(group[j].1, a)
      {
      }
    }
    forall c | base + i <= c < base + SEGMENTS
      ensures Fetch(regs, PinRegister(c), 4) == Fetch(regs0, PinRegister(c), 4)
    {
      forall a | PinRegister(c) <= a < PinRegister(c) + 4
        ensures Load(regs, a) == Load(regs0, a)
      {
        forall j | 0 <= j < i
          ensures !InWindow(group[j].1, a)
        {
          WindowsDisjoint(c, group[j].1, a);
        }
      }
      FetchUnaffected(regs0, PinRegister(c), 4, regs);
    }
  }

  /** Every channel before the group's first refusal has all its group's
      duties up to it accepted. */
  lemma PrefixAccepted(seg: Segment, digit: Digit, base: nat, group: seq<Entry>)
    requires base + SEGMENTS <= PIN_COUNT
    requires |group| == SEGMENTS && forall k :: 0 <= k < SEGMENTS ==> group[k] == (k, base + k)
    ensures forall c :: base <= c < base + FirstRejected(seg, digit, group) ==> GroupAcceptedThrough(seg, digit, base, c)
  {
    var i := FirstRejected(seg, digit, group);
    forall c | base <= c < base + i
      ensures GroupAcceptedThrough(seg, digit, base, c)
    {
      forall k: PinIndex | base <= k <= c
        ensures DutyAccepted(SlotDuty(seg, digit, base, k))
      {
        assert group[k - base] == (k - base, k);
      }
    }
  }

  /** With distinct pins, every channel up to which the group's duties are
      all accepted was written, whether or not the group completed. */
  lemma WrittenPrefix(seg: Segment, digit: Digit, base: nat, group: seq<Entry>, i: nat, r: Outcome<()>)
    requires base + SEGMENTS <= PIN_COUNT
    requires |group| == SEGMENTS && forall k :: 0 <= k < SEGMENTS ==> group[k] == (k, base + k)
    requires i == FirstRejected(seg, digit, group)
    requires forall j :: 0 <= j < i ==>
      Fetch(r.bus.regs, PinRegister(group[j].1), 4) == PackedDuty(Stored(seg, digit, group[j]))
    ensures forall c :: base <= c < base + SEGMENTS && GroupAcceptedThrough(seg, digit, base, c) ==>
      Fetch(r.bus.regs, PinRegister(c), 4) == PackedDuty(Stored(seg, digit, (c - base, c)))
  {
    forall c | base <= c < base + SEGMENTS && GroupAcceptedThrough(seg, digit, base, c)
      ensures Fetch(r.bus.regs, PinRegister(c), 4) == PackedDuty(Stored(seg, digit, (c - base, c)))
    {
      WrittenSlot(seg, digit, base, group, c);
      assert group[c - base] == (c - base, c);
    }
  }

  /** A channel up to which the group's duties are all accepted lies
      before the group's first refusal. */
  lemma WrittenSlot(seg: Segment, digit: Digit, base: nat, group: seq<Entry>, c: PinIndex)
    requires base + SEGMENTS <= PIN_COUNT
    requires |group| == SEGMENTS && forall k :: 0 <= k < SEGMENTS ==> group[k] == (k, base + k)
    requires base <= c < base + SEGMENTS && GroupAcceptedThrough(seg, digit, base, c)
    ensures c - base < FirstRejected(seg, digit, group)
  {
    var i := FirstRejected(seg, digit, group);
    if i < |group| {
      assert group[i] == (i, base + i);
      assert !DutyAccepted(SlotDuty(seg, digit, base, base + i));
    }
  }

  /** Registers after both groups, from the two groups' settled facts. */
  lemma CombineSettled(seg: Segment, n: int, regs0: Registers, r1: Outcome<()>, r: Outcome<()>)
    requires 0 <= n <= 99
    requires Settled(seg, Split(n).1, 0, regs0, r1)
    requires r1.Raised? ==> r == r1
    requires r1.Done? ==> Settled(seg, Split(n).0, SEGMENTS, r1.bus.regs, r)
    ensures forall a :: !(LED0 <= a < LED0 + 4 * CHANNELS) ==> Load(r.bus.regs, a) == Load(regs0, a)
    ensures r.Done? ==> forall c :: 0 <= c < CHANNELS ==>
      Fetch(r.bus.regs, PinRegister(c), 4) == PackedDuty(Planned(seg, n, c))
  {
    if r.Done? {
      forall c | 0 <= c < SEGMENTS
        ensures Fetch(r.bus.regs, PinRegister(c), 4) == PackedDuty(Planned(seg, n, c))
      {
        OnesAgree(seg, n, c);
        FetchUnaffected(r1.bus.regs, PinRegister(c), 4, r.bus.regs);
      }
      forall c | SEGMENTS <= c < CHANNELS
        ensures Fetch(r.bus.regs, PinRegister(c), 4) == PackedDuty(Planned(seg, n, c))
      {
        TensAgree(seg, n, c - SEGMENTS);
      }
    }
  }

  /** Channels 0..c all accept their planned duties, so `write` reaches
      channel c. */
  predicate AcceptedThrough(seg: Segment, n: int, c: int)
    requires 0 <= n <= 99
  {
    forall c' :: 0 <= c' <= c && c' < CHANNELS ==> DutyAccepted(Planned(seg, n, c'))
  }

  /** Registers after both groups, for the channels written before any
      refusal: each holds its planned duty, whether or not `write`
      completed. */
  lemma CombineWritten(seg: Segment, n: int, regs0: Registers, r1: Outcome<()>, r: Outcome<()>)
    requires 0 <= n <= 99
    requires r1.Done? <==> FirstRejected(seg, Split(n).1, Ones()) == SEGMENTS
    requires Settled(seg, Split(n).1, 0, regs0, r1)
    requires r1.Raised? ==> r == r1
    requires r1.Done? ==> Settled(seg, Split(n).0, SEGMENTS, r1.bus.regs, r)
    ensures forall c :: 0 <= c < CHANNELS && AcceptedThrough(seg, n, c) ==>
      Fetch(r.bus.regs, PinRegister(c), 4) == PackedDuty(Planned(seg, n, c))
  {
    forall c | 0 <= c < SEGMENTS && AcceptedThrough(seg, n, c)
      ensures Fetch(r.bus.regs, PinRegister(c), 4) == PackedDuty(Planned(seg, n, c))
    {
      OnesThrough(seg, n, c);
      if r1.Done? {
        FetchUnaffected(r1.bus.regs, PinRegister(c), 4, r.bus.regs);
      }
    }
    forall c | SEGMENTS <= c < CHANNELS && AcceptedThrough(seg, n, c)
      ensures Fetch(r.bus.regs, PinRegister(c), 4) == PackedDuty(Planned(seg, n, c))
    {
      OnesAllAccepted(seg, n, c);
      TensThrough(seg, n, c);
    }
  }

  /** Registers after both groups, for the channels `write` never reached
      because an earlier channel refused its duty: each keeps what it held. */
  lemma CombineUnwritten(seg: Segment, n: int, regs0: Registers, r1: Outcome<()>, r: Outcome<()>)
    requires 0 <= n <= 99
    requires r1.Done? <==> FirstRejected(seg, Split(n).1, Ones()) == SEGMENTS
    requires Settled(seg, Split(n).1, 0, regs0, r1)
    requires r1.Raised? ==> r == r1
    requires r1.Done? ==> Settled(seg, Split(n).0, SEGMENTS, r1.bus.regs, r)
    ensures forall c :: 0 <= c < CHANNELS && !AcceptedThrough(seg, n, c) ==>
      Fetch(r.bus.regs, PinRegister(c), 4) == Fetch(regs0, PinRegister(c), 4)
  {
    OnesReached(seg, n);
    forall c | 0 <= c < SEGMENTS && !AcceptedThrough(seg, n, c)
      ensures Fetch(r.bus.regs, PinRegister(c), 4) == Fetch(regs0, PinRegister(c), 4)
    {
      if r1.Done? {
        FetchUnaffected(r1.bus.regs, PinRegister(c), 4, r.bus.regs);
      }
    }
    forall c | SEGMENTS <= c < CHANNELS && !AcceptedThrough(seg, n, c)
      ensures Fetch(r.bus.regs, PinRegister(c), 4) == Fetch(regs0, PinRegister(c), 4)
    {
      FetchUnaffected(regs0, PinRegister(c), 4, r1.bus.regs);
      if r1.Done? {
        TensReached(seg, n);
      }
    }
  }

  /** A ones channel up to which the ones loop's duties are all accepted
      is reached by `write`. */
  lemma OnesReached(seg: Segment, n: int)
    requires 0 <= n <= 99
    ensures forall c :: 0 <= c < SEGMENTS && GroupAcceptedThrough(seg, Split(n).1, 0, c) ==> AcceptedThrough(seg, n, c)
  {
    forall c | 0 <= c < SEGMENTS && GroupAcceptedThrough(seg, Split(n).1, 0, c)
      ensures AcceptedThrough(seg, n, c)
    {
      forall c' | 0 <= c' <= c
        ensures DutyAccepted(Planned(seg, n, c'))
      {
        OnesAgree(seg, n, c');
        assert DutyAccepted(SlotDuty(seg, Split(n).1, 0, c'));
      }
    }
  }

  /** Once the ones loop has completed, a tens channel up to which the tens
      loop's duties are all accepted is reached by `write`. */
  lemma TensReached(seg: Segment, n: int)
    requires 0 <= n <= 99 && FirstRejected(seg, Split(n).1, Ones()) == SEGMENTS
    ensures forall c :: SEGMENTS <= c < CHANNELS && GroupAcceptedThrough(seg, Split(n).0, SEGMENTS, c) ==>
      AcceptedThrough(seg, n, c)
  {
    forall c | SEGMENTS <= c < CHANNELS && GroupAcceptedThrough(seg, Split(n).0, SEGMENTS, c)
      ensures AcceptedThrough(seg, n, c)
    {
      forall c' | 0 <= c' <= c
        ensures DutyAccepted(Planned(seg, n, c'))
      {
        if c' < SEGMENTS {
          OnesAgree(seg, n, c');
        } else {
          TensAgree(seg, n, c' - SEGMENTS);
          assert DutyAccepted(SlotDuty(seg, Split(n).0, SEGMENTS, c'));
        }
      }
    }
  }

  /** A ones channel reached by `write` is reached by the ones loop. */
  lemma OnesThrough(seg: Segment, n: int, c: PinIndex)
    requires 0 <= n <= 99 && c < SEGMENTS && AcceptedThrough(seg, n, c)
    ensures GroupAcceptedThrough(seg, Split(n).1, 0, c)
    ensures Stored(seg, Split(n).1, (c - 0, c)) == Planned(seg, n, c)
  {
    forall k: PinIndex | 0 <= k <= c
      ensures DutyAccepted(SlotDuty(seg, Split(n).1, 0, k))
    {
      OnesAgree(seg, n, k);
    }
    OnesAgree(seg, n, c);
  }

  /** A tens channel reached by `write` is reached by the tens loop. */
  lemma TensThrough(seg: Segment, n: int, c: PinIndex)
    requires 0 <= n <= 99 && SEGMENTS <= c < CHANNELS && AcceptedThrough(seg, n, c)
    ensures GroupAcceptedThrough(seg, Split(n).0, SEGMENTS, c)
    ensures Stored(seg, Split(n).0, (c - SEGMENTS, c)) == Planned(seg, n, c)
  {
    forall k: PinIndex | SEGMENTS <= k <= c
      ensures DutyAccepted(SlotDuty(seg, Split(n).0, SEGMENTS, k))
    {
      TensAgree(seg, n, k - SEGMENTS);
    }
    TensAgree(seg, n, c - SEGMENTS);
  }

  /** Reaching a tens channel means the ones loop completed. */
  lemma OnesAllAccepted(seg: Segment, n: int, c: int)
    requires 0 <= n <= 99 && SEGMENTS <= c < CHANNELS && AcceptedThrough(seg, n, c)
    ensures FirstRejected(seg, Split(n).1, Ones()) == SEGMENTS
  {
    var i := FirstRejected(seg, Split(n).1, Ones());
    if i < SEGMENTS {
      OnesAgree(seg, n, i);
    }
  }

  /** Every channel written reads back, through the duty getter, as its
      planned duty (4096 being stored as full-off, which reads as 0). */
  lemma ReadBackAfterWrite(seg: Segment, bus: Bus, n: int, c: PinIndex)
    requires 0 <= n <= 99 && c < CHANNELS
    requires WriteNumber(seg, bus, n).Done?
    ensures var w := Planned(seg, n, c);
      GetDuty(Pins(seg.board)[c], WriteNumber(seg, bus, n).bus).value == if w == FULL then 0 else w
  {
    var r := WriteNumber(seg, bus, n);
    var w := Planned(seg, n, c);
    assert DutyAccepted(w);
    assert Fetch(r.bus.regs, PinRegister(c), 4) == Pack(EncodeDuty(w).0, EncodeDuty(w).1);
  }

  /** With `min_duty <= max_duty`, every duty a pin stores after its clamp
      lies in that range, and so does every duty read back after `write`
      that was not the full-off 4096. */
  lemma WriteStaysWithinBounds(seg: Segment, bus: Bus, n: int, c: PinIndex)
    requires 0 <= n <= 99 && c < CHANNELS
    requires seg.board.bound.minDuty <= seg.board.bound.maxDuty
    ensures seg.board.bound.minDuty <= Planned(seg, n, c) <= seg.board.bound.maxDuty
    ensures WriteNumber(seg, bus, n).Done? && Planned(seg, n, c) != FULL ==>
      var v := GetDuty(Pins(seg.board)[c], WriteNumber(seg, bus, n).bus).value;
      seg.board.bound.minDuty <= v <= seg.board.bound.maxDuty
  {
    if WriteNumber(seg, bus, n).Done? {
      ReadBackAfterWrite(seg, bus, n, c);
    }
  }

  /** Bounds within 0..4094 never let a refused duty through: `write`
      completes for every n. */
  lemma SafeBoundsNeverRaise(seg: Segment, bus: Bus, n: int)
    requires 0 <= n <= 99
    requires 0 <= seg.board.bound.minDuty < MAX_DUTY && 0 <= seg.board.bound.maxDuty < MAX_DUTY
    ensures WriteNumber(seg, bus, n).Done?
  {
  }

  /** With `min_duty <= max_duty`, a channel with no configured pair moves
      to `max_duty` when its segment is lit and to `min_duty` otherwise. */
  lemma DefaultPairShowsSegment(seg: Segment, n: int, c: PinIndex)
    requires 0 <= n <= 99 && |seg.duties| <= c < CHANNELS
    requires seg.board.bound.minDuty <= seg.board.bound.maxDuty
    ensures Planned(seg, n, c)
      == if BitSet(Bits[DigitFor(n, c)], c % SEGMENTS) then seg.board.bound.maxDuty else seg.board.bound.minDuty
  {
  }

  /** A channel with a configured `(off, on)` pair moves to its clamped
      `on` duty when its segment is lit and to its clamped `off` duty
      otherwise. */
  lemma ConfiguredPairShowsSegment(seg: Segment, n: int, c: PinIndex)
    requires 0 <= n <= 99 && c < CHANNELS && c < |seg.duties|
    ensures Planned(seg, n, c) == seg.board.bound.Apply(
      if BitSet(Bits[DigitFor(n, c)], c % SEGMENTS) then seg.duties[c].1 else seg.duties[c].0)
  {
  }

  /** Every channel's two clamped positions differ. */
  predicate Distinguishable(seg: Segment) {
    forall c :: 0 <= c < CHANNELS ==>
      seg.board.bound.Apply(seg.Duties(c).0) != seg.board.bound.Apply(seg.Duties(c).1)
  }

  /** A channel whose two clamped positions differ shows, through its
      planned position, whether its segment is lit. */
  lemma PlannedRevealsSegment(seg: Segment, n: int, m: int, c: PinIndex)
    requires 0 <= n <= 99 && 0 <= m <= 99 && c < CHANNELS
    requires seg.board.bound.Apply(seg.Duties(c).0) != seg.board.bound.Apply(seg.Duties(c).1)
    requires Planned(seg, n, c) == Planned(seg, m, c)
    ensures BitSet(Bits[DigitFor(n, c)], c % SEGMENTS) == BitSet(Bits[DigitFor(m, c)], c % SEGMENTS)
  {
  }

  /** When every servo's two positions differ, the positions `write` plans
      for the fourteen channels determine the number shown. */
  lemma DisplayDeterminesNumber(seg: Segment, n: int, m: int)
    requires 0 <= n <= 99 && 0 <= m <= 99
    requires Distinguishable(seg)
    requires forall c :: 0 <= c < CHANNELS ==> Planned(seg, n, c) == Planned(seg, m, c)
    ensures n == m
  {
    OnesReveal(seg, n, m);
    TensReveal(seg, n, m);
    PatternDeterminesDigit(Split(n).1, Split(m).1);
    PatternDeterminesDigit(Split(n).0, Split(m).0);
  }

  lemma OnesReveal(seg: Segment, n: int, m: int)
    requires 0 <= n <= 99 && 0 <= m <= 99
    requires Distinguishable(seg)
    requires forall c :: 0 <= c < CHANNELS ==> Planned(seg, n, c) == Planned(seg, m, c)
    ensures forall k :: 0 <= k < SEGMENTS ==> BitSet(Bits[Split(n).1], k) == BitSet(Bits[Split(m).1], k)
  {
    forall k | 0 <= k < SEGMENTS
      ensures BitSet(Bits[Split(n).1], k) == BitSet(Bits[Split(m).1], k)
    {
      assert Planned(seg, n, k) == Planned(seg, m, k);
      assert DigitFor(n, k) == Split(n).1 && DigitFor(m, k) == Split(m).1 && k % SEGMENTS == k;
      PlannedRevealsSegment(seg, n, m, k);
    }
  }

  lemma TensReveal(seg: Segment, n: int, m: int)
    requires 0 <= n <= 99 && 0 <= m <= 99
    requires Distinguishable(seg)
    requires forall c :: 0 <= c < CHANNELS ==> Planned(seg, n, c) == Planned(seg, m, c)
    ensures forall k :: 0 <= k < SEGMENTS ==> BitSet(Bits[Split(n).0], k) == BitSet(Bits[Split(m).0], k)
  {
    forall k | 0 <= k < SEGMENTS
      ensures BitSet(Bits[Split(n).0], k) == BitSet(Bits[Split(m).0], k)
    {
      var c := SEGMENTS + k;
      assert Planned(seg, n, c) == Planned(seg, m, c);
      assert DigitFor(n, c) == Split(n).0 && DigitFor(m, c) == Split(m).0 && c % SEGMENTS == k;
      PlannedRevealsSegment(seg, n, m, c);
    }
  }

  /** The positions `write(42)` gives a face with no configured pairs on
      a board clamped to the default 180..500: ones channels show 2, tens
      channels show 4. */
  const FortyTwo: seq<int> :=
    [500, 500, 180, 500, 500, 180, 500, 180, 500, 500, 180, 180, 500, 500]

  /** Channel by channel, the planned positions for 42. */
  lemma FortyTwoPlanned(seg: Segment, c: PinIndex)
    requires seg.duties == [] && seg.board.bound == Clamp(DEFAULT_MIN_DUTY, DEFAULT_MAX_DUTY)
    requires c < CHANNELS
    ensures Planned(seg, 42, c) == FortyTwo[c]
  {
    DefaultPairShowsSegment(seg, 42, c);
    assert Split(42) == (4, 2);
    assert [BitSet(0x5B, 0), BitSet(0x5B, 1), BitSet(0x5B, 2), BitSet(0x5B, 3),
            BitSet(0x5B, 4), BitSet(0x5B, 5), BitSet(0x5B, 6)]
        == [true, true, false, true, true, false, true];
    assert [BitSet(0x66, 0), BitSet(0x66, 1), BitSet(0x66, 2), BitSet(0x66, 3),
            BitSet(0x66, 4), BitSet(0x66, 5), BitSet(0x66, 6)]
        == [false, true, true, false, false, true, true];
  }

  /** The log `write(42)` produces on such a face. */
  function FortyTwoLog(): (t: seq<Transaction>)
    ensures |t| == CHANNELS
  {
    seq(CHANNELS, c requires 0 <= c < CHANNELS =>
      Write(LED0 + 4 * c, [0, 0, FortyTwo[c] % 0x100, FortyTwo[c] / 0x100]))
  }

  lemma FortyTwoPlan(seg: Segment)
    requires seg.duties == [] && seg.board.bound == Clamp(DEFAULT_MIN_DUTY, DEFAULT_MAX_DUTY)
    ensures Plan(seg, 42, CHANNELS) == FortyTwoLog()
  {
    var p, t := Plan(seg, 42, CHANNELS), FortyTwoLog();
    forall c | 0 <= c < CHANNELS
      ensures p[c] == t[c]
    {
      FortyTwoPlanned(seg, c);
      var w := FortyTwo[c];
      assert w == 180 || w == 500;
      assert PackedDuty(w) == [0, 0, w % 0x100, w / 0x100];
    }
  }

  lemma WriteFortyTwo(seg: Segment, bus: Bus)
    requires seg.duties == [] && seg.board.bound == Clamp(DEFAULT_MIN_DUTY, DEFAULT_MAX_DUTY)
    ensures forall c :: 0 <= c < CHANNELS ==> Planned(seg, 42, c) == FortyTwo[c]
    ensures WriteNumber(seg, bus, 42).Done?
    ensures WriteNumber(seg, bus, 42).bus.log == bus.log + FortyTwoLog()
  {
    forall c | 0 <= c < CHANNELS
      ensures Planned(seg, 42, c) == FortyTwo[c]
    {
      FortyTwoPlanned(seg, c);
    }
    SafeBoundsNeverRaise(seg, bus, 42);
    FortyTwoPlan(seg);
  }
}
