/** CAN frames, result codes and the byte order shared by both motor protocols. */
module Can {
  import opened Binary32

  type Byte = b: nat | b < 0x100

  datatype Option<+T> = None | Some(value: T)

  datatype Code =
    | Ok | InvalidConfiguration | InvalidCommand | Timeout | Disconnected | BusError | StaleFeedback
    | MotorFault | OwnershipConflict | AmbiguousReply | PartialFailure | Unsupported | InvalidFrame
    | WouldBlock | NotExecuted

  datatype Result<+T> = Success(value: T) | Failure(code: Code)

  /** A received frame carries the time at which the host took it in. */
  datatype Frame = Frame(id: nat, length: Byte, data: seq<Byte>, receivedAt: int) {
    predicate Valid() { |data| == 8 }
  }

  type CanFrame = f: Frame | f.Valid() witness Frame(0, 0, [0, 0, 0, 0, 0, 0, 0, 0], 0)

  /** ESC and MST identifiers of one motor. */
  datatype Address = Address(esc: nat, mst: nat) {
    predicate Valid() { ValidEsc(esc) && mst <= 0x7FE && mst % 0x100 != esc }
  }

  predicate ValidEsc(esc: nat) { 1 <= esc <= 15 }

  // ----- Little-endian words -----

  function ByteOf(value: Bits, i: nat): Byte
    requires i < 4
  {
    if i == 0 then value % 0x100
    else if i == 1 then value / 0x100 % 0x100
    else if i == 2 then value / 0x1_0000 % 0x100
    else value / 0x100_0000
  }

  function LittleEndian(value: Bits): (s: seq<Byte>)
    ensures |s| == 4
  {
    [ByteOf(value, 0), ByteOf(value, 1), ByteOf(value, 2), ByteOf(value, 3)]
  }

  function Load(s: seq<Byte>): Bits
    requires |s| == 4
  {
    Above(s[0], Above(s[1], Above(s[2], s[3])))
  }

  /** The number with low byte `low`. */
  function Above(low: Byte, high: nat): nat { low + 0x100 * high }

  lemma LoadUndoesStore(value: Bits)
    ensures Load(LittleEndian(value)) == value
  {
    assert value == 0x100 * (value / 0x100) + value % 0x100;
    assert value / 0x100 == 0x100 * (value / 0x1_0000) + value / 0x100 % 0x100;
    assert value / 0x1_0000 == 0x100 * (value / 0x100_0000) + value / 0x1_0000 % 0x100;
  }

  /** The low byte comes first: a word is the sum of its bytes by position. */
  lemma LoadIsPositional(s: seq<Byte>)
    requires |s| == 4
    ensures var a: nat, b: nat, c: nat, d: nat := s[0], s[1], s[2], s[3];
      Load(s) == a + 0x100 * b + 0x1_0000 * c + 0x100_0000 * d
  {
  }

  lemma AboveSplits(low: Byte, high: nat)
    ensures Above(low, high) / 0x100 == high && Above(low, high) % 0x100 == low
  {
  }

  lemma DividesByBytes(v: nat)
    ensures v / 0x1_0000 == v / 0x100 / 0x100 && v / 0x100_0000 == v / 0x1_0000 / 0x100
  {
  }

  lemma StoreUndoesLoad(s: seq<Byte>)
    requires |s| == 4
    ensures LittleEndian(Load(s)) == s
  {
    hide Above;
    AboveSplits(s[0], Above(s[1], Above(s[2], s[3])));
    AboveSplits(s[1], Above(s[2], s[3]));
    AboveSplits(s[2], s[3]);
    DividesByBytes(Load(s));
  }

  /** Writes a word into a payload, byte by byte, and leaves the rest of it alone. */
  method Store(data: array<Byte>, at: nat, value: Bits)
    requires at + 4 <= data.Length
    modifies data
    ensures data[..] == old(data[..at]) + LittleEndian(value) + old(data[at + 4..])
  {
    var rest: nat := value;
    for i := 0 to 4
      invariant rest == if i == 0 then value else if i == 1 then value / 0x100 else if i == 2 then value / 0x1_0000
                        else if i == 3 then value / 0x100_0000 else 0
      invariant forall j | 0 <= j < i :: data[at + j] == ByteOf(value, j)
      invariant forall j | 0 <= j < data.Length && !(at <= j < at + i) :: data[j] == old(data[j])
    {
      data[at + i] := rest % 0x100;
      rest := rest / 0x100;
    }
    assert data[at..at + 4] == LittleEndian(value);
  }
}
