/** The position-mode motor protocol: register table, frame encoders and decoders, feedback fields. */
module Protocol {
  import opened Numbers
  import opened Binary32
  import opened Can

  datatype Mode = Mit | PositionVelocity | Velocity | PositionCurrentLimit

  function ModeCode(mode: Mode): (c: Bits)
    ensures 1 <= c <= 4
  {
    match mode
    case Mit => 1
    case PositionVelocity => 2
    case Velocity => 3
    case PositionCurrentLimit => 4
  }

  function ModeOf(code: Bits): Option<Mode> {
    if code == 1 then Some(Mit)
    else if code == 2 then Some(PositionVelocity)
    else if code == 3 then Some(Velocity)
    else if code == 4 then Some(PositionCurrentLimit)
    else None
  }

  // ----- Registers -----

  datatype RegisterValue = Float(bits: Bits) | Word(word: Bits)

  datatype Register = Register(float: bool, writable: bool)

  /** The register table; addresses it does not list stay unknown. */
  function RegisterInfo(rid: Byte): Option<Register> {
    if rid <= 0x06 || 0x15 <= rid <= 0x22 then Some(Register(true, true))
    else if 0x07 <= rid <= 0x0A || rid == 0x23 then Some(Register(false, true))
    else if 0x0D <= rid <= 0x10 || rid == 0x24 || rid == 0x25 then Some(Register(false, false))
    else if rid in {0x0B, 0x0C, 0x37, 0x38, 0x50, 0x51} || 0x11 <= rid <= 0x14 || 0x3B <= rid <= 0x41 then
      Some(Register(true, false))
    else None
  }

  /** The ranges that the manual states for the writable float registers. */
  predicate FloatAllowed(rid: Byte, x: real) {
    if rid == 0x00 then 10.0 < x
    else if rid == 0x01 || 0x19 <= rid <= 0x1C then 0.0 <= x
    else if rid == 0x02 then 80.0 <= x < 200.0
    else if rid == 0x03 then 0.0 < x < 1.0
    else if rid == 0x04 then 0.0 < x < Largest()
    else if rid == 0x05 then x < 0.0
    else if rid == 0x06 || 0x15 <= rid <= 0x17 then 0.0 < x
    else if rid == 0x18 || rid == 0x21 then 100.0 <= x <= 10000.0
    else if rid == 0x1E then 0.0 < x <= 1.0
    else if rid == 0x1F then 1.0 <= x <= 30.0
    else if rid == 0x20 then 0.0 < x < 500.0
    else if rid == 0x22 then 0.0 < x <= 10000.0
    else false
  }

  predicate WordAllowed(rid: Byte, n: Bits) {
    && (rid == 0x07 ==> n <= 0x7FE)
    && (rid == 0x08 ==> ValidEsc(n))
    && (rid == 0x0A ==> 1 <= n <= 4)
    && (rid == 0x23 ==> n <= 4)
  }

  function ValidateWrite(rid: Byte, value: RegisterValue): Code {
    match RegisterInfo(rid)
    case None => InvalidCommand
    case Some(info) =>
      if !info.writable then InvalidCommand
      else if !info.float then
        if value.Word? && WordAllowed(rid, value.word) then Ok else InvalidCommand
      else if !value.Float? || !IsFinite(value.bits) then InvalidCommand
      else if rid == 0x1D then Unsupported
      else if FloatAllowed(rid, Value(value.bits)) then Ok
      else InvalidCommand
  }

  /** Which registers there are, which of them hold floats, and which the manual lets the host write. */
  lemma RegisterTable(rid: Byte)
    ensures RegisterInfo(rid).Some? <==> rid <= 0x25 || rid in {0x37, 0x38, 0x50, 0x51} || 0x3B <= rid <= 0x41
    ensures RegisterInfo(rid).Some? ==>
      && (RegisterInfo(rid).value.float <==> !(0x07 <= rid <= 0x0A || 0x0D <= rid <= 0x10 || 0x23 <= rid <= 0x25))
      && (RegisterInfo(rid).value.writable <==> rid <= 0x0A || 0x15 <= rid <= 0x23)
  {
  }

  /** Exactly what may be written, register by register; the overvoltage limit has no range, so none is accepted. */
  lemma WriteAllowedIff(rid: Byte, value: RegisterValue)
    ensures ValidateWrite(rid, value) == Ok <==>
      match value
      case Word(n) =>
        (match rid
         case 0x07 => n <= 0x7FE
         case 0x08 => 1 <= n <= 15
         case 0x09 => true
         case 0x0A => 1 <= n <= 4
         case 0x23 => n <= 4
         case _ => false)
      case Float(bits) =>
        var x := if IsFinite(bits) then Value(bits) else 0.0;
        IsFinite(bits) &&
        (match rid
         case 0x00 => 10.0 < x
         case 0x01 | 0x19 | 0x1A | 0x1B | 0x1C => 0.0 <= x
         case 0x02 => 80.0 <= x && x < 200.0
         case 0x03 => 0.0 < x && x < 1.0
         case 0x04 => 0.0 < x && x < Largest()
         case 0x05 => x < 0.0
         case 0x06 | 0x15 | 0x16 | 0x17 => 0.0 < x
         case 0x18 | 0x21 => 100.0 <= x && x <= 10000.0
         case 0x1E => 0.0 < x && x <= 1.0
         case 0x1F => 1.0 <= x && x <= 30.0
         case 0x20 => 0.0 < x && x < 500.0
         case 0x22 => 0.0 < x && x <= 10000.0
         case _ => false)
    ensures ValidateWrite(rid, value) == Unsupported <==> rid == 0x1D && value.Float? && IsFinite(value.bits)
    ensures ValidateWrite(rid, value) in {Ok, Unsupported, InvalidCommand}
  {
    hide Value;
    hide Largest;
    hide IsFinite;
  }

  /** Equality of register values: floats compare as numbers, so a NaN equals nothing and the zeros are equal. */
  predicate SameValue(a: RegisterValue, b: RegisterValue) {
    match a
    case Word(n) => b == Word(n)
    case Float(x) =>
      b.Float? && Magnitude(x) <= Infinity && Magnitude(b.bits) <= Infinity
      && (x == b.bits || (Magnitude(x) == 0 && Magnitude(b.bits) == 0))
  }

  /** Finite floats are the same exactly when they stand for the same number, and no NaN is the same as anything. */
  lemma SameValueIff(a: Bits, b: Bits)
    ensures IsFinite(a) && IsFinite(b) ==> (SameValue(Float(a), Float(b)) <==> Value(a) == Value(b))
    ensures Infinity < Magnitude(a) ==> !SameValue(Float(a), Float(b)) && !SameValue(Float(b), Float(a))
    ensures forall n: Bits :: !SameValue(Float(a), Word(n)) && (SameValue(Word(a), Word(n)) <==> a == n)
  {
    if IsFinite(a) && IsFinite(b) {
      SameNumberIff(a, b);
    }
    hide Value;
    hide ToBits;
  }

  function RawBits(value: RegisterValue): Bits { if value.Float? then value.bits else value.word }

  // ----- Parameter frames -----

  datatype Operation = Read | Write

  function OperationByte(op: Operation): Byte { if op == Read then 0x33 else 0x55 }

  function ParameterFrame(esc: nat, operation: Byte, rid: Byte, length: Byte, payload: Bits): CanFrame
    requires ValidEsc(esc)
  {
    Frame(0x7FF, length, [esc, 0, operation, rid] + LittleEndian(payload), 0)
  }

  function EncodeRead(esc: nat, rid: Byte): Result<CanFrame> {
    if !ValidEsc(esc) || RegisterInfo(rid) == None then Failure(InvalidCommand)
    else Success(ParameterFrame(esc, 0x33, rid, 4, 0))
  }

  function EncodeWrite(esc: nat, rid: Byte, value: RegisterValue): Result<CanFrame> {
    var code := ValidateWrite(rid, value);
    if code != Ok then Failure(code)
    else if !ValidEsc(esc) then Failure(InvalidCommand)
    else Success(ParameterFrame(esc, 0x55, rid, 8, RawBits(value)))
  }

  function EncodeStateQuery(esc: nat): Result<CanFrame> {
    if !ValidEsc(esc) then Failure(InvalidCommand) else Success(ParameterFrame(esc, 0xCC, 0, 4, 0))
  }

  function EncodeSave(esc: nat): Result<CanFrame> {
    if !ValidEsc(esc) then Failure(InvalidCommand) else Success(ParameterFrame(esc, 0xAA, 1, 4, 0))
  }

  predicate MatchesReply(f: CanFrame, a: Address, operation: Byte, rid: Byte) {
    f.id == a.mst && f.data[..4] == [a.esc, 0, operation, rid]
  }

  function DecodeReply(f: CanFrame, a: Address, op: Operation, rid: Byte): Result<RegisterValue> {
    if !a.Valid() || RegisterInfo(rid) == None then Failure(InvalidConfiguration)
    else if f.id > 0x7FF || f.length != 8 || !MatchesReply(f, a, OperationByte(op), rid) then Failure(InvalidFrame)
    else
      var raw := Load(f.data[4..]);
      if !RegisterInfo(rid).value.float then Success(Word(raw))
      else if !IsFinite(raw) then Failure(InvalidFrame)
      else Success(Float(raw))
  }

  function DecodeSave(f: CanFrame, a: Address): Code {
    if !a.Valid() then InvalidConfiguration
    else if (f.length != 4 && f.length != 8) || f.id > 0x7FF || !MatchesReply(f, a, 0xAA, 1) then InvalidFrame
    else Ok
  }

  /** Builds a write frame in place, as the encoder does; the frame is the one of the specification. */
  method BuildWrite(esc: nat, rid: Byte, value: RegisterValue) returns (r: Result<CanFrame>)
    ensures r == EncodeWrite(esc, rid, value)
  {
    hide ValidateWrite;
    hide LittleEndian;
    var code := ValidateWrite(rid, value);
    if code != Ok {
      return Failure(code);
    }
    if !ValidEsc(esc) {
      return Failure(InvalidCommand);
    }
    var data := new Byte[8](i => 0);
    data[0], data[1], data[2], data[3] := esc % 0x100, esc / 0x100, 0x55, rid;
    assert data[..4] == [esc, 0, 0x55, rid];
    Store(data, 4, RawBits(value));
    assert data[..] == [esc, 0, 0x55, rid] + LittleEndian(RawBits(value));
    r := Success(Frame(0x7FF, 8, data[..], 0));
  }

  /** A motor acknowledges a write by echoing the frame from its own feedback identifier. */
  function Echo(f: CanFrame, mst: nat, receivedAt: int): CanFrame { f.(id := mst, receivedAt := receivedAt) }

  /** Every legal write decodes, from its echo, to the value that was written. */
  lemma WriteRoundTrip(a: Address, rid: Byte, value: RegisterValue, receivedAt: int)
    requires a.Valid() && ValidateWrite(rid, value) == Ok
    ensures EncodeWrite(a.esc, rid, value).Success?
    ensures DecodeReply(Echo(EncodeWrite(a.esc, rid, value).value, a.mst, receivedAt), a, Write, rid) == Success(value)
  {
    LoadUndoesStore(RawBits(value));
    var f := EncodeWrite(a.esc, rid, value).value;
    assert f.data[4..] == LittleEndian(RawBits(value));
    assert f.data[..4] == [a.esc, 0, 0x55, rid];
  }

  /** A reply decodes to `value` exactly when it carries that value's word under the expected header. */
  lemma DecodeReplyIff(f: CanFrame, a: Address, op: Operation, rid: Byte, value: RegisterValue)
    requires a.Valid() && RegisterInfo(rid).Some?
    ensures DecodeReply(f, a, op, rid) == Success(value) <==>
      && f.id == a.mst && f.length == 8
      && f.data == [a.esc, 0, OperationByte(op), rid] + LittleEndian(RawBits(value))
      && value.Float? == RegisterInfo(rid).value.float
      && (value.Float? ==> IsFinite(value.bits))
  {
    StoreUndoesLoad(f.data[4..]);
    LoadUndoesStore(RawBits(value));
    assert f.data == f.data[..4] + f.data[4..];
    var header: seq<Byte> := [a.esc, 0, OperationByte(op), rid];
    if f.data == header + LittleEndian(RawBits(value)) {
      assert f.data[..4] == header && f.data[4..] == LittleEndian(RawBits(value));
    }
  }

  /** A save is acknowledged exactly by its echo from the motor's feedback identifier, whatever follows the header. */
  lemma SaveAcknowledgedIff(f: CanFrame, a: Address)
    requires a.Valid()
    ensures DecodeSave(f, a) == Ok <==> f.id == a.mst && f.length in {4, 8} && f.data[..4] == [a.esc, 0, 0xAA, 1]
    ensures forall t: int :: DecodeSave(Echo(EncodeSave(a.esc).value, a.mst, t), a) == Ok
  {
    hide LittleEndian;
    assert EncodeSave(a.esc).value.data[..4] == [a.esc, 0, 0xAA, 1];
  }

  // ----- Motion and management commands -----

  datatype PositionCommand = PositionCommand(position: Double, maxSpeed: Double)

  function EncodePositionVelocity(esc: nat, c: PositionCommand): Result<CanFrame> {
    if !ValidEsc(esc) || !Transmittable(c.position) || !Transmittable(c.maxSpeed) || c.maxSpeed.value < 0.0 then
      Failure(InvalidCommand)
    else
      Success(Frame(esc + 0x100, 8, LittleEndian(ToBits(c.position.value)) + LittleEndian(ToBits(c.maxSpeed.value)), 0))
  }

  /** The motor finds in the frame the two numbers of the command, rounded to binary32. */
  lemma PositionVelocityArrives(esc: nat, c: PositionCommand)
    requires EncodePositionVelocity(esc, c).Success?
    ensures var f := EncodePositionVelocity(esc, c).value;
      var d := f.data;
      && f.id == esc + 0x100 && f.length == 8
      && Value(Load(d[..4])) == Rounded(c.position.value)
      && Value(Load(d[4..])) == Rounded(c.maxSpeed.value)
      && IsFinite(Load(d[..4])) && IsFinite(Load(d[4..]))
  {
    hide ToBits;
    hide Value;
    hide Load;
    hide LittleEndian;
    var p, s := ToBits(c.position.value), ToBits(c.maxSpeed.value);
    var d := EncodePositionVelocity(esc, c).value.data;
    assert d[..4] == LittleEndian(p) && d[4..] == LittleEndian(s);
    LoadUndoesStore(p);
    LoadUndoesStore(s);
    InRangeStaysFinite(c.position.value);
    InRangeStaysFinite(c.maxSpeed.value);
  }

  datatype Management = ClearError | Enable | Disable | SaveZero

  function ManagementByte(m: Management): Byte {
    match m
    case ClearError => 0xFB
    case Enable => 0xFC
    case Disable => 0xFD
    case SaveZero => 0xFE
  }

  function EncodeManagement(esc: nat, mode: Mode, m: Management): Result<CanFrame> {
    if !ValidEsc(esc) then Failure(InvalidCommand)
    else
      Success(Frame(esc + (ModeCode(mode) - 1) * 0x100, 8,
        [0xFF, 0xFF, 0xFF, 0xFF, 0xFF, 0xFF, 0xFF, ManagementByte(m)], 0))
  }

  /** A management frame by its bytes: seven 0xFF and the command, on the identifier of the motor's mode. */
  predicate IsManagement(f: CanFrame, esc: nat, mode: Mode, m: Management) {
    && f.id == esc + (match mode
                      case Mit => 0
                      case PositionVelocity => 0x100
                      case Velocity => 0x200
                      case PositionCurrentLimit => 0x300)
    && f.length == 8 && (forall i | 0 <= i < 7 :: f.data[i] == 0xFF)
    && f.data[7] == (match m
                     case ClearError => 0xFB
                     case Enable => 0xFC
                     case Disable => 0xFD
                     case SaveZero => 0xFE)
  }

  /** Every command to a motor is encoded as its own management frame, and as no other. */
  lemma ManagementFrameIff(esc: nat, mode: Mode, m: Management, f: CanFrame)
    requires ValidEsc(esc)
    ensures EncodeManagement(esc, mode, m).Success?
    ensures f.receivedAt == 0 ==> (EncodeManagement(esc, mode, m).value == f <==> IsManagement(f, esc, mode, m))
  {
    var g := EncodeManagement(esc, mode, m).value;
    if IsManagement(f, esc, mode, m) {
      assert f.data == g.data;
    }
  }

  /** The other requests by their bytes, always on the broadcast identifier. */
  predicate IsRequest(f: CanFrame, esc: nat, operation: Byte, rid: Byte, length: Byte, word: Bits) {
    f.id == 0x7FF && f.length == length && f.data == [esc, 0, operation, rid] + LittleEndian(word)
  }

  lemma RequestFrames(esc: nat, rid: Byte, value: RegisterValue)
    requires ValidEsc(esc)
    ensures IsRequest(EncodeStateQuery(esc).value, esc, 0xCC, 0, 4, 0)
    ensures IsRequest(EncodeSave(esc).value, esc, 0xAA, 1, 4, 0)
    ensures EncodeRead(esc, rid).Success? <==> RegisterInfo(rid).Some?
    ensures EncodeRead(esc, rid).Success? ==> IsRequest(EncodeRead(esc, rid).value, esc, 0x33, rid, 4, 0)
    ensures EncodeWrite(esc, rid, value).Success? <==> ValidateWrite(rid, value) == Ok
    ensures EncodeWrite(esc, rid, value).Success? ==>
      IsRequest(EncodeWrite(esc, rid, value).value, esc, 0x55, rid, 8,
                if value.Float? then value.bits else value.word)
  {
  }

  /** Identifiers that some encoder can put on a frame for the motor `esc`. */
  ghost predicate Emits(esc: nat, id: nat) {
    || (exists rid: Byte :: EncodeRead(esc, rid).Success? && EncodeRead(esc, rid).value.id == id)
    || (exists rid: Byte, v: RegisterValue ::
          EncodeWrite(esc, rid, v).Success? && EncodeWrite(esc, rid, v).value.id == id)
    || (EncodeStateQuery(esc).Success? && EncodeStateQuery(esc).value.id == id)
    || (EncodeSave(esc).Success? && EncodeSave(esc).value.id == id)
    || (exists c: PositionCommand ::
          EncodePositionVelocity(esc, c).Success? && EncodePositionVelocity(esc, c).value.id == id)
    || (exists m: Mode, k: Management ::
          EncodeManagement(esc, m, k).Success? && EncodeManagement(esc, m, k).value.id == id)
  }

  /** A feedback identifier that avoids a motor's low byte is never one of that motor's command identifiers. */
  lemma CommandsAvoidFeedback(esc: nat, mst: nat)
    requires mst <= 0x7FE && mst % 0x100 != esc
    ensures !Emits(esc, mst)
  {
    hide ValidateWrite;
    hide RegisterInfo;
    hide Transmittable;
    hide ToBits;
    hide LittleEndian;
    forall m: Mode, k: Management | EncodeManagement(esc, m, k).Success?
      ensures EncodeManagement(esc, m, k).value.id % 0x100 == esc
    {
      LowByteStays(esc, ModeCode(m) - 1);
    }
    if ValidEsc(esc) {
      LowByteStays(esc, 1);
    }
  }

  lemma LowByteStays(low: nat, k: int)
    requires low < 0x100
    ensures (low + k * 0x100) % 0x100 == low
  {
  }

  // ----- Feedback -----

  datatype Fields = Fields(status: nat, esc: nat, position: nat, velocity: nat, torque: nat, mos: Byte, rotor: Byte) {
    predicate Valid() { status < 16 && esc < 16 && position < 0x1_0000 && velocity < 0x1000 && torque < 0x1000 }
  }

  /** Splits the payload into fields of 4, 4, 16, 12, 12, 8 and 8 bits. */
  function Unpack(d: seq<Byte>): (f: Fields)
    requires |d| == 8
    ensures f.Valid()
  {
    var third: nat := d[3];
    Fields(d[0] / 16, d[0] % 16, Above(d[2], d[1]), third * 16 + d[4] / 16, Above(d[5], d[4] % 16), d[6], d[7])
  }

  function Pack(f: Fields): (d: seq<Byte>)
    requires f.Valid()
    ensures |d| == 8
  {
    [f.status * 16 + f.esc, f.position / 0x100, f.position % 0x100,
     f.velocity / 16, f.velocity % 16 * 16 + f.torque / 0x100, f.torque % 0x100, f.mos, f.rotor]
  }

  /** Fields and payloads correspond one to one. */
  lemma FieldsBijection(f: Fields, d: seq<Byte>)
    requires f.Valid() && |d| == 8
    ensures Unpack(d) == f <==> Pack(f) == d
  {
    if Unpack(d) == f {
      assert d[0] == d[0] / 16 * 16 + d[0] % 16;
      assert f.position / 0x100 == d[1] && f.position % 0x100 == d[2];
      assert f.velocity / 16 == d[3] && f.velocity % 16 == d[4] / 16;
      assert f.torque / 0x100 == d[4] % 16 && f.torque % 0x100 == d[5];
      assert d[4] == d[4] / 16 * 16 + d[4] % 16;
    }
    if Pack(f) == d {
      assert f.position == f.position / 0x100 * 0x100 + f.position % 0x100;
      assert f.velocity == f.velocity / 16 * 16 + f.velocity % 16;
      assert d[4] / 16 == f.velocity % 16 && d[4] % 16 == f.torque / 0x100;
      assert f.torque == f.torque / 0x100 * 0x100 + f.torque % 0x100;
    }
  }

  /** What the bus takes for a parameter reply of the motor `esc`. */
  predicate ParameterShaped(f: CanFrame, esc: nat) {
    && 4 <= f.length && f.data[0] == esc && f.data[1] == 0
    && ((f.data[2] == 0xAA && f.data[3] == 1) || (f.data[2] in {0x33, 0x55} && RegisterInfo(f.data[3]).Some?))
  }

  /**
   The feedback that is taken for a parameter reply: disabled, almost at the lower end, and within a velocity band.
   */
  lemma FeedbackLooksLikeParameterIff(f: CanFrame, esc: nat)
    requires ValidEsc(esc) && f.length == 8 && f.data[0] % 16 == esc
    ensures var x := Unpack(f.data);
      ParameterShaped(f, esc) <==>
        && x.status == 0
        && ((x.position == 0xAA && x.velocity / 16 == 1)
            || (x.position in {0x33, 0x55} && RegisterInfo(x.velocity / 16).Some?))
  {
  }

  datatype Mapping = Mapping(position: Double, velocity: Double, torque: Double) {
    predicate Valid() { IsPositive(position) && IsPositive(velocity) && IsPositive(torque) }
  }

  predicate IsPositive(x: Double) { x.Finite? && 0.0 < x.value }

  /** The reading of `raw` on a symmetric scale of `maximum` steps. */
  function Unmap(raw: nat, maximum: nat, limit: real): real
    requires 0 < maximum
  {
    Mul(2.0 * Over(raw as real, maximum as real) - 1.0, limit)
  }

  datatype MotorState = MotorState(
    position: real, velocity: real, torque: real, status: nat, mos: Byte, rotor: Byte,
    receivedAt: int, sequence: nat, revision: nat, valid: bool)

  function DecodeFeedback(f: CanFrame, a: Address, m: Mapping, revision: nat): Result<MotorState> {
    if !a.Valid() || !m.Valid() then Failure(InvalidConfiguration)
    else if f.id > 0x7FF || f.length != 8 || f.id != a.mst || f.data[0] % 16 != a.esc then Failure(InvalidFrame)
    else
      var x := Unpack(f.data);
      Success(MotorState(
        Unmap(x.position, 65535, m.position.value), Unmap(x.velocity, 4095, m.velocity.value),
        Unmap(x.torque, 4095, m.torque.value), x.status, x.mos, x.rotor, f.receivedAt, 0, revision, true))
  }

  /** The scale runs from one limit to the other, strictly upward. */
  lemma UnmapSpansTheRange(maximum: nat, limit: real)
    requires 0 < maximum && 0.0 < limit
    ensures Unmap(0, maximum, limit) == -limit && Unmap(maximum, maximum, limit) == limit
    ensures forall a: nat, b: nat | a < b :: Unmap(a, maximum, limit) < Unmap(b, maximum, limit)
  {
  }

  /** In units of half a step, the reading of `raw` is `2 raw - maximum`. */
  lemma UnmapInHalfSteps(raw: nat, maximum: nat, limit: real)
    requires 0 < maximum
    ensures Mul(Unmap(raw, maximum, limit), maximum as real) == Mul((2 * raw - maximum) as real, limit)
  {
  }

  /** The code whose reading the device reports for `x`: the nearest one. */
  function Quantise(x: real, maximum: nat, limit: real): int
    requires 0.0 < limit
  {
    ((Over(Mul(x, maximum as real), limit) + maximum as real) / 2.0 + 0.5).Floor
  }

  /** Reading back a quantised value misses it by at most half a step, which is `limit / maximum`. */
  lemma ReadingWithinHalfStep(x: real, maximum: nat, limit: real)
    requires 0 < maximum && 0.0 < limit && Abs(x) <= limit
    ensures 0 <= Quantise(x, maximum, limit) <= maximum
    ensures Abs(Unmap(Quantise(x, maximum, limit), maximum, limit) - x) <= Over(limit, maximum as real)
  {
    hide Mul;
    hide Over;
    var top := maximum as real;
    var t := Over(Mul(x, top), limit);
    QuotientInRange(x, top, limit);
    var raw := Quantise(x, maximum, limit);
    UnmapInHalfSteps(raw, maximum, limit);
    var y := Unmap(raw, maximum, limit);
    hide Unmap;
    OverMul(Mul(x, top), limit);
    MulSpread(top, y, x);
    MulSpread(limit, (2 * raw - maximum) as real, t);
    AbsMul(y - x, top);
    AbsMul((2 * raw - maximum) as real - t, limit);
    MulMono(Abs((2 * raw - maximum) as real - t), 1.0, limit);
    MulUnit(limit);
    OverVersus(limit, top, Abs(y - x));
  }

  lemma QuotientInRange(x: real, top: real, limit: real)
    requires 0.0 < top && 0.0 < limit && Abs(x) <= limit
    ensures -top <= Over(Mul(x, top), limit) <= top
  {
    hide Mul;
    hide Over;
    MulMono(x, limit, top);
    MulMono(-x, limit, top);
    MulSpread(top, 0.0, x);
    MulUnit(top);
    MulSwap(limit, top);
    OverVersus(Mul(x, top), limit, top);
    OverVersus(Mul(x, top), limit, -top);
    MulSpread(limit, 0.0, top);
    MulUnit(limit);
  }

  /** Quantising a reading gives its code back. */
  lemma QuantiseUndoesUnmap(raw: nat, maximum: nat, limit: real)
    requires 0 < maximum && 0.0 < limit
    ensures Quantise(Unmap(raw, maximum, limit), maximum, limit) == raw
  {
    hide Mul;
    hide Over;
    hide Unmap;
    UnmapInHalfSteps(raw, maximum, limit);
    OverMul((2 * raw - maximum) as real, limit);
    assert ((2 * raw) as real / 2.0 + 0.5).Floor == raw;
  }

  /**
   What a motor reports arrives: a payload packed from its status, its temperatures and the nearest codes of its
   position, velocity and torque decodes to them, each reading within half a step of its own limit.
   */
  lemma FeedbackArrives(f: CanFrame, a: Address, m: Mapping, revision: nat, x: Fields, position: real, velocity: real,
                        torque: real)
    requires a.Valid() && m.Valid() && f.id == a.mst && f.length == 8
    requires Abs(position) <= m.position.value && Abs(velocity) <= m.velocity.value && Abs(torque) <= m.torque.value
    requires x.Valid() && x.esc == a.esc && f.data == Pack(x)
    requires x.position == Quantise(position, 65535, m.position.value)
      && x.velocity == Quantise(velocity, 4095, m.velocity.value)
      && x.torque == Quantise(torque, 4095, m.torque.value)
    ensures var r := DecodeFeedback(f, a, m, revision);
      && r.Success?
      && Abs(r.value.position - position) <= Over(m.position.value, 65535.0)
      && Abs(r.value.velocity - velocity) <= Over(m.velocity.value, 4095.0)
      && Abs(r.value.torque - torque) <= Over(m.torque.value, 4095.0)
      && r.value.status == x.status && r.value.mos == x.mos && r.value.rotor == x.rotor
      && r.value.receivedAt == f.receivedAt && r.value.revision == revision && r.value.valid
  {
    FieldsBijection(x, f.data);
    ReadingWithinHalfStep(position, 65535, m.position.value);
    ReadingWithinHalfStep(velocity, 4095, m.velocity.value);
    ReadingWithinHalfStep(torque, 4095, m.torque.value);
    assert f.data[0] % 16 == Unpack(f.data).esc;
    hide Unpack;
    hide Pack;
    hide Unmap;
    hide Quantise;
    hide Over;
  }

  /**
   No code reads as zero. The zero confirmation, which accepts a position of at most two
   half steps, accepts exactly the two codes around the middle.
   */
  lemma NearZeroIsTheTwoMiddleCodes(raw: nat, limit: real)
    requires 0.0 < limit
    ensures Unmap(raw, 65535, limit) != 0.0
    ensures Abs(Unmap(raw, 65535, limit)) <= Over(2.0 * limit, 65535.0) <==> raw == 32767 || raw == 32768
  {
    hide Mul;
    hide Over;
    var y, k := Unmap(raw, 65535, limit), 2 * raw - 65535;
    UnmapInHalfSteps(raw, 65535, limit);
    hide Unmap;
    AbsMul(y, 65535.0);
    AbsMul(k as real, limit);
    MulUnit(65535.0);
    MulUnit(limit);
    MulOrder(Abs(k as real), 2.0, limit);
    MulOrder(Abs(k as real), 0.0, limit);
    MulSpread(limit, 1.0, 1.0);
    OverVersus(2.0 * limit, 65535.0, Abs(y));
  }
}
