/** The velocity-mode wheel motor protocol. */
module H55Protocol {
  import opened Numbers
  import opened Binary32
  import opened Can
  import opened Protocol

  /** The H55 register table; `Some(true)` marks an integer register. */
  function WheelRegister(rid: Byte): Option<bool> {
    if rid in {0x07, 0x08, 0x09, 0x0A, 0x0E, 0x23, 0x24} then Some(true)
    else if rid in {0x06, 0x15, 0x16, 0x17, 0x3C, 0x3D, 0x3E} then Some(false)
    else None
  }

  function EncodeVelocity(esc: nat, speed: Double): Result<CanFrame> {
    if !ValidEsc(esc) || !speed.Finite? || Abs(speed.value) > Largest() then Failure(InvalidCommand)
    else Success(Frame(0x200 + esc, 4, LittleEndian(ToBits(speed.value)) + [0, 0, 0, 0], 0))
  }

  /** The wheel finds in the first four bytes the speed, rounded to binary32, on the identifier of velocity mode. */
  lemma VelocityArrives(esc: nat, speed: Double)
    ensures EncodeVelocity(esc, speed).Success? <==>
      1 <= esc <= 15 && speed.Finite? && Abs(speed.value) <= Largest()
    ensures EncodeVelocity(esc, speed).Success? ==>
      var f := EncodeVelocity(esc, speed).value;
      && f.id == esc + 0x200 && f.length == 4 && f.data[4..] == [0, 0, 0, 0]
      && IsFinite(Load(f.data[..4])) && Value(Load(f.data[..4])) == Rounded(speed.value)
  {
    hide ToBits;
    hide Value;
    hide Load;
    hide LittleEndian;
    hide Largest;
    if EncodeVelocity(esc, speed).Success? {
      var f, word := EncodeVelocity(esc, speed).value, ToBits(speed.value);
      assert f.data[..4] == LittleEndian(word) && f.data[4..] == [0, 0, 0, 0];
      LoadUndoesStore(word);
      InRangeStaysFinite(speed.value);
    }
  }

  /** A protection write is encoded exactly for a whole timeout up to 20000 or a positive speed that binary32 keeps. */
  lemma ProtectionEncodesIff(esc: nat, rid: Byte, value: Double)
    ensures EncodeProtectionWrite(esc, rid, value).Success? <==>
      && 1 <= esc <= 15 && value.Finite? && 0.0 < value.value
      && match rid
         case 0x09 => value.value <= 20000.0 && value.value.Floor as real == value.value
         case 0x06 => Transmittable(value)
         case _ => false
    ensures EncodeProtectionWrite(esc, rid, value).Success? ==>
      IsRequest(EncodeProtectionWrite(esc, rid, value).value, esc, 0x55, rid, 8,
                if rid == 0x09 then value.value.Floor else ToBits(value.value))
  {
    hide ToBits;
    hide Largest;
    if value.Finite? && 0.0 < value.value && value.value.Floor as real == value.value {
      assert value.value.Floor >= 0;
    }
  }

  function RegisterFrame(esc: nat, operation: Byte, rid: Byte, word: Bits): CanFrame
    requires ValidEsc(esc)
  {
    Frame(0x7FF, 8, [esc, 0, operation, rid] + LittleEndian(word), 0)
  }

  function EncodeWheelRead(esc: nat, rid: Byte): Result<CanFrame> {
    if !ValidEsc(esc) || WheelRegister(rid) == None then Failure(InvalidCommand)
    else Success(RegisterFrame(esc, 0x33, rid, 0))
  }

  /** Only the communication timeout and the speed limit may be written, and only sensibly. */
  predicate ProtectionAllowed(rid: Byte, value: Double) {
    && value.Finite? && 0.0 < value.value
    && (rid == 0x09 || rid == 0x06)
    && (rid == 0x09 ==> value.value <= 20000.0 && value.value.Floor as real == value.value)
    && (rid == 0x06 ==> value.value <= Largest() && Magnitude(ToBits(value.value)) != 0)
  }

  function ProtectionWord(rid: Byte, value: Double): Bits
    requires ProtectionAllowed(rid, value)
  {
    if rid == 0x09 then value.value.Floor else ToBits(value.value)
  }

  function EncodeProtectionWrite(esc: nat, rid: Byte, value: Double): Result<CanFrame> {
    if !ProtectionAllowed(rid, value) || !ValidEsc(esc) then Failure(InvalidCommand)
    else Success(RegisterFrame(esc, 0x55, rid, ProtectionWord(rid, value)))
  }

  predicate IsRegisterFrame(f: CanFrame) {
    f.length == 8 && 1 <= f.data[0] <= 15 && f.data[1] == 0 && f.data[2] in {0x33, 0x55, 0xAA}
  }

  function DecodeRegister(f: CanFrame, a: Address, rid: Byte): Result<RegisterValue> {
    if WheelRegister(rid) == None || f.id != a.mst || f.length != 8 || f.id > 0x7FE
       || f.data[0] != a.esc || f.data[1] != 0 || f.data[2] != 0x33 || f.data[3] != rid
    then Failure(InvalidFrame)
    else
      var raw := Load(f.data[4..]);
      if WheelRegister(rid).value then Success(Word(raw))
      else if !IsFinite(raw) then Failure(InvalidFrame)
      else Success(Float(raw))
  }

  /** A reply decodes to `value` exactly when a wheel's register of that type answers with the value's word. */
  lemma DecodeRegisterIff(f: CanFrame, a: Address, rid: Byte, value: RegisterValue)
    requires a.Valid()
    ensures DecodeRegister(f, a, rid) == Success(value) <==>
      && f.id == a.mst && f.length == 8 && f.data == [a.esc, 0, 0x33, rid] + LittleEndian(RawBits(value))
      && match value
         case Word(_) => rid in {0x07, 0x08, 0x09, 0x0A, 0x0E, 0x23, 0x24}
         case Float(bits) => rid in {0x06, 0x15, 0x16, 0x17, 0x3C, 0x3D, 0x3E} && IsFinite(bits)
  {
    hide IsFinite;
    StoreUndoesLoad(f.data[4..]);
    LoadUndoesStore(RawBits(value));
    assert f.data == f.data[..4] + f.data[4..];
    var header: seq<Byte> := [a.esc, 0, 0x33, rid];
    if f.data == header + LittleEndian(RawBits(value)) {
      assert f.data[..4] == header && f.data[4..] == LittleEndian(RawBits(value));
    }
    hide Load;
    hide LittleEndian;
  }

  /** The number a register value stands for. */
  function NumberOf(v: RegisterValue): real { if v.Word? then v.word as real else Value(v.bits) }

  /** Reading back an accepted volatile write yields its value: exactly for the timeout, rounded for the speed. */
  lemma ProtectionReadsBack(a: Address, rid: Byte, value: Double, receivedAt: int)
    requires a.Valid() && EncodeProtectionWrite(a.esc, rid, value).Success?
    ensures var written := EncodeProtectionWrite(a.esc, rid, value).value;
      var reply := Frame(a.mst, 8, [a.esc, 0, 0x33, rid] + written.data[4..], receivedAt);
      && DecodeRegister(reply, a, rid).Success?
      && NumberOf(DecodeRegister(reply, a, rid).value) == (if rid == 0x09 then value.value else Rounded(value.value))
  {
    hide ToBits;
    hide Value;
    hide Load;
    hide LittleEndian;
    var written, word := EncodeProtectionWrite(a.esc, rid, value).value, ProtectionWord(rid, value);
    assert written.data[4..] == LittleEndian(word);
    LoadUndoesStore(word);
    var data: seq<Byte> := [a.esc, 0, 0x33, rid] + written.data[4..];
    assert data[4..] == LittleEndian(word);
    InRangeStaysFinite(value.value);
  }

  /** An acknowledgement of a write never passes for a read reply. */
  lemma WriteEchoIsNoReply(a: Address, b: Address, rid: Byte, other: Byte, value: Double, receivedAt: int)
    requires EncodeProtectionWrite(a.esc, rid, value).Success?
    ensures var echo := Echo(EncodeProtectionWrite(a.esc, rid, value).value, a.mst, receivedAt);
      DecodeRegister(echo, b, other) == Failure(InvalidFrame)
  {
  }

  /** Feedback mistaken for a register frame: a disabled wheel at one of three codes near the lower end. */
  lemma FeedbackLooksLikeRegisterIff(f: CanFrame)
    requires f.length == 8 && ValidEsc(f.data[0] % 16)
    ensures IsRegisterFrame(f) <==> Unpack(f.data).status == 0 && Unpack(f.data).position in {0x33, 0x55, 0xAA}
  {
  }
}
