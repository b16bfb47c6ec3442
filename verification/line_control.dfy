/** The SERIAL_LINE_CONTROL request record and its encoding into the
    8250/16550 Line Control Register: word length in bits 0-1, one stop-bit
    flag (bit 2) shared by the 1.5 and 2 stop-bit settings, parity in bits
    3-5 and break in bit 6. */
module LineControl {
  import opened Common

  const LcrDataMask: bv8 := 0x03
  const Lcr5Data: bv8 := 0x00
  const Lcr6Data: bv8 := 0x01
  const Lcr7Data: bv8 := 0x02
  const Lcr8Data: bv8 := 0x03

  const LcrStopFlag: bv8 := 0x04
  const Lcr1Stop: bv8 := 0x00
  const Lcr15Stop: bv8 := LcrStopFlag
  const Lcr2Stop: bv8 := LcrStopFlag

  const LcrParityMask: bv8 := 0x38
  const LcrNoneParity: bv8 := 0x00
  const LcrOddParity: bv8 := 0x08
  const LcrEvenParity: bv8 := 0x18
  const LcrMarkParity: bv8 := 0x28
  const LcrSpaceParity: bv8 := 0x38

  const LcrBreak: bv8 := 0x40

  /** SERIAL_LINE_CONTROL.StopBits values. */
  const StopBit1: bv8 := 0
  const StopBits15: bv8 := 1
  const StopBits2: bv8 := 2

  /** SERIAL_LINE_CONTROL.Parity values. */
  const NoParity: bv8 := 0
  const OddParity: bv8 := 1
  const EvenParity: bv8 := 2
  const MarkParity: bv8 := 3
  const SpaceParity: bv8 := 4

  /** SERIAL_LINE_CONTROL, field for field (three UCHARs). */
  datatype LineSettings = LineSettings(stopBits: bv8, parity: bv8, wordLength: bv8)

  /** The word-length field and the received-data mask for a word length. */
  function DataBits(wordLength: bv8): Option<(bv8, bv8)> {
    match wordLength
    case 5 => Some((Lcr5Data, 0x1f))
    case 6 => Some((Lcr6Data, 0x3f))
    case 7 => Some((Lcr7Data, 0x7f))
    case 8 => Some((Lcr8Data, 0xff))
    case _ => None
  }

  function ParityBits(parity: bv8): Option<bv8> {
    if parity == NoParity then Some(LcrNoneParity)
    else if parity == EvenParity then Some(LcrEvenParity)
    else if parity == OddParity then Some(LcrOddParity)
    else if parity == SpaceParity then Some(LcrSpaceParity)
    else if parity == MarkParity then Some(LcrMarkParity)
    else None
  }

  function StopBitsLcr(stopBits: bv8): Option<bv8> {
    if stopBits == StopBit1 then Some(Lcr1Stop)
    else if stopBits == StopBits15 then Some(Lcr15Stop)
    else if stopBits == StopBits2 then Some(Lcr2Stop)
    else None
  }

  /** Settings every field of which SET_LINE_CONTROL recognises. */
  predicate Valid(lc: LineSettings) {
    DataBits(lc.wordLength).Some? && ParityBits(lc.parity).Some? && StopBitsLcr(lc.stopBits).Some?
  }

  /** The register bits (break excluded) for valid settings. */
  function Encode(lc: LineSettings): (r: bv8)
    requires Valid(lc)
    ensures r & LcrDataMask == lc.wordLength - 5
    ensures (r & LcrStopFlag != 0) <==> lc.stopBits != StopBit1
    ensures r & LcrBreak == 0
  {
    DataBits(lc.wordLength).value.0 | ParityBits(lc.parity).value | StopBitsLcr(lc.stopBits).value
  }

  /** The received-data mask for valid settings. */
  function Mask(lc: LineSettings): bv8
    requires Valid(lc)
  {
    DataBits(lc.wordLength).value.1
  }

  /** GET_LINE_CONTROL's reading of the register into a zeroed record: a
      parity field none of the five encodings names reads as zero, and the
      stop flag reads as 1.5 stop bits for 5-bit words and as 2 otherwise. */
  function Decode(lcr: bv8): (lc: LineSettings)
    ensures 5 <= lc.wordLength <= 8
    ensures lc.parity <= SpaceParity && lc.stopBits <= StopBits2
  {
    var data := lcr & LcrDataMask;
    var wordLength: bv8 :=
      if data == Lcr5Data then 5
      else if data == Lcr6Data then 6
      else if data == Lcr7Data then 7
      else 8;
    var p := lcr & LcrParityMask;
    var parity :=
      if p == LcrNoneParity then NoParity
      else if p == LcrOddParity then OddParity
      else if p == LcrEvenParity then EvenParity
      else if p == LcrMarkParity then MarkParity
      else if p == LcrSpaceParity then SpaceParity
      else 0;
    var stopBits :=
      if lcr & Lcr2Stop != 0 then (if wordLength == 5 then StopBits15 else StopBits2)
      else StopBit1;
    LineSettings(stopBits, parity, wordLength)
  }

  /** What GET_LINE_CONTROL reports after SET_LINE_CONTROL stored `lc`:
      the same settings, except that a set stop flag is named after the
      word length. */
  function ReadBack(lc: LineSettings): LineSettings {
    if lc.stopBits == StopBit1 then lc
    else lc.(stopBits := if lc.wordLength == 5 then StopBits15 else StopBits2)
  }

  /** Decoding an encoded register gives the settings back (up to the
      shared stop flag), whatever the break bit. */
  lemma DecodeEncode(lc: LineSettings, brk: bool)
    requires Valid(lc)
    ensures Decode(Encode(lc) | (if brk then LcrBreak else 0)) == ReadBack(lc)
  {
    var lcr := Encode(lc) | (if brk then LcrBreak else 0);
    assert lcr & LcrDataMask == DataBits(lc.wordLength).value.0;
    assert lcr & LcrParityMask == ParityBits(lc.parity).value;
    assert (lcr & Lcr2Stop != 0) <==> lc.stopBits != StopBit1;
  }

  /** The read-back is exact precisely when the stop-bit setting is the one
      the register's word length implies. */
  lemma ReadBackExact(lc: LineSettings)
    requires Valid(lc)
    ensures ReadBack(lc) == lc <==>
              lc.stopBits == StopBit1 || (lc.stopBits == StopBits15 <==> lc.wordLength == 5)
  {
  }

  /** The encoding keeps to the word-length, stop and parity fields. */
  lemma EncodeFields(lc: LineSettings)
    requires Valid(lc)
    ensures Encode(lc) & !(LcrDataMask | LcrStopFlag | LcrParityMask) == 0
    ensures Encode(lc) & LcrBreak == 0
  {
  }

  /** The data mask keeps exactly the low `wordLength` bits. */
  lemma MaskWidth(lc: LineSettings)
    requires Valid(lc)
    ensures Mask(lc) as int + 1 == Pow2(lc.wordLength as nat)
  {
    assert Pow2(5) == 32;
  }

  function Pow2(n: nat): nat {
    if n == 0 then 1 else 2 * Pow2(n - 1)
  }
}
