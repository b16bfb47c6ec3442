/** The serial port's device-extension fields that the IOCTL dispatcher
    reads and writes, the typed contents of each request's input buffer,
    and the outcome of dispatching one request. */
module SerialTypes {
  import opened Common
  import opened LineControl

  const MaxUlong: bv32 := 0xffff_ffff

  /** ULONG arithmetic wraps modulo 2^32. */
  const UlongRange: nat := 0x1_0000_0000

  /** Sizes of the buffers each request reads or fills, in bytes. */
  const SizeofBaudRate: nat := 4
  const SizeofLineControl: nat := 3
  const SizeofTimeouts: nat := 20
  const SizeofChars: nat := 6
  const SizeofQueueSize: nat := 8
  const SizeofHandFlow: nat := 16
  const SizeofStatus: nat := 20
  const SizeofCommProp: nat := 64
  const SizeofXoffCounter: nat := 12
  const SizeofPerfStats: nat := 24
  const SizeofUlong: nat := 4
  const SizeofUchar: nat := 1

  /** SERIAL_HANDFLOW.ControlHandShake flags. */
  const DtrMask: bv32 := 0x03
  const DtrControl: bv32 := 0x01
  const DtrHandshake: bv32 := 0x02
  const ControlInvalid: bv32 := 0x7fff_ff84

  /** SERIAL_HANDFLOW.FlowReplace flags. */
  const ErrorCharFlag: bv32 := 0x04
  const RtsMask: bv32 := 0xc0
  const RtsControl: bv32 := 0x40
  const RtsHandshake: bv32 := 0x80
  const TransmitToggle: bv32 := 0xc0
  const FlowInvalid: bv32 := 0x7fff_ff20

  /** The thirteen SERIAL_EV_* wait events, RXCHAR (0x0001) to EVENT2 (0x1000). */
  const LegalEvents: bv32 := 0x1fff

  /** SERIAL_PURGE_TXABORT | RXABORT | TXCLEAR | RXCLEAR. */
  const LegalPurge: bv32 := 0x0f

  /** SERIAL_DTR_STATE | SERIAL_RTS_STATE in the modem control register. */
  const DtrRtsState: bv32 := 0x03

  /** The driver's transmit and receive stop reasons. */
  const TxCts: bv32 := 0x01
  const TxDsr: bv32 := 0x02
  const TxDcd: bv32 := 0x04
  const TxXoff: bv32 := 0x08
  const TxBreak: bv32 := 0x10
  const RxDtr: bv32 := 0x01
  const RxXoff: bv32 := 0x02
  const RxRts: bv32 := 0x04
  const RxDsr: bv32 := 0x08

  /** SERIAL_STATUS.HoldReasons flags. */
  const HoldTxCts: bv32 := 0x01
  const HoldTxDsr: bv32 := 0x02
  const HoldTxDcd: bv32 := 0x04
  const HoldTxXon: bv32 := 0x08
  const HoldXoffSent: bv32 := 0x10
  const HoldOnBreak: bv32 := 0x20
  const HoldRxDsr: bv32 := 0x40

  /** SERIAL_COMMPROP header values the driver fills in. */
  const PropVersion: bv32 := 2

  datatype Timeouts = Timeouts(
    readInterval: bv32, readTotalMultiplier: bv32, readTotalConstant: bv32,
    writeTotalMultiplier: bv32, writeTotalConstant: bv32)

  datatype SerialChars = SerialChars(
    eofChar: bv8, errorChar: bv8, breakChar: bv8, eventChar: bv8, xonChar: bv8, xoffChar: bv8)

  datatype HandFlow = HandFlow(controlHandShake: bv32, flowReplace: bv32, xonLimit: i32, xoffLimit: i32)

  datatype PerfStats = PerfStats(
    receivedCount: bv32, transmittedCount: bv32, frameErrorCount: bv32,
    serialOverrunErrorCount: bv32, bufferOverrunErrorCount: bv32, parityErrorCount: bv32)

  const ZeroStats := PerfStats(0, 0, 0, 0, 0, 0)

  datatype CommStatus = CommStatus(
    errors: bv32, holdReasons: bv32, amountInInQueue: u32, amountInOutQueue: u32,
    eofReceived: bool, waitForImmediate: bool)

  /** The SERIAL_COMMPROP fields that depend on the port; the constant
      capability masks are not modelled. */
  datatype CommProp = CommProp(
    packetLength: nat, packetVersion: bv32, maxTxQueue: u32, maxRxQueue: u32,
    currentTxQueue: u32, currentRxQueue: u32)

  /** The device extension's serial state. `immediatePending` stands for a
      non-null ImmediateCharIrp. */
  datatype Port = Port(
    baudRate: bv32,
    lineControl: bv8,
    dataMask: bv8,
    timeouts: Timeouts,
    chars: SerialChars,
    handFlow: HandFlow,
    escapeChar: bv8,
    queueSize: u32,
    waitMask: bv32,
    errorWord: bv32,
    txStopReason: bv32,
    rxStopReason: bv32,
    immediatePending: bool,
    pendingWriteCount: u32,
    readCount: u32,
    writeLength: u32,
    txImmediate: bool,
    stats: PerfStats)

  /** One request code, with the input buffer contents it reads. */
  datatype Ioctl =
    | SetBaudRate(baud: bv32)
    | GetBaudRate
    | GetModemControl
    | SetModemControl(mcr: bv8)
    | SetFifoControl
    | SetLineControl(lc: LineSettings)
    | GetLineControl
    | SetTimeouts(t: Timeouts)
    | GetTimeouts
    | SetChars(c: SerialChars)
    | GetChars
    | SetDtr
    | ClrDtr
    | ResetDevice
    | SetRts
    | ClrRts
    | SetXoff
    | SetXon
    | SetBreakOn
    | SetBreakOff
    | SetQueueSize(inSize: u32, outSize: u32)
    | GetWaitMask
    | SetWaitMask(mask: bv32)
    | WaitOnMask
    | ImmediateChar(ch: bv8)
    | Purge(mask: bv32)
    | GetHandFlow
    | SetHandFlow(hf: HandFlow)
    | GetModemStatus
    | GetDtrRts
    | GetCommStatus
    | GetProperties
    | XoffCounter(timeout: bv32, counter: i32, xoffChar: bv8)
    | LsrmstInsert(escape: bv8)
    | ConfigSize
    | GetStats
    | ClearStats
    | Unknown(code: bv32)

  datatype Request = Request(ioctl: Ioctl, inLen: nat, outLen: nat)

  /** What the helpers outside the dispatcher answer for this request:
      the device error check, the I/O lock, the UART registers, the queueing
      and immediate-character start routines, and the pool allocator. */
  datatype Env = Env(
    errorCheck: Status,
    ioLock: Status,
    mcr: bv8,
    modemStatus: bv32,
    queueStatus: Status,
    immediateStatus: Status,
    poolAvailable: bool,
    currentWriteLength: u32)

  datatype Queue = ReadQueue | MaskQueue | PurgeQueue | WriteQueue

  /** Actions handed to the hardware helpers or to a request queue. */
  datatype Effect =
    | NoEffect
    | WriteMcr(mcr: bv8)
    | WriteLcr(lcr: bv8)
    | SetDtrLine
    | ClrDtrLine
    | SetRtsLine
    | ClrRtsLine
    | PretendXoff
    | PretendXon
    | BreakOn
    | BreakOff
    | Enqueue(queue: Queue)
    | StartImmediate(ch: bv8)

  /** The output buffer contents. */
  datatype Output =
    | NoOutput
    | UlongOut(v: bv32)
    | LineOut(lc: LineSettings)
    | TimeoutsOut(t: Timeouts)
    | CharsOut(c: SerialChars)
    | HandFlowOut(hf: HandFlow)
    | StatusOut(status: CommStatus)
    | PropOut(prop: CommProp)
    | StatsOut(perf: PerfStats)

  /** The dispatcher's answer: the status it returns, whether it completed
      the request itself (with that status and `info` bytes of output), and
      the port and action it leaves behind. */
  datatype Outcome = Outcome(status: Status, completed: bool, info: nat, out: Output, port: Port, effect: Effect)

  /** Completing the request with a status and output. */
  function Complete(status: Status, info: nat, out: Output, port: Port, effect: Effect): Outcome {
    Outcome(status, true, info, out, port, effect)
  }

  /** Completing the request with no output and no change. */
  function Fail(status: Status, port: Port): Outcome {
    Outcome(status, true, 0, NoOutput, port, NoEffect)
  }

  /** Returning a helper's status without completing the request. */
  function Return(status: Status, port: Port, effect: Effect): Outcome {
    Outcome(status, false, 0, NoOutput, port, effect)
  }

  /** The escape-character rule: a non-zero escape character is neither flow
      character, and error-character replacement is then off. */
  predicate EscapeOk(p: Port) {
    p.escapeChar != 0 ==>
      p.escapeChar != p.chars.xonChar && p.escapeChar != p.chars.xoffChar &&
      p.handFlow.flowReplace & ErrorCharFlag == 0
  }
}
