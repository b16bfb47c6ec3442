/** CloneSerialIoControl: the serial IOCTL dispatcher of the clone port.
    Each request is a pure transition from the port state, the request and
    the helpers' answers to an outcome. */
module SerialIoctl {
  import opened Common
  import opened LineControl
  import opened SerialTypes

  /** test1CheckIoLock refused the request: the dispatcher returns its
      status without completing the request. */
  predicate LockRefused(env: Env) {
    !NtSuccess(env.ioLock) || env.ioLock == Pending
  }

  /** Run `body` under the I/O lock; the status the lock granted is the
      body's success status. */
  function WithLock(env: Env, port: Port, body: Outcome): Outcome {
    if LockRefused(env) then Return(env.ioLock, port, NoEffect) else body
  }

  /** Input and output sizes each request checks before anything else. */
  function InNeed(c: Ioctl): nat {
    match c
    case SetBaudRate(_) => SizeofBaudRate
    case SetModemControl(_) => SizeofUlong
    case SetLineControl(_) => SizeofLineControl
    case SetTimeouts(_) => SizeofTimeouts
    case SetChars(_) => SizeofChars
    case SetQueueSize(_, _) => SizeofQueueSize
    case SetWaitMask(_) => SizeofUlong
    case ImmediateChar(_) => SizeofUchar
    case Purge(_) => SizeofUlong
    case SetHandFlow(_) => SizeofHandFlow
    case XoffCounter(_, _, _) => SizeofXoffCounter
    case LsrmstInsert(_) => SizeofUchar
    case _ => 0
  }

  function OutNeed(c: Ioctl): nat {
    match c
    case GetBaudRate => SizeofBaudRate
    case GetModemControl => SizeofUlong
    case GetLineControl => SizeofLineControl
    case GetTimeouts => SizeofTimeouts
    case GetChars => SizeofChars
    case GetWaitMask => SizeofUlong
    case WaitOnMask => SizeofUlong
    case GetHandFlow => SizeofHandFlow
    case GetModemStatus => SizeofUlong
    case GetDtrRts => SizeofUlong
    case GetCommStatus => SizeofStatus
    case GetProperties => SizeofCommProp
    case ConfigSize => SizeofUlong
    case GetStats => SizeofPerfStats
    case _ => 0
  }

  /** The requests that take the I/O lock. */
  predicate TakesIoLock(c: Ioctl) {
    c.SetBaudRate? || c.GetBaudRate? || c.GetModemControl? || c.SetModemControl? ||
    c.SetLineControl? || c.SetDtr? || c.ClrDtr? || c.ResetDevice? || c.SetRts? || c.ClrRts? ||
    c.SetXoff? || c.SetXon? || c.SetBreakOn? || c.SetBreakOff? || c.SetHandFlow? ||
    c.GetModemStatus? || c.GetDtrRts?
  }

  // ---- line control --------------------------------------------------

  /** SET_LINE_CONTROL as corrected: settings it does not recognise are
      refused before the register, the data mask or the hardware change. */
  function SetLineControlHandler(port: Port, env: Env, lc: LineSettings): Outcome {
    WithLock(env, port,
      if !Valid(lc) then Fail(InvalidParameter, port)
      else
        var lcr := (port.lineControl & LcrBreak) | Encode(lc);
        Complete(env.ioLock, 0, NoOutput, port.(lineControl := lcr, dataMask := Mask(lc)), WriteLcr(lcr)))
  }

  /** SET_LINE_CONTROL as written: each field is looked up separately, an
      unrecognised one sets the status but leaves its register bits to
      whatever the uninitialised local held (`staleData`, `staleParity`,
      `staleStop`), and the register and data mask are written anyway. */
  function SetLineControlAsWritten(port: Port, env: Env, lc: LineSettings,
                                   staleData: bv8, staleParity: bv8, staleStop: bv8): Outcome
  {
    WithLock(env, port,
      var data := if DataBits(lc.wordLength).Some? then DataBits(lc.wordLength).value.0 else staleData;
      var mask := if DataBits(lc.wordLength).Some? then DataBits(lc.wordLength).value.1 else 0xff;
      var parity := if ParityBits(lc.parity).Some? then ParityBits(lc.parity).value else staleParity;
      var stop := if StopBitsLcr(lc.stopBits).Some? then StopBitsLcr(lc.stopBits).value else staleStop;
      var status := if Valid(lc) then env.ioLock else InvalidParameter;
      var lcr := (port.lineControl & LcrBreak) | (data | parity | stop);
      Complete(status, 0, NoOutput, port.(lineControl := lcr, dataMask := mask), WriteLcr(lcr)))
  }

  // ---- handshake and flow control ---------------------------------------

  /** SET_HANDFLOW's checks made before the lock: no reserved bits, a DTR
      mode other than both bits set, and both limits within the queue. */
  predicate HandFlowAcceptable(hf: HandFlow, queueSize: u32) {
    hf.controlHandShake & ControlInvalid == 0 &&
    hf.flowReplace & FlowInvalid == 0 &&
    hf.controlHandShake & DtrMask != DtrMask &&
    0 <= hf.xonLimit <= queueSize &&
    0 <= hf.xoffLimit <= queueSize
  }

  function SetHandFlowHandler(port: Port, env: Env, hf: HandFlow): Outcome {
    if hf.controlHandShake & ControlInvalid != 0 then Fail(InvalidParameter, port)
    else if hf.flowReplace & FlowInvalid != 0 then Fail(InvalidParameter, port)
    else if hf.controlHandShake & DtrMask == DtrMask then Fail(InvalidParameter, port)
    else if hf.xonLimit < 0 || hf.xonLimit > port.queueSize then Fail(InvalidParameter, port)
    else if hf.xoffLimit < 0 || hf.xoffLimit > port.queueSize then Fail(InvalidParameter, port)
    else WithLock(env, port,
      if port.escapeChar != 0 && hf.flowReplace & ErrorCharFlag != 0 then Fail(InvalidParameter, port)
      else Complete(env.ioLock, 0, NoOutput, port.(handFlow := hf), NoEffect))
  }

  /** SET_DTR and CLR_DTR: refused under DTR handshaking. */
  function DtrHandler(port: Port, env: Env, line: Effect): Outcome {
    WithLock(env, port,
      if port.handFlow.controlHandShake & DtrMask == DtrHandshake then Fail(InvalidParameter, port)
      else Complete(env.ioLock, 0, NoOutput, port, line))
  }

  /** SET_RTS and CLR_RTS: refused under RTS handshaking or transmit toggle. */
  function RtsHandler(port: Port, env: Env, line: Effect): Outcome {
    WithLock(env, port,
      var mode := port.handFlow.flowReplace & RtsMask;
      if mode == RtsHandshake || mode == TransmitToggle then Fail(InvalidParameter, port)
      else Complete(env.ioLock, 0, NoOutput, port, line))
  }

  function SetCharsHandler(port: Port, env: Env, c: SerialChars): Outcome {
    if port.escapeChar != 0 && (port.escapeChar == c.xonChar || port.escapeChar == c.xoffChar) then
      Fail(InvalidParameter, port)
    else Complete(env.errorCheck, 0, NoOutput, port.(chars := c), NoEffect)
  }

  function LsrmstInsertHandler(port: Port, env: Env, e: bv8): Outcome {
    if e != 0 && (e == port.chars.xoffChar || e == port.chars.xonChar ||
                  port.handFlow.flowReplace & ErrorCharFlag != 0) then
      Fail(InvalidParameter, port)
    else Complete(env.errorCheck, 0, NoOutput, port.(escapeChar := e), NoEffect)
  }

  // ---- status --------------------------------------------------------

  /** HoldReasons built from the stop reasons; the transmit reasons are only
      looked at when one is set. */
  function HoldReasons(tx: bv32, rx: bv32): bv32 {
    var fromTx: bv32 :=
      if tx == 0 then 0
      else ((if tx & TxCts != 0 then HoldTxCts else 0)
          | (if tx & TxDsr != 0 then HoldTxDsr else 0)
          | (if tx & TxDcd != 0 then HoldTxDcd else 0)
          | (if tx & TxXoff != 0 then HoldTxXon else 0)
          | (if tx & TxBreak != 0 then HoldOnBreak else 0));
    fromTx
      | (if rx & RxDsr != 0 then HoldRxDsr else 0)
      | (if rx & RxXoff != 0 then HoldXoffSent else 0)
  }

  function CommStatusOf(port: Port, env: Env): CommStatus {
    var outQueue :=
      if port.writeLength != 0 then (port.pendingWriteCount - (env.currentWriteLength - port.writeLength)) % UlongRange
      else port.pendingWriteCount;
    CommStatus(port.errorWord, HoldReasons(port.txStopReason, port.rxStopReason),
               port.readCount, outQueue, false, port.txImmediate)
  }

  // ---- dispatch ------------------------------------------------------

  /** Requests on the UART registers and the modem lines. */
  predicate IsLineOp(c: Ioctl) {
    c.SetBaudRate? || c.GetBaudRate? || c.GetModemControl? || c.SetModemControl? ||
    c.SetFifoControl? || c.SetLineControl? || c.GetLineControl? || c.ResetDevice? ||
    c.GetModemStatus? || c.GetDtrRts?
  }

  /** Requests that drive a modem or flow-control signal. */
  predicate IsSignalOp(c: Ioctl) {
    c.SetDtr? || c.ClrDtr? || c.SetRts? || c.ClrRts? ||
    c.SetXoff? || c.SetXon? || c.SetBreakOn? || c.SetBreakOff?
  }

  /** Requests on timeouts, special characters and handshaking. */
  predicate IsSettingsOp(c: Ioctl) {
    c.SetTimeouts? || c.GetTimeouts? || c.SetChars? || c.GetChars? ||
    c.GetHandFlow? || c.SetHandFlow? || c.LsrmstInsert?
  }

  /** Requests checked here and then handed to a queue or start routine. */
  predicate IsQueueOp(c: Ioctl) {
    c.SetQueueSize? || c.GetWaitMask? || c.SetWaitMask? || c.WaitOnMask? ||
    c.ImmediateChar? || c.Purge? || c.XoffCounter?
  }

  function LineOp(port: Port, env: Env, c: Ioctl): Outcome
    requires IsLineOp(c)
  {
    var ok := env.errorCheck;
    match c
    case SetBaudRate(baud) =>
      WithLock(env, port, Complete(env.ioLock, 0, NoOutput, port.(baudRate := baud), NoEffect))
    case GetBaudRate =>
      WithLock(env, port, Complete(env.ioLock, SizeofBaudRate, UlongOut(port.baudRate), port, NoEffect))
    case GetModemControl =>
      WithLock(env, port, Complete(env.ioLock, SizeofUlong, UlongOut(env.mcr as bv32), port, NoEffect))
    case SetModemControl(mcr) =>
      WithLock(env, port, Complete(env.ioLock, 0, NoOutput, port, WriteMcr(mcr)))
    case SetFifoControl =>
      Complete(ok, 0, NoOutput, port, NoEffect)
    case SetLineControl(lc) =>
      SetLineControlHandler(port, env, lc)
    case GetLineControl =>
      Complete(ok, SizeofLineControl, LineOut(Decode(port.lineControl)), port, NoEffect)
    case ResetDevice =>
      WithLock(env, port, Complete(env.ioLock, 0, NoOutput, port, NoEffect))
    case GetModemStatus =>
      WithLock(env, port, Complete(env.ioLock, SizeofUlong, UlongOut(env.modemStatus), port, NoEffect))
    case GetDtrRts =>
      WithLock(env, port, Complete(env.ioLock, SizeofUlong, UlongOut(env.mcr as bv32 & DtrRtsState), port, NoEffect))
    case _ =>
      // not a line request
      Fail(InvalidParameter, port)
  }

  function SignalOp(port: Port, env: Env, c: Ioctl): Outcome
    requires IsSignalOp(c)
  {
    match c
    case SetDtr => DtrHandler(port, env, SetDtrLine)
    case ClrDtr => DtrHandler(port, env, ClrDtrLine)
    case SetRts => RtsHandler(port, env, SetRtsLine)
    case ClrRts => RtsHandler(port, env, ClrRtsLine)
    case SetXoff => WithLock(env, port, Complete(env.ioLock, 0, NoOutput, port, PretendXoff))
    case SetXon => WithLock(env, port, Complete(env.ioLock, 0, NoOutput, port, PretendXon))
    case SetBreakOn => WithLock(env, port, Complete(env.ioLock, 0, NoOutput, port, BreakOn))
    case SetBreakOff => WithLock(env, port, Complete(env.ioLock, 0, NoOutput, port, BreakOff))
    case _ =>
      // not a signal request
      Fail(InvalidParameter, port)
  }

  function SettingsOp(port: Port, env: Env, c: Ioctl): Outcome
    requires IsSettingsOp(c)
  {
    var ok := env.errorCheck;
    match c
    case SetTimeouts(t) =>
      if t.readInterval == MaxUlong && t.readTotalMultiplier == MaxUlong && t.readTotalConstant == MaxUlong then
        Fail(InvalidParameter, port)
      else Complete(ok, 0, NoOutput, port.(timeouts := t), NoEffect)
    case GetTimeouts =>
      Complete(ok, SizeofTimeouts, TimeoutsOut(port.timeouts), port, NoEffect)
    case SetChars(ch) =>
      SetCharsHandler(port, env, ch)
    case GetChars =>
      Complete(ok, SizeofChars, CharsOut(port.chars), port, NoEffect)
    case GetHandFlow =>
      Complete(ok, SizeofHandFlow, HandFlowOut(port.handFlow), port, NoEffect)
    case SetHandFlow(hf) =>
      SetHandFlowHandler(port, env, hf)
    case LsrmstInsert(e) =>
      LsrmstInsertHandler(port, env, e)
    case _ =>
      // not a settings request
      Fail(InvalidParameter, port)
  }

  /** PURGE's check: at least one purge flag and no other bit. */
  predicate PurgeMaskOk(mask: bv32) {
    mask != 0 && mask & !LegalPurge == 0
  }

  function QueueOp(port: Port, env: Env, c: Ioctl): Outcome
    requires IsQueueOp(c)
  {
    var ok := env.errorCheck;
    match c
    case SetQueueSize(inSize, _) =>
      if inSize <= port.queueSize then Complete(Success, 0, NoOutput, port, NoEffect)
      else if !env.poolAvailable then Fail(InsufficientResources, port)
      else Return(env.queueStatus, port, Enqueue(ReadQueue))
    case GetWaitMask =>
      Complete(ok, SizeofUlong, UlongOut(port.waitMask), port, NoEffect)
    case SetWaitMask(mask) =>
      if mask & !LegalEvents != 0 then Fail(InvalidParameter, port)
      else Return(env.queueStatus, port, Enqueue(MaskQueue))
    case WaitOnMask =>
      Return(env.queueStatus, port, Enqueue(MaskQueue))
    case ImmediateChar(ch) =>
      if port.immediatePending then Fail(InvalidParameter, port)
      else Return(env.immediateStatus,
                  port.(immediatePending := true, pendingWriteCount := (port.pendingWriteCount + 1) % UlongRange),
                  StartImmediate(ch))
    case Purge(mask) =>
      if !PurgeMaskOk(mask) then Fail(InvalidParameter, port)
      else Return(env.queueStatus, port, Enqueue(PurgeQueue))
    case XoffCounter(_, counter, _) =>
      if counter <= 0 then Fail(InvalidParameter, port)
      else Return(env.queueStatus, port, Enqueue(WriteQueue))
    case _ =>
      // not a queued request
      Fail(InvalidParameter, port)
  }

  /** Requests answered from the port's status and statistics, and unknown
      codes. */
  function StatusOp(port: Port, env: Env, c: Ioctl): Outcome
    requires !IsLineOp(c) && !IsSignalOp(c) && !IsSettingsOp(c) && !IsQueueOp(c)
  {
    var ok := env.errorCheck;
    match c
    case GetCommStatus =>
      Complete(ok, SizeofStatus, StatusOut(CommStatusOf(port, env)), port.(errorWord := 0), NoEffect)
    case GetProperties =>
      Complete(ok, SizeofCommProp, PropOut(CommProp(SizeofCommProp, PropVersion, 0, 0, 0, port.queueSize)), port, NoEffect)
    case ConfigSize =>
      Complete(ok, SizeofUlong, UlongOut(0), port, NoEffect)
    case GetStats =>
      Complete(ok, SizeofPerfStats, StatsOut(port.stats), port, NoEffect)
    case ClearStats =>
      Complete(ok, 0, NoOutput, port.(stats := ZeroStats), NoEffect)
    case _ =>
      // an unknown code
      Fail(InvalidParameter, port)
  }

  /** The dispatcher after the device error check has passed. */
  function Handle(port: Port, env: Env, c: Ioctl): Outcome
    requires NtSuccess(env.errorCheck)
  {
    if IsLineOp(c) then LineOp(port, env, c)
    else if IsSignalOp(c) then SignalOp(port, env, c)
    else if IsSettingsOp(c) then SettingsOp(port, env, c)
    else if IsQueueOp(c) then QueueOp(port, env, c)
    else StatusOp(port, env, c)
  }

  /** CloneSerialIoControl. A failed device check is returned uncompleted;
      a buffer below the request's size completes with BUFFER_TOO_SMALL;
      otherwise the request's handler decides. Neither check touches the
      port or the hardware. */
  function Dispatch(port: Port, env: Env, req: Request): (o: Outcome)
    ensures !NtSuccess(env.errorCheck) ==>
              !o.completed && o.status == env.errorCheck && o.port == port && o.effect == NoEffect
    ensures NtSuccess(env.errorCheck) && (req.inLen < InNeed(req.ioctl) || req.outLen < OutNeed(req.ioctl)) ==>
              o.completed && o.status == BufferTooSmall && o.port == port && o.effect == NoEffect
  {
    if !NtSuccess(env.errorCheck) then Return(env.errorCheck, port, NoEffect)
    else if req.inLen < InNeed(req.ioctl) || req.outLen < OutNeed(req.ioctl) then Fail(BufferTooSmall, port)
    else Handle(port, env, req.ioctl)
  }

  /** The as-written SET_LINE_CONTROL handler and the corrected one report
      the same status and completion on all settings, and agree entirely
      on recognised ones, whatever the stale locals. */
  lemma AsWrittenAgreesOnValid(port: Port, env: Env, lc: LineSettings, staleData: bv8, staleParity: bv8, staleStop: bv8)
    ensures var asWritten := SetLineControlAsWritten(port, env, lc, staleData, staleParity, staleStop);
            var fixed := SetLineControlHandler(port, env, lc);
            asWritten.status == fixed.status && asWritten.completed == fixed.completed &&
            (Valid(lc) ==> asWritten == fixed)
  {
  }

  /** CloneSerialIoControl with SET_LINE_CONTROL as written, the
      uninitialised locals of that case given as `staleData`,
      `staleParity` and `staleStop`. `Dispatch` uses the corrected handler;
      the two differ only on SET_LINE_CONTROL with settings it does not
      recognise, and even there they report the same status. */
  function DispatchAsWritten(port: Port, env: Env, req: Request,
                             staleData: bv8, staleParity: bv8, staleStop: bv8): (o: Outcome)
    ensures var fixed := Dispatch(port, env, req);
            o.status == fixed.status && o.completed == fixed.completed &&
            (!(req.ioctl.SetLineControl? && !Valid(req.ioctl.lc)) ==> o == fixed)
  {
    if req.ioctl.SetLineControl? && NtSuccess(env.errorCheck) &&
       req.inLen >= InNeed(req.ioctl) && req.outLen >= OutNeed(req.ioctl)
    then
      assert Handle(port, env, req.ioctl) == LineOp(port, env, req.ioctl)
                                          == SetLineControlHandler(port, env, req.ioctl.lc);
      AsWrittenAgreesOnValid(port, env, req.ioctl.lc, staleData, staleParity, staleStop);
      SetLineControlAsWritten(port, env, req.ioctl.lc, staleData, staleParity, staleStop)
    else Dispatch(port, env, req)
  }
}
