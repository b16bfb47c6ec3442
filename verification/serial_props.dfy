/** Properties of the serial IOCTL dispatcher, each stated over one or two
    calls of `Dispatch`. */
module SerialProperties {
  import opened Common
  import opened LineControl
  import opened SerialTypes
  import opened SerialIoctl

  /** The device check passed and the I/O lock is granted. */
  predicate Ready(env: Env) {
    NtSuccess(env.errorCheck) && !LockRefused(env)
  }

  // ---- invariants of every request -----------------------------------

  /** The outcome keeps the escape-character rule and, when the request is
      completed with an error status, leaves the port and the hardware
      alone. */
  predicate Kept(port: Port, o: Outcome) {
    (EscapeOk(port) ==> EscapeOk(o.port)) &&
    (o.completed && !NtSuccess(o.status) ==> o.port == port && o.effect == NoEffect)
  }

  lemma LineOpKept(port: Port, env: Env, c: Ioctl)
    requires NtSuccess(env.errorCheck) && IsLineOp(c)
    ensures Kept(port, LineOp(port, env, c))
  {
  }

  lemma SignalOpKept(port: Port, env: Env, c: Ioctl)
    requires IsSignalOp(c)
    ensures Kept(port, SignalOp(port, env, c))
  {
  }

  lemma SetTimeoutsKept(port: Port, env: Env, t: Timeouts)
    requires NtSuccess(env.errorCheck)
    ensures Kept(port, SettingsOp(port, env, SetTimeouts(t)))
  {
  }

  lemma GetTimeoutsKept(port: Port, env: Env)
    requires NtSuccess(env.errorCheck)
    ensures Kept(port, SettingsOp(port, env, GetTimeouts))
  {
  }

  lemma SetCharsKept(port: Port, env: Env, ch: SerialChars)
    requires NtSuccess(env.errorCheck)
    ensures Kept(port, SettingsOp(port, env, SetChars(ch)))
  {
  }

  lemma GetCharsKept(port: Port, env: Env)
    requires NtSuccess(env.errorCheck)
    ensures Kept(port, SettingsOp(port, env, GetChars))
  {
  }

  lemma GetHandFlowKept(port: Port, env: Env)
    requires NtSuccess(env.errorCheck)
    ensures Kept(port, SettingsOp(port, env, GetHandFlow))
  {
  }

  lemma SetHandFlowKept(port: Port, env: Env, hf: HandFlow)
    requires NtSuccess(env.errorCheck)
    ensures Kept(port, SettingsOp(port, env, SetHandFlow(hf)))
  {
  }

  lemma LsrmstInsertKept(port: Port, env: Env, e: bv8)
    requires NtSuccess(env.errorCheck)
    ensures Kept(port, SettingsOp(port, env, LsrmstInsert(e)))
  {
  }

  lemma SettingsOpKept(port: Port, env: Env, c: Ioctl)
    requires NtSuccess(env.errorCheck) && IsSettingsOp(c)
    ensures Kept(port, SettingsOp(port, env, c))
  {
    if c.SetTimeouts? {
      SetTimeoutsKept(port, env, c.t);
    } else if c.GetTimeouts? {
      GetTimeoutsKept(port, env);
    } else if c.SetChars? {
      SetCharsKept(port, env, c.c);
    } else if c.GetChars? {
      GetCharsKept(port, env);
    } else if c.GetHandFlow? {
      GetHandFlowKept(port, env);
    } else if c.SetHandFlow? {
      SetHandFlowKept(port, env, c.hf);
    } else if c.LsrmstInsert? {
      LsrmstInsertKept(port, env, c.escape);
    }
  }

  lemma SetQueueSizeKept(port: Port, env: Env, inSize: u32, outSize: u32)
    requires NtSuccess(env.errorCheck)
    ensures Kept(port, QueueOp(port, env, SetQueueSize(inSize, outSize)))
  {
  }

  lemma GetWaitMaskKept(port: Port, env: Env)
    requires NtSuccess(env.errorCheck)
    ensures Kept(port, QueueOp(port, env, GetWaitMask))
  {
  }

  lemma SetWaitMaskKept(port: Port, env: Env, mask: bv32)
    requires NtSuccess(env.errorCheck)
    ensures Kept(port, QueueOp(port, env, SetWaitMask(mask)))
  {
  }

  lemma WaitOnMaskKept(port: Port, env: Env)
    requires NtSuccess(env.errorCheck)
    ensures Kept(port, QueueOp(port, env, WaitOnMask))
  {
  }

  lemma ImmediateCharKept(port: Port, env: Env, ch: bv8)
    requires NtSuccess(env.errorCheck)
    ensures Kept(port, QueueOp(port, env, ImmediateChar(ch)))
  {
  }

  lemma PurgeKept(port: Port, env: Env, mask: bv32)
    requires NtSuccess(env.errorCheck)
    ensures Kept(port, QueueOp(port, env, Purge(mask)))
  {
  }

  lemma XoffCounterKept(port: Port, env: Env, timeout: bv32, counter: i32, xoffChar: bv8)
    requires NtSuccess(env.errorCheck)
    ensures Kept(port, QueueOp(port, env, XoffCounter(timeout, counter, xoffChar)))
  {
  }

  lemma QueueOpKept(port: Port, env: Env, c: Ioctl)
    requires NtSuccess(env.errorCheck) && IsQueueOp(c)
    ensures Kept(port, QueueOp(port, env, c))
  {
    if c.SetQueueSize? {
      SetQueueSizeKept(port, env, c.inSize, c.outSize);
    } else if c.GetWaitMask? {
      GetWaitMaskKept(port, env);
    } else if c.SetWaitMask? {
      SetWaitMaskKept(port, env, c.mask);
    } else if c.WaitOnMask? {
      WaitOnMaskKept(port, env);
    } else if c.ImmediateChar? {
      ImmediateCharKept(port, env, c.ch);
    } else if c.Purge? {
      PurgeKept(port, env, c.mask);
    } else if c.XoffCounter? {
      XoffCounterKept(port, env, c.timeout, c.counter, c.xoffChar);
    }
  }

  lemma StatusOpKept(port: Port, env: Env, c: Ioctl)
    requires NtSuccess(env.errorCheck)
    requires !IsLineOp(c) && !IsSignalOp(c) && !IsSettingsOp(c) && !IsQueueOp(c)
    ensures Kept(port, StatusOp(port, env, c))
  {
  }

  /** Every request keeps the escape-character rule (SET_CHARS, SET_HANDFLOW
      and LSRMST_INSERT each check their part of it), and every request the
      dispatcher completes with an error status changes neither the port nor
      the hardware. */
  lemma DispatchKeepsInvariants(port: Port, env: Env, req: Request)
    ensures Kept(port, Dispatch(port, env, req))
  {
    var c := req.ioctl;
    if NtSuccess(env.errorCheck) && req.inLen >= InNeed(c) && req.outLen >= OutNeed(c) {
      if IsLineOp(c) {
        LineOpKept(port, env, c);
      } else if IsSignalOp(c) {
        SignalOpKept(port, env, c);
      } else if IsSettingsOp(c) {
        SettingsOpKept(port, env, c);
      } else if IsQueueOp(c) {
        QueueOpKept(port, env, c);
      } else {
        StatusOpKept(port, env, c);
      }
    }
  }

  // ---- line control --------------------------------------------------

  /** The code as written keeps the escape-character rule on every request,
      and the "an error leaves everything alone" rule on every request but
      a SET_LINE_CONTROL with settings it does not recognise, which writes
      the register and the data mask although it fails. */
  lemma DispatchAsWrittenKeeps(port: Port, env: Env, req: Request, staleData: bv8, staleParity: bv8, staleStop: bv8)
    ensures var o := DispatchAsWritten(port, env, req, staleData, staleParity, staleStop);
            (EscapeOk(port) ==> EscapeOk(o.port)) &&
            (!(req.ioctl.SetLineControl? && !Valid(req.ioctl.lc)) ==> Kept(port, o))
  {
    DispatchKeepsInvariants(port, env, req);
    if req.ioctl.SetLineControl? && Valid(req.ioctl.lc) && NtSuccess(env.errorCheck) &&
       req.inLen >= InNeed(req.ioctl) && req.outLen >= OutNeed(req.ioctl) {
      AsWrittenAgreesOnValid(port, env, req.ioctl.lc, staleData, staleParity, staleStop);
      assert Dispatch(port, env, req) == SetLineControlHandler(port, env, req.ioctl.lc);
    }
  }

  /** SET_LINE_CONTROL with recognised settings under a granted lock: the
      register keeps its break bit and gains the encoded settings, the data
      mask becomes the word length's, and nothing else changes. */
  lemma SetLineControlStores(port: Port, env: Env, lc: LineSettings)
    requires Ready(env) && Valid(lc)
    ensures var o := Dispatch(port, env, Request(SetLineControl(lc), SizeofLineControl, 0));
            var lcr := (port.lineControl & LcrBreak) | Encode(lc);
            o.completed && o.status == env.ioLock && o.effect == WriteLcr(lcr) &&
            o.port == port.(lineControl := lcr, dataMask := Mask(lc))
  {
  }

  /** GET_LINE_CONTROL decodes the register into the three-byte record. */
  lemma GetLineControlReads(port: Port, env: Env)
    requires NtSuccess(env.errorCheck)
    ensures var o := Dispatch(port, env, Request(GetLineControl, 0, SizeofLineControl));
            o.completed && o.status == env.errorCheck && o.info == SizeofLineControl &&
            o.out == LineOut(Decode(port.lineControl)) && o.port == port
  {
  }

  /** SET_LINE_CONTROL followed by GET_LINE_CONTROL: the break bit survives,
      the data mask keeps exactly `wordLength` bits, and the settings read
      back, exactly unless the stop setting disagrees with the word length
      (the shared stop flag reads as 1.5 for 5-bit words and 2 otherwise). */
  lemma LineControlRoundTrip(port: Port, env: Env, lc: LineSettings)
    requires Ready(env) && Valid(lc)
    ensures var put := Dispatch(port, env, Request(SetLineControl(lc), SizeofLineControl, 0));
            var get := Dispatch(put.port, env, Request(GetLineControl, 0, SizeofLineControl));
            put.status == env.ioLock &&
            put.port.lineControl & LcrBreak == port.lineControl & LcrBreak &&
            put.port.dataMask as int + 1 == Pow2(lc.wordLength as nat) &&
            get.out == LineOut(ReadBack(lc)) &&
            (get.out == LineOut(lc) <==>
               lc.stopBits == StopBit1 || (lc.stopBits == StopBits15 <==> lc.wordLength == 5))
  {
    SetLineControlStores(port, env, lc);
    var put := Dispatch(port, env, Request(SetLineControl(lc), SizeofLineControl, 0));
    GetLineControlReads(put.port, env);
    var brk := port.lineControl & LcrBreak != 0;
    assert put.port.lineControl == Encode(lc) | (if brk then LcrBreak else 0);
    DecodeEncode(lc, brk);
    EncodeFields(lc);
    MaskWidth(lc);
    ReadBackExact(lc);
  }

  /** SET_LINE_CONTROL with a word length, parity or stop setting it does
      not recognise is refused and changes nothing. */
  lemma LineControlInvalid(port: Port, env: Env, lc: LineSettings)
    requires Ready(env) && !Valid(lc)
    ensures Dispatch(port, env, Request(SetLineControl(lc), SizeofLineControl, 0)) == Fail(InvalidParameter, port)
  {
  }

  /** As written, an unrecognised word length is refused but the register
      is still written and the data mask reset to 0xff. */
  lemma AsWrittenClobbersOnInvalid(port: Port, env: Env, lc: LineSettings, staleData: bv8, staleParity: bv8, staleStop: bv8)
    requires Ready(env) && !(5 <= lc.wordLength <= 8)
    ensures var o := SetLineControlAsWritten(port, env, lc, staleData, staleParity, staleStop);
            o.completed && o.status == InvalidParameter && o.effect.WriteLcr? && o.port.dataMask == 0xff &&
            (port.dataMask != 0xff ==> o.port != port)
  {
  }

  /** A concrete instance: a port set for 5-bit words receives word length
      9; the request fails yet the port now keeps all 8 received bits and
      the register holds the uninitialised bits. */
  lemma AsWrittenCounterexample(port: Port, env: Env)
    requires Ready(env) && port.dataMask == 0x1f && port.lineControl == 0x00
    ensures var o := SetLineControlAsWritten(port, env, LineSettings(StopBit1, NoParity, 9), 0x03, 0, 0);
            o.status == InvalidParameter && o.port.dataMask == 0xff && o.port.lineControl == 0x03 &&
            o.effect == WriteLcr(0x03)
  {
  }


  // ---- timeouts, characters, handshaking -------------------------------

  /** SET_TIMEOUTS refuses exactly the all-MAXULONG read timeouts and then
      changes nothing; otherwise it stores all five fields. */
  lemma SetTimeoutsStores(port: Port, env: Env, t: Timeouts)
    requires NtSuccess(env.errorCheck)
    ensures var o := Dispatch(port, env, Request(SetTimeouts(t), SizeofTimeouts, 0));
            (o.status == InvalidParameter <==>
               t.readInterval == MaxUlong && t.readTotalMultiplier == MaxUlong && t.readTotalConstant == MaxUlong) &&
            (o.status == InvalidParameter ==> o.port == port) &&
            (o.status != InvalidParameter ==> o.port == port.(timeouts := t))
  {
  }

  /** GET_TIMEOUTS returns the stored timeouts. */
  lemma GetTimeoutsReads(port: Port, env: Env)
    requires NtSuccess(env.errorCheck)
    ensures var o := Dispatch(port, env, Request(GetTimeouts, 0, SizeofTimeouts));
            o.out == TimeoutsOut(port.timeouts) && o.info == SizeofTimeouts && o.port == port
  {
  }

  /** Timeouts SET_TIMEOUTS accepts are the ones GET_TIMEOUTS returns. */
  lemma TimeoutsRoundTrip(port: Port, env: Env, t: Timeouts)
    requires NtSuccess(env.errorCheck)
    requires !(t.readInterval == MaxUlong && t.readTotalMultiplier == MaxUlong && t.readTotalConstant == MaxUlong)
    ensures var put := Dispatch(port, env, Request(SetTimeouts(t), SizeofTimeouts, 0));
            Dispatch(put.port, env, Request(GetTimeouts, 0, SizeofTimeouts)).out == TimeoutsOut(t)
  {
    SetTimeoutsStores(port, env, t);
    GetTimeoutsReads(Dispatch(port, env, Request(SetTimeouts(t), SizeofTimeouts, 0)).port, env);
  }

  /** SET_CHARS is refused, changing nothing, exactly when a non-zero escape
      character would equal the new XON or XOFF character; otherwise it
      stores the six characters. */
  lemma CharsGuard(port: Port, env: Env, c: SerialChars)
    requires NtSuccess(env.errorCheck)
    ensures var o := Dispatch(port, env, Request(SetChars(c), SizeofChars, 0));
            (o.status == InvalidParameter <==>
               port.escapeChar != 0 && (port.escapeChar == c.xonChar || port.escapeChar == c.xoffChar)) &&
            (o.status == InvalidParameter ==> o.port == port) &&
            (o.status != InvalidParameter ==> o.port == port.(chars := c))
  {
  }

  /** GET_CHARS returns the stored characters. */
  lemma GetCharsReads(port: Port, env: Env)
    requires NtSuccess(env.errorCheck)
    ensures var o := Dispatch(port, env, Request(GetChars, 0, SizeofChars));
            o.out == CharsOut(port.chars) && o.info == SizeofChars && o.port == port
  {
  }

  /** Characters SET_CHARS accepts are the ones GET_CHARS returns. */
  lemma CharsRoundTrip(port: Port, env: Env, c: SerialChars)
    requires NtSuccess(env.errorCheck)
    requires port.escapeChar == 0 || (port.escapeChar != c.xonChar && port.escapeChar != c.xoffChar)
    ensures var put := Dispatch(port, env, Request(SetChars(c), SizeofChars, 0));
            Dispatch(put.port, env, Request(GetChars, 0, SizeofChars)).out == CharsOut(c)
  {
    CharsGuard(port, env, c);
    GetCharsReads(Dispatch(port, env, Request(SetChars(c), SizeofChars, 0)).port, env);
  }

  /** LSRMST_INSERT is refused exactly when a non-zero escape character is a
      flow character or error-character replacement is on; otherwise it
      stores the escape character. */
  lemma LsrmstInsertGuard(port: Port, env: Env, e: bv8)
    requires NtSuccess(env.errorCheck)
    ensures var o := Dispatch(port, env, Request(LsrmstInsert(e), SizeofUchar, 0));
            (o.status == InvalidParameter <==>
               e != 0 && (e == port.chars.xonChar || e == port.chars.xoffChar ||
                          port.handFlow.flowReplace & ErrorCharFlag != 0)) &&
            (o.status == InvalidParameter ==> o.port == port) &&
            (o.status != InvalidParameter ==> o.port == port.(escapeChar := e))
  {
  }

  /** SET_HANDFLOW: input failing the checks is refused before the lock and
      changes nothing; accepted input under a granted lock is stored unless
      it turns on error-character replacement while an escape character is
      set. A limit equal to the queue size is accepted. */
  lemma HandFlowValidation(port: Port, env: Env, hf: HandFlow)
    requires NtSuccess(env.errorCheck)
    ensures var o := Dispatch(port, env, Request(SetHandFlow(hf), SizeofHandFlow, 0));
            (!HandFlowAcceptable(hf, port.queueSize) ==> o == Fail(InvalidParameter, port)) &&
            (HandFlowAcceptable(hf, port.queueSize) && LockRefused(env) ==> o == Return(env.ioLock, port, NoEffect)) &&
            (HandFlowAcceptable(hf, port.queueSize) && !LockRefused(env) ==>
               if port.escapeChar != 0 && hf.flowReplace & ErrorCharFlag != 0 then o == Fail(InvalidParameter, port)
               else o.status == env.ioLock && o.port == port.(handFlow := hf))
  {
  }

  /** GET_HANDFLOW returns the stored handshake and flow settings. */
  lemma GetHandFlowReads(port: Port, env: Env)
    requires NtSuccess(env.errorCheck)
    ensures var o := Dispatch(port, env, Request(GetHandFlow, 0, SizeofHandFlow));
            o.out == HandFlowOut(port.handFlow) && o.info == SizeofHandFlow && o.port == port
  {
  }

  /** Settings SET_HANDFLOW stores are the ones GET_HANDFLOW returns. */
  lemma HandFlowRoundTrip(port: Port, env: Env, hf: HandFlow)
    requires Ready(env) && HandFlowAcceptable(hf, port.queueSize)
    requires port.escapeChar == 0 || hf.flowReplace & ErrorCharFlag == 0
    ensures var put := Dispatch(port, env, Request(SetHandFlow(hf), SizeofHandFlow, 0));
            Dispatch(put.port, env, Request(GetHandFlow, 0, SizeofHandFlow)).out == HandFlowOut(hf)
  {
    HandFlowValidation(port, env, hf);
    GetHandFlowReads(Dispatch(port, env, Request(SetHandFlow(hf), SizeofHandFlow, 0)).port, env);
  }

  /** With legal flag bits, SET_HANDFLOW fails before any change when a
      limit lies outside 0 to the queue size and otherwise stores the
      struct: a limit equal to the queue size is accepted. */
  lemma HandFlowLimits(port: Port, env: Env, hf: HandFlow)
    requires Ready(env)
    requires hf.controlHandShake & ControlInvalid == 0 && hf.flowReplace & FlowInvalid == 0
    requires hf.controlHandShake & DtrMask != DtrMask
    ensures var o := Dispatch(port, env, Request(SetHandFlow(hf), SizeofHandFlow, 0));
            var inRange := 0 <= hf.xonLimit <= port.queueSize && 0 <= hf.xoffLimit <= port.queueSize;
            (!inRange ==> o == Fail(InvalidParameter, port)) &&
            (inRange && (port.escapeChar == 0 || hf.flowReplace & ErrorCharFlag == 0) ==>
               o.completed && o.status == env.ioLock && NtSuccess(o.status) && o.port == port.(handFlow := hf))
  {
  }

  /** SET_DTR and CLR_DTR are refused, without touching the line, exactly
      under DTR handshaking. */
  lemma DtrGuard(port: Port, env: Env, setting: bool)
    requires Ready(env)
    ensures var o := Dispatch(port, env, Request(if setting then SetDtr else ClrDtr, 0, 0));
            o.completed && o.port == port &&
            (o.status == InvalidParameter <==> port.handFlow.controlHandShake & DtrMask == DtrHandshake) &&
            (o.status == InvalidParameter ==> o.effect == NoEffect) &&
            (o.status != InvalidParameter ==> o.effect == if setting then SetDtrLine else ClrDtrLine)
  {
  }

  /** SET_RTS and CLR_RTS are refused, without touching the line, exactly
      under RTS handshaking or transmit toggling. */
  lemma RtsGuard(port: Port, env: Env, setting: bool)
    requires Ready(env)
    ensures var o := Dispatch(port, env, Request(if setting then SetRts else ClrRts, 0, 0));
            var mode := port.handFlow.flowReplace & RtsMask;
            o.completed && o.port == port &&
            (o.status == InvalidParameter <==> mode == RtsHandshake || mode == TransmitToggle) &&
            (o.status == InvalidParameter ==> o.effect == NoEffect) &&
            (o.status != InvalidParameter ==> o.effect == if setting then SetRtsLine else ClrRtsLine)
  {
  }

  // ---- requests handed on to queues --------------------------------------

  /** SET_WAIT_MASK: bits outside the thirteen wait events are refused;
      a legal mask is queued. */
  lemma WaitMaskValidation(port: Port, env: Env, mask: bv32)
    requires NtSuccess(env.errorCheck)
    ensures var o := Dispatch(port, env, Request(SetWaitMask(mask), SizeofUlong, 0));
            if mask & !LegalEvents != 0 then o == Fail(InvalidParameter, port)
            else o == Return(env.queueStatus, port, Enqueue(MaskQueue))
  {
  }

  /** PURGE: an empty mask or one outside the four purge flags is refused;
      any other is queued. */
  lemma PurgeValidation(port: Port, env: Env, mask: bv32)
    requires NtSuccess(env.errorCheck)
    ensures var o := Dispatch(port, env, Request(Purge(mask), SizeofUlong, 0));
            if mask == 0 || mask & !LegalPurge != 0 then o == Fail(InvalidParameter, port)
            else o == Return(env.queueStatus, port, Enqueue(PurgeQueue))
  {
  }

  /** XOFF_COUNTER: a counter that is not positive is refused; otherwise the
      request joins the write queue. */
  lemma XoffCounterValidation(port: Port, env: Env, timeout: bv32, counter: i32, xoff: bv8)
    requires NtSuccess(env.errorCheck)
    ensures var o := Dispatch(port, env, Request(XoffCounter(timeout, counter, xoff), SizeofXoffCounter, 0));
            if counter <= 0 then o == Fail(InvalidParameter, port)
            else o == Return(env.queueStatus, port, Enqueue(WriteQueue))
  {
  }

  /** SET_QUEUE_SIZE: a size not above the current one succeeds with no
      change; a larger one is queued once its buffer is allocated and fails
      with INSUFFICIENT_RESOURCES otherwise. */
  lemma QueueSizeValidation(port: Port, env: Env, inSize: u32, outSize: u32)
    requires NtSuccess(env.errorCheck)
    ensures var o := Dispatch(port, env, Request(SetQueueSize(inSize, outSize), SizeofQueueSize, 0));
            if inSize <= port.queueSize then o == Complete(Success, 0, NoOutput, port, NoEffect)
            else if !env.poolAvailable then o == Fail(InsufficientResources, port)
            else o == Return(env.queueStatus, port, Enqueue(ReadQueue))
  {
    var o := Dispatch(port, env, Request(SetQueueSize(inSize, outSize), SizeofQueueSize, 0));
    assert o == QueueOp(port, env, SetQueueSize(inSize, outSize));
  }

  /** An unknown request code completes with INVALID_PARAMETER. */
  lemma UnknownCode(port: Port, env: Env, code: bv32, inLen: nat, outLen: nat)
    requires NtSuccess(env.errorCheck)
    ensures Dispatch(port, env, Request(Unknown(code), inLen, outLen)) == Fail(InvalidParameter, port)
  {
  }

  /** IMMEDIATE_CHAR: refused while one is outstanding; otherwise it is
      recorded, counts as one more pending write (modulo 2^32) and is handed
      to the start routine. */
  lemma ImmediateCharRule(port: Port, env: Env, ch: bv8)
    requires NtSuccess(env.errorCheck)
    ensures var o := Dispatch(port, env, Request(ImmediateChar(ch), SizeofUchar, 0));
            if port.immediatePending then o == Fail(InvalidParameter, port)
            else !o.completed && o.status == env.immediateStatus && o.effect == StartImmediate(ch) &&
                 o.port.immediatePending &&
                 o.port.pendingWriteCount == (port.pendingWriteCount + 1) % UlongRange &&
                 o.port == port.(immediatePending := true, pendingWriteCount := o.port.pendingWriteCount)
  {
  }

  /** Only one immediate character at a time: a second one sent before the
      first is finished is refused. */
  lemma ImmediateCharSingle(port: Port, env: Env, c1: bv8, c2: bv8)
    requires NtSuccess(env.errorCheck)
    ensures var first := Dispatch(port, env, Request(ImmediateChar(c1), SizeofUchar, 0));
            Dispatch(first.port, env, Request(ImmediateChar(c2), SizeofUchar, 0)) == Fail(InvalidParameter, first.port)
  {
    ImmediateCharRule(port, env, c1);
    ImmediateCharRule(Dispatch(port, env, Request(ImmediateChar(c1), SizeofUchar, 0)).port, env, c2);
  }

  // ---- status ---------------------------------------------------------

  /** Each hold reason is reported exactly when its stop reason is set, and
      no other bit is reported. */
  lemma HoldReasonsMapping(tx: bv32, rx: bv32)
    ensures var h := HoldReasons(tx, rx);
            (h & HoldTxCts != 0 <==> tx & TxCts != 0) &&
            (h & HoldTxDsr != 0 <==> tx & TxDsr != 0) &&
            (h & HoldTxDcd != 0 <==> tx & TxDcd != 0) &&
            (h & HoldTxXon != 0 <==> tx & TxXoff != 0) &&
            (h & HoldOnBreak != 0 <==> tx & TxBreak != 0) &&
            (h & HoldRxDsr != 0 <==> rx & RxDsr != 0) &&
            (h & HoldXoffSent != 0 <==> rx & RxXoff != 0) &&
            h & !0x7f == 0
  {
  }

  /** GET_COMMSTATUS reports the error word, the hold reasons and the
      queue counts, and clears the error word. */
  lemma CommStatusReads(port: Port, env: Env)
    requires NtSuccess(env.errorCheck)
    ensures var o := Dispatch(port, env, Request(GetCommStatus, 0, SizeofStatus));
            o.out.StatusOut? && o.out.status.errors == port.errorWord &&
            o.out.status.holdReasons == HoldReasons(port.txStopReason, port.rxStopReason) &&
            o.out.status.amountInInQueue == port.readCount && !o.out.status.eofReceived &&
            o.out.status.waitForImmediate == port.txImmediate &&
            o.info == SizeofStatus && o.port == port.(errorWord := 0)
  {
  }

  /** Read-and-clear: a second GET_COMMSTATUS reports no errors. */
  lemma CommStatusReadAndClear(port: Port, env: Env)
    requires NtSuccess(env.errorCheck)
    ensures var first := Dispatch(port, env, Request(GetCommStatus, 0, SizeofStatus));
            var second := Dispatch(first.port, env, Request(GetCommStatus, 0, SizeofStatus));
            first.out.status.errors == port.errorWord && second.out.status.errors == 0
  {
    CommStatusReads(port, env);
    CommStatusReads(Dispatch(port, env, Request(GetCommStatus, 0, SizeofStatus)).port, env);
  }

  /** CLEAR_STATS zeroes the statistics and nothing else. */
  lemma ClearStatsZeroes(port: Port, env: Env)
    requires NtSuccess(env.errorCheck)
    ensures Dispatch(port, env, Request(ClearStats, 0, 0)).port == port.(stats := ZeroStats)
  {
  }

  /** GET_STATS returns the statistics. */
  lemma GetStatsReads(port: Port, env: Env)
    requires NtSuccess(env.errorCheck)
    ensures var o := Dispatch(port, env, Request(GetStats, 0, SizeofPerfStats));
            o.out == StatsOut(port.stats) && o.info == SizeofPerfStats && o.port == port
  {
  }

  /** After CLEAR_STATS, GET_STATS reports zeros. */
  lemma StatsCleared(port: Port, env: Env)
    requires NtSuccess(env.errorCheck)
    ensures var clear := Dispatch(port, env, Request(ClearStats, 0, 0));
            Dispatch(clear.port, env, Request(GetStats, 0, SizeofPerfStats)).out == StatsOut(ZeroStats)
  {
    ClearStatsZeroes(port, env);
    GetStatsReads(Dispatch(port, env, Request(ClearStats, 0, 0)).port, env);
  }

  /** SET_BAUD_RATE under a granted lock stores the rate. */
  lemma SetBaudStores(port: Port, env: Env, baud: bv32)
    requires Ready(env)
    ensures Dispatch(port, env, Request(SetBaudRate(baud), SizeofBaudRate, 0)).port == port.(baudRate := baud)
  {
  }

  /** GET_BAUD_RATE under a granted lock returns the stored rate. */
  lemma GetBaudReads(port: Port, env: Env)
    requires Ready(env)
    ensures var o := Dispatch(port, env, Request(GetBaudRate, 0, SizeofBaudRate));
            o.out == UlongOut(port.baudRate) && o.info == SizeofBaudRate && o.port == port
  {
  }

  /** The rate SET_BAUD_RATE stores is the one GET_BAUD_RATE returns. */
  lemma BaudRoundTrip(port: Port, env: Env, baud: bv32)
    requires Ready(env)
    ensures var put := Dispatch(port, env, Request(SetBaudRate(baud), SizeofBaudRate, 0));
            Dispatch(put.port, env, Request(GetBaudRate, 0, SizeofBaudRate)).out == UlongOut(baud)
  {
    SetBaudStores(port, env, baud);
    GetBaudReads(Dispatch(port, env, Request(SetBaudRate(baud), SizeofBaudRate, 0)).port, env);
  }

  /** GET_DTRRTS reports only the DTR and RTS bits of the modem control
      register. */
  lemma DtrRtsBits(port: Port, env: Env)
    requires Ready(env)
    ensures var o := Dispatch(port, env, Request(GetDtrRts, 0, SizeofUlong));
            o.out.UlongOut? && o.out.v & !DtrRtsState == 0 &&
            o.out.v & DtrRtsState == env.mcr as bv32 & DtrRtsState
  {
  }

  /** SET_MODEM_CONTROL writes the value to the modem control register,
      unchecked, and changes nothing in the port record. */
  lemma ModemControlWrite(port: Port, env: Env, mcr: bv8)
    requires Ready(env)
    ensures var o := Dispatch(port, env, Request(SetModemControl(mcr), SizeofUlong, 0));
            o.completed && o.status == env.ioLock && o.effect == WriteMcr(mcr) && o.port == port
  {
  }

  /** GET_MODEM_CONTROL reports the modem control register and
      GET_MODEMSTATUS the modem status the update routine returns; neither
      changes the port. */
  lemma ModemReads(port: Port, env: Env)
    requires Ready(env)
    ensures var o := Dispatch(port, env, Request(GetModemControl, 0, SizeofUlong));
            o.out == UlongOut(env.mcr as bv32) && o.info == SizeofUlong && o.port == port
    ensures var o := Dispatch(port, env, Request(GetModemStatus, 0, SizeofUlong));
            o.out == UlongOut(env.modemStatus) && o.info == SizeofUlong && o.port == port
  {
  }

  /** SET_XOFF, SET_XON, SET_BREAK_ON and SET_BREAK_OFF each hand one action
      to the hardware under the I/O lock and change nothing in the port. */
  lemma SignalActions(port: Port, env: Env, c: Ioctl)
    requires Ready(env) && (c.SetXoff? || c.SetXon? || c.SetBreakOn? || c.SetBreakOff?)
    ensures var o := Dispatch(port, env, Request(c, 0, 0));
            o.completed && o.status == env.ioLock && o.port == port &&
            o.effect == (if c.SetXoff? then PretendXoff else if c.SetXon? then PretendXon
                         else if c.SetBreakOn? then BreakOn else BreakOff)
  {
  }

  /** SET_FIFO_CONTROL is accepted without the I/O lock and does nothing;
      CONFIG_SIZE reports zero. */
  lemma FifoAndConfigSize(port: Port, env: Env)
    requires NtSuccess(env.errorCheck)
    ensures var o := Dispatch(port, env, Request(SetFifoControl, 0, 0));
            o.completed && o.status == env.errorCheck && o.port == port && o.effect == NoEffect
    ensures var o := Dispatch(port, env, Request(ConfigSize, 0, SizeofUlong));
            o.out == UlongOut(0) && o.info == SizeofUlong && o.port == port
  {
  }

  /** RESET_DEVICE takes the I/O lock and then does nothing. */
  lemma ResetDoesNothing(port: Port, env: Env)
    requires Ready(env)
    ensures var o := Dispatch(port, env, Request(ResetDevice, 0, 0));
            o.completed && o.status == env.ioLock && o.port == port && o.effect == NoEffect
  {
  }

  /** GET_WAIT_MASK reports the stored mask and changes nothing. */
  lemma WaitMaskRead(port: Port, env: Env)
    requires NtSuccess(env.errorCheck)
    ensures var o := Dispatch(port, env, Request(GetWaitMask, 0, SizeofUlong));
            o.out == UlongOut(port.waitMask) && o.port == port
  {
  }

  /** WAIT_ON_MASK is handed to the mask queue and not completed here. */
  lemma WaitOnMaskQueued(port: Port, env: Env)
    requires NtSuccess(env.errorCheck)
    ensures var o := Dispatch(port, env, Request(WaitOnMask, 0, SizeofUlong));
            !o.completed && o.status == env.queueStatus && o.effect == Enqueue(MaskQueue) && o.port == port
  {
  }

  /** GET_PROPERTIES describes a version-2 record of its own size with no
      transmit queue and the port's queue size as the current receive
      queue. */
  lemma PropertiesReport(port: Port, env: Env)
    requires NtSuccess(env.errorCheck)
    ensures var o := Dispatch(port, env, Request(GetProperties, 0, SizeofCommProp));
            o.out.PropOut? && o.out.prop.packetLength == SizeofCommProp && o.out.prop.packetVersion == 2 &&
            o.out.prop.maxTxQueue == 0 && o.out.prop.maxRxQueue == 0 && o.out.prop.currentTxQueue == 0 &&
            o.out.prop.currentRxQueue == port.queueSize && o.info == SizeofCommProp && o.port == port
  {
  }

  // ---- the checks every request passes through ---------------------------

  /** A buffer smaller than the request's structure completes the request
      with BUFFER_TOO_SMALL and changes nothing. */
  lemma ShortBufferRefused(port: Port, env: Env, req: Request)
    requires NtSuccess(env.errorCheck)
    requires req.inLen < InNeed(req.ioctl) || req.outLen < OutNeed(req.ioctl)
    ensures Dispatch(port, env, req) == Fail(BufferTooSmall, port)
  {
  }

  /** A request that takes the I/O lock and is refused it returns the lock's
      status, uncompleted, with no change. */
  lemma LockRefusal(port: Port, env: Env, req: Request)
    requires NtSuccess(env.errorCheck) && LockRefused(env) && TakesIoLock(req.ioctl)
    requires req.inLen >= InNeed(req.ioctl) && req.outLen >= OutNeed(req.ioctl)
    requires req.ioctl.SetHandFlow? ==> HandFlowAcceptable(req.ioctl.hf, port.queueSize)
    ensures Dispatch(port, env, req) == Return(env.ioLock, port, NoEffect)
  {
  }

  /** A failed device check is returned uncompleted, with no change. */
  lemma DeviceErrorReturned(port: Port, env: Env, req: Request)
    requires !NtSuccess(env.errorCheck)
    ensures var o := Dispatch(port, env, req);
            !o.completed && o.status == env.errorCheck && o.port == port && o.effect == NoEffect
  {
  }
}
