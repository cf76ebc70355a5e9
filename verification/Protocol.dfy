/** The driver's concurrency as a step system: the threaded interrupt handler, the
    watchdog work item, the power-management callbacks and any number of user threads
    interleave at every shared access.  One step is one shared access or one bus call.

    Threads are numbered: 0 runs the work item, 1 runs suspend and resume, 2 and up are
    user threads (opens, closes and sysfs operations). */
module Protocol {
  import opened Policy

  const WORKER: nat := 0
  const PM: nat := 1

  type pos = x: nat | 1 <= x witness 1

  datatype SuspendOrder = Patched | Vendored

  /** freezer: user threads are frozen while the device is suspended or resuming.
      i2c: the transport re-enables the interrupt while a firmware update finishes. */
  datatype Config = Config(watchdogEnabled: bool, order: SuspendOrder, i2c: bool, freezer: bool)

  datatype Button = Button(trackpoint: bool, index: nat)

  /** What the input devices show: the active contact slots and the held buttons. */
  datatype Inputs = Inputs(slots: set<nat>, held: set<Button>)

  const ALL_UP := Inputs({}, {})

  datatype Op = Recover | Auto | Calibrate | Acquire | Firmware | Show

  /** Where the interrupt handler stands; the error counter is read and written in two steps. */
  datatype IsrPc =
    | IIdle
    | IEntered
    | ICall
    | IFailed
    | ILoaded(seen: nat)
    | IStored(seen: nat)
    | IQueue
    | ISucceeded
    | ICounted
    | IEmit

  /** Opening and closing an input node. */
  datatype NodePc = OpenInc | Opened | CloseDec | CancelBegin | CancelWait

  /** elan_watchdog_work around its recovery. */
  datatype WorkPc = WorkLock | WorkEval | WorkRet

  /** elan_recover_locked; `left` counts the remaining tries. */
  datatype RecPc =
    | Release | ResetErrors | Initialize(left: pos) | Ping(left: pos) | Restore | Returned(status: int)

  /** calibrate_store and acquire_store inside the masked section. */
  datatype CalPc = CalEnter | CalSet | CalUndo | CalRun(left: pos) | CalClear | CalExit

  /** elan_update_firmware; Reinit to Sync is the I2C transport's finish_fw_update. */
  datatype FwPc =
    | FwMark | FwWrite | FwReinit | FwOpen | FwWait | FwClose(ok: bool) | FwSync(ok: bool)
    | FwCheck | FwAbort | FwInit(left: pos) | FwClear

  /** elan_suspend. */
  datatype PmPc =
    | Awake | PmStart | PmMask | PmSync | PmCancel | PmCancelWait | PmLock | PmAbort
    | PmSleep | PmUndo | PmLeave(ok: bool)

  /** elan_resume. */
  datatype WakePc =
    | Suspended | Power | Try(left: pos) | Store(left: pos, loaded: Mode) | SetMode(left: pos) | WakeUnmask

  datatype Pc =
    | Done
    | Node(n: NodePc)
    | Work(w: WorkPc)
    | Lock(op: Op) | Mask(op: Op) | Sync(op: Op) | Unmask(op: Op) | Unlock(op: Op)
    | Rec(op: Op, r: RecPc)
    | Cal(op: Op, k: CalPc)
    | Fw(f: FwPc)
    | Pm(p: PmPc)
    | Wake(v: WakePc)

  /** The watchdog work item and the open input nodes. */
  datatype WorkItem = WorkItem(openers: set<nat>, pending: bool, running: bool, cancellers: set<nat>)

  /** data->mode, the last mode the device acknowledged, and what the input devices show. */
  datatype Device = Device(mode: Mode, devMode: Mode, inputs: Inputs)

  /** The last three are history: every failed read, the failures since the last successful
      read or reset, and the automatic recoveries begun. */
  datatype Counts = Counts(errors: nat, reports: nat, recoveries: nat, failed: nat, streak: nat, attempts: nat)

  datatype Shared = Shared(
    mutex: Option<nat>,
    depth: int,
    isr: IsrPc,
    inFw: bool,
    completed: bool,
    work: WorkItem,
    dev: Device,
    count: Counts)

  datatype State = State(sh: Shared, th: seq<Pc>)

  /** What the environment decides in one step: a transport status, whether an early exit is
      taken, whether a failed try got its mode switch acknowledged, what a report shows. */
  datatype Choice = Choice(status: int, flag: bool, ack: bool, inputs: Inputs)

  datatype Step =
    | IsrGo(c: Choice)
    | ThreadGo(t: nat, c: Choice)
    | Fire
    | Spawn(pc: Pc)
    | Close(t: nat)
    | Suspend
    | Resume

  // ---------- the interrupt handler ----------

  function IsrExec(cfg: Config, sh: Shared, c: Choice): Option<Shared> {
    match sh.isr
    case IIdle => None
    case IEntered =>
      Some(if sh.inFw then sh.(completed := true, isr := IIdle) else sh.(isr := ICall))
    case ICall =>
      Some(if c.status != 0
           then sh.(isr := IFailed, count := sh.count.(failed := sh.count.failed + 1, streak := sh.count.streak + 1))
           else sh.(isr := ISucceeded, count := sh.count.(streak := 0)))
    case IFailed => Some(sh.(isr := ILoaded(sh.count.errors)))
    case ILoaded(r) => Some(sh.(count := sh.count.(errors := (r + 1) % U32), isr := IStored((r + 1) % U32)))
    case IStored(r) =>
      Some(sh.(isr := if cfg.watchdogEnabled
           && WatchdogAction(|sh.work.openers|, 0, r, REPORT_ERROR_THRESHOLD) == RecoverNow
        then IQueue else IIdle))
    case IQueue =>
      var queue := cfg.watchdogEnabled && |sh.work.openers| > 0 && sh.work.cancellers == {};
      Some(sh.(work := sh.work.(pending := sh.work.pending || queue), isr := IIdle))
    case ISucceeded => Some(sh.(count := sh.count.(errors := 0), isr := ICounted))
    case ICounted => Some(sh.(count := sh.count.(reports := sh.count.reports + 1), isr := IEmit))
    case IEmit => Some(sh.(dev := sh.dev.(inputs := c.inputs), isr := IIdle))
  }

  // ---------- one thread ----------

  /** One __elan_initialize try: `flag` says the mode switch was reached, `ack` that the
      device acknowledged it although the try failed. */
  function InitTry(sh: Shared, c: Choice): Shared {
    var reached := c.status == 0 || c.flag;
    var acked := c.status == 0 || (c.flag && c.ack);
    var mode := if reached then sh.dev.mode.(abs := true) else sh.dev.mode;
    sh.(dev := sh.dev.(mode := mode, devMode := if acked then mode else sh.dev.devMode))
  }

  /** What one step of a thread does; Wait when it cannot go on. */
  datatype Effect = Wait | Go(sh: Shared, pc: Pc)

  function Begin(op: Op): Pc {
    match op
    case Recover => Rec(op, Release)
    case Auto => Rec(op, Release)
    case Calibrate => Cal(op, CalEnter)
    case Acquire => Cal(op, CalEnter)
    case Firmware => Fw(FwMark)
    case Show => Unlock(op)
  }

  function NodeExec(sh: Shared, t: nat, n: NodePc): Effect {
    match n
    case OpenInc => Go(sh.(work := sh.work.(openers := sh.work.openers + {t})), Node(Opened))
    case Opened => Wait
    case CloseDec =>
      var rest := sh.work.openers - {t};
      Go(sh.(work := sh.work.(openers := rest)), if rest == {} then Node(CancelBegin) else Done)
    case CancelBegin =>
      Go(sh.(work := sh.work.(pending := false, cancellers := sh.work.cancellers + {t})), Node(CancelWait))
    case CancelWait =>
      if sh.work.running then Wait else Go(sh.(work := sh.work.(cancellers := sh.work.cancellers - {t})), Done)
  }

  function WorkExec(sh: Shared, t: nat, w: WorkPc): Effect {
    match w
    case WorkLock => if sh.mutex.None? then Go(sh.(mutex := Some(t)), Work(WorkEval)) else Wait
    case WorkEval =>
      if WatchdogAction(|sh.work.openers|, 0, sh.count.errors, REPORT_ERROR_THRESHOLD) == RecoverNow
      then Go(sh.(count := sh.count.(attempts := sh.count.attempts + 1)), Mask(Auto))
      else Go(sh, Unlock(Auto))
    case WorkRet => Go(sh.(work := sh.work.(running := false)), Done)
  }

  function RecExec(sh: Shared, op: Op, r: RecPc, c: Choice): Effect {
    match r
    case Release => Go(sh.(dev := sh.dev.(inputs := ALL_UP)), Rec(op, ResetErrors))
    case ResetErrors => Go(sh.(count := sh.count.(errors := 0, streak := 0)), Rec(op, Initialize(RETRY_COUNT)))
    case Initialize(left) =>
      Go(InitTry(sh, c), Rec(op,
            if c.status != 0 && left > 1 then Initialize(left - 1)
            else if RecoveryNext(Reinitialize, c.status) == Verify then Ping(RETRY_COUNT)
            else Returned(c.status)))
    case Ping(left) =>
      Go(sh, Rec(op,
            if c.status != 0 && left > 1 then Ping(left - 1)
            else if RecoveryNext(Verify, c.status) == RestoreMode then Restore
            else Returned(c.status)))
    case Restore =>
      Go(if c.status == 0 then sh.(dev := sh.dev.(devMode := sh.dev.mode)) else sh, Rec(op, Returned(c.status)))
    case Returned(status) =>
      Go(if op == Auto && status == 0 then sh.(count := sh.count.(recoveries := sh.count.recoveries + 1)) else sh, Unmask(op))
  }

  function CalExec(sh: Shared, op: Op, k: CalPc, c: Choice): Effect {
    match k
    case CalEnter => Go(sh.(dev := sh.dev.(mode := sh.dev.mode.(cal := true))), Cal(op, CalSet))
    case CalSet =>
      if c.status == 0 then Go(sh.(dev := sh.dev.(devMode := sh.dev.mode)), Cal(op, CalRun(21)))
      else Go(sh, Cal(op, CalUndo))
    case CalUndo => Go(sh.(dev := sh.dev.(mode := sh.dev.mode.(cal := false))), Unmask(op))
    case CalRun(left) =>
      Go(sh, Cal(op, if c.flag || left == 1 then CalClear else CalRun(left - 1)))
    case CalClear => Go(sh.(dev := sh.dev.(mode := sh.dev.mode.(cal := false))), Cal(op, CalExit))
    case CalExit => Go(if c.status == 0 then sh.(dev := sh.dev.(devMode := sh.dev.mode)) else sh, Unmask(op))
  }

  function FwExec(cfg: Config, sh: Shared, f: FwPc, c: Choice): Effect {
    match f
    case FwMark => Go(sh.(inFw := true), Fw(FwWrite))
    case FwWrite =>
      Go(sh, Fw(if c.status < 0 then FwAbort else if cfg.i2c then FwReinit else FwCheck))
    case FwReinit => Go(sh.(completed := false), Fw(FwOpen))
    case FwOpen => Go(sh.(depth := sh.depth - 1), Fw(FwWait))
    case FwWait =>
      if c.status == 0 && !sh.completed then Wait else Go(sh, Fw(FwClose(c.status == 0)))
    case FwClose(ok) => Go(sh.(depth := sh.depth + 1), Fw(FwSync(ok)))
    case FwSync(ok) =>
      if sh.isr == IIdle then Go(sh, Fw(if ok then FwCheck else FwAbort)) else Wait
    case FwCheck => Go(sh, Fw(if c.status == 0 then FwInit(RETRY_COUNT) else FwAbort))
    case FwAbort => Go(sh, Fw(FwClear))
    case FwInit(left) =>
      Go(InitTry(sh, c), Fw(if c.status != 0 && left > 1 then FwInit(left - 1) else FwClear))
    case FwClear => Go(sh.(inFw := false), Unmask(Firmware))
  }

  function PmExec(cfg: Config, sh: Shared, t: nat, p: PmPc, c: Choice): Effect {
    match p
    case Awake => Wait
    case PmStart => Go(sh, Pm(if cfg.order == Patched then PmMask else PmCancel))
    case PmMask => Go(sh.(depth := sh.depth + 1), Pm(PmSync))
    case PmSync =>
      if sh.isr == IIdle then Go(sh, Pm(if cfg.order == Patched then PmCancel else PmSleep)) else Wait
    case PmCancel => Go(sh.(work := sh.work.(pending := false, cancellers := sh.work.cancellers + {t})), Pm(PmCancelWait))
    case PmCancelWait =>
      if sh.work.running then Wait else Go(sh.(work := sh.work.(cancellers := sh.work.cancellers - {t})), Pm(PmLock))
    case PmLock =>
      if c.flag then Go(sh, Pm(if cfg.order == Patched then PmAbort else Awake))
      else if sh.mutex.None?
      then Go(sh.(mutex := Some(t)), Pm(if cfg.order == Patched then PmSleep else PmMask))
      else Wait
    case PmAbort => Go(sh.(depth := sh.depth - 1), Pm(Awake))
    case PmSleep => Go(sh, Pm(if c.status == 0 then PmLeave(true) else PmUndo))
    case PmUndo => Go(sh.(depth := sh.depth - 1), Pm(PmLeave(false)))
    case PmLeave(ok) => Go(sh.(mutex := None), if ok then Wake(Suspended) else Pm(Awake))
  }

  function WakeExec(sh: Shared, v: WakePc, c: Choice): Effect {
    match v
    case Suspended => Wait
    case Power => Go(sh, Wake(if c.status == 0 then Try(RETRY_COUNT) else WakeUnmask))
    case Try(left) => Go(sh, Wake(if c.status == 0 then Store(left, sh.dev.mode) else NextTry(left)))
    case Store(left, loaded) => Go(sh.(dev := sh.dev.(mode := loaded.(abs := true))), Wake(SetMode(left)))
    case SetMode(left) =>
      Go(if c.status == 0 || c.ack then sh.(dev := sh.dev.(devMode := sh.dev.mode)) else sh,
         Wake(if c.status == 0 then WakeUnmask else NextTry(left)))
    case WakeUnmask => Go(sh.(depth := sh.depth - 1), Pm(Awake))
  }

  function NextTry(left: pos): WakePc {
    if left > 1 then Try(left - 1) else WakeUnmask
  }

  /** One step of thread `t` at `pc`; Wait when it has to wait, or has nothing to do. */
  function Exec(cfg: Config, sh: Shared, t: nat, pc: Pc, c: Choice): Effect {
    if c.status > 0 then Wait else
    match pc
    case Done =>
      if t == WORKER && sh.work.pending
      then Go(sh.(work := sh.work.(pending := false, running := true)), Work(WorkLock)) else Wait
    case Node(n) => NodeExec(sh, t, n)
    case Work(w) => WorkExec(sh, t, w)
    case Lock(op) =>
      if c.flag then Go(sh, Done)
      else if sh.mutex.None?
      then Go(sh.(mutex := Some(t)), if op == Show then Unlock(op) else Mask(op))
      else Wait
    case Mask(op) => Go(sh.(depth := sh.depth + 1), Sync(op))
    case Sync(op) => if sh.isr == IIdle then Go(sh, Begin(op)) else Wait
    case Unmask(op) => Go(sh.(depth := sh.depth - 1), Unlock(op))
    case Unlock(op) => Go(sh.(mutex := None), if op == Auto then Work(WorkRet) else Done)
    case Rec(op, r) => RecExec(sh, op, r, c)
    case Cal(op, k) => CalExec(sh, op, k, c)
    case Fw(f) => FwExec(cfg, sh, f, c)
    case Pm(p) => PmExec(cfg, sh, t, p, c)
    case Wake(v) => WakeExec(sh, v, c)
  }

  // ---------- the system ----------

  const START := State(
    Shared(None, 0, IIdle, false, false, WorkItem({}, false, false, {}),
           Device(Mode(true, false), Mode(true, false), ALL_UP), Counts(0, 0, 0, 0, 0, 0)),
    [Done, Pm(Awake)])

  predicate UserStart(pc: Pc) {
    pc == Node(OpenInc) || (pc.Lock? && pc.op != Auto)
  }

  predicate Frozen(cfg: Config, s: State) {
    cfg.freezer && |s.th| > PM && s.th[PM] != Pm(Awake)
  }

  function Next(cfg: Config, s: State, step: Step): Option<State> {
    match step
    case IsrGo(c) =>
      var r := IsrExec(cfg, s.sh, c);
      if r.None? then None else Some(s.(sh := r.value))
    case ThreadGo(t, c) =>
      if t >= |s.th| then None else
      var r := Exec(cfg, s.sh, t, s.th[t], c);
      if r.Wait? then None else Some(State(r.sh, s.th[t := r.pc]))
    case Fire =>
      if s.sh.depth == 0 && s.sh.isr == IIdle then Some(s.(sh := s.sh.(isr := IEntered))) else None
    case Spawn(pc) =>
      if UserStart(pc) && !Frozen(cfg, s) then Some(s.(th := s.th + [pc])) else None
    case Close(t) =>
      if t < |s.th| && s.th[t] == Node(Opened) && !Frozen(cfg, s)
      then Some(s.(th := s.th[t := Node(CloseDec)])) else None
    case Suspend =>
      if |s.th| > PM && s.th[PM] == Pm(Awake) && (cfg.freezer ==> UsersAtRest(s))
      then Some(s.(th := s.th[PM := Pm(PmStart)])) else None
    case Resume =>
      if |s.th| > PM && s.th[PM] == Wake(Suspended) then Some(s.(th := s.th[PM := Wake(Power)])) else None
  }

  predicate UsersAtRest(s: State) {
    forall t :: PM < t < |s.th| ==> s.th[t] == Done || s.th[t] == Node(Opened)
  }

  function Run(cfg: Config, s: State, steps: seq<Step>): Option<State>
    decreases |steps|
  {
    if steps == [] then Some(s) else
    var n := Next(cfg, s, steps[0]);
    if n.None? then None else Run(cfg, n.value, steps[1..])
  }
}
