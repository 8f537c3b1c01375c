/** The popup-camera controller as a state machine: one record of the service's
    fields, and one transition function per handler of PopupCameraService.
    These functions are the specification the class in module Service is
    proved against; the lemmas below state what the handlers guarantee. */
module PopupCamera {
  import opened Motor
  import opened Dialogs
  import opened MessageQueue
  import opened RecordList

  const FrontCameraId: string := "1"
  /** CAMERA_EVENT_DELAY_TIME: the debounce window and the delay of a camera message. */
  const CameraEventDelay: nat := 100
  /** Cadence of the busy re-poll. */
  const BusyPollDelay: nat := 100
  /** Delay after which an issued motor command releases the busy flag. */
  const BusySettleDelay: nat := 1200
  /** How long the LEDs stay on after lightUp. */
  const LedOnDuration: nat := 1000
  /** Window of the frequent-operation check, in milliseconds. */
  const FrequentWindow: nat := 20000
  /** Default of persist.sys.popup.frequent_times. */
  const DefaultFrequentTriggerCount: nat := 10

  /** What the Handler queue can hold: the three messages and the runnables
      the service posts. */
  datatype Task =
    | CameraClosedMsg
    | CameraOpenMsg
    | CameraErrorMsg
    | RunMotorTask(target: Direction)     // the runnable `r` of updateMotor
    | PollBusyTask(target: Direction)     // the busy re-poll of updateMotor
    | ReleaseBusyTask                     // clears mMotorBusy after a command
    | LedOffTask                          // second half of lightUp
    | FrequentDialogTask                  // builds the frequent-operation dialog
    | CalibrationDialogTask(status: int)  // builds the calibration dialog
    | ErrorDialogTask                     // second half of handleError

  /** Side effects on the world outside the service, in the order they happen. */
  datatype Effect =
    | LedOn
    | LedOff
    | Popup                // IMotor.popupMotor
    | Takeback             // IMotor.takebackMotor
    | Calibration          // IMotor.calibration
    | GoHome               // goBackHome
    | RegisterFreeFall
    | UnregisterFreeFall
    | ShowDialog(dialog: Dialog)

  /** The dialog on screen, if any. Which buttons it has decides which user
      actions are possible. */
  datatype Screen = NoDialog | OnScreen(dialog: Dialog)

  /** The service's fields. `hasMotor` says whether IMotor.getService found a
      motor; `capacity` is FREQUENT_TRIGGER_COUNT. `screen` is not a field of
      the service: it is the dialog the window manager shows. */
  datatype State = State(
    hasMotor: bool,
    capacity: nat,
    motorBusy: bool,
    motorCalibrating: bool,
    popupFailedRecord: nat,
    takebackFailedRecord: nat,
    dialogShowing: bool,
    screen: Screen,
    proximityNear: bool,
    shouldTryUpdateMotor: bool,
    cameraState: CameraState,
    openEvent: nat,
    closedEvent: nat,
    popupRecords: seq<nat>,
    queue: seq<Entry<Task>>,
    effects: seq<Effect>)

  /** What every reachable state satisfies. */
  predicate Inv(s: State) {
    && CoreInv(s)
    && DialogInv(s.dialogShowing, s.screen, s.queue)
  }

  /** Bounds on the counters and the record list, and the queue's shape. */
  predicate CoreInv(s: State) {
    && 1 <= s.capacity
    && |s.popupRecords| <= s.capacity
    && s.popupFailedRecord <= MaxTries
    && s.takebackFailedRecord <= MaxTries
    && QueueInv(s.hasMotor, s.queue)
  }

  /** The tasks that build and show a dialog. */
  predicate IsDialogTask(t: Task) {
    t.FrequentDialogTask? || t.CalibrationDialogTask? || t.ErrorDialogTask?
  }

  /** How many dialog builders the queue holds. */
  function PendingDialogs(q: seq<Entry<Task>>): nat {
    if q == [] then 0 else (if IsDialogTask(q[0].task) then 1 else 0) + PendingDialogs(q[1..])
  }

  function Shown(screen: Screen): nat {
    if screen.OnScreen? then 1 else 0
  }

  /** mDialogShowing is up exactly while one dialog is pending or on screen,
      and then there is only that one. */
  predicate DialogInv(dialogShowing: bool, screen: Screen, queue: seq<Entry<Task>>) {
    PendingDialogs(queue) + Shown(screen) == if dialogShowing then 1 else 0
  }

  /** The queue is in due-time order, and without a motor holds no error work. */
  predicate QueueInv(hasMotor: bool, queue: seq<Entry<Task>>) {
    && Sorted(queue)
    && (!hasMotor ==> !HasMessages(queue, CameraErrorMsg) && !HasMessages(queue, ErrorDialogTask))
  }

  /** onCreate: the fields' initial values, and a close message when the motor
      reports at start-up that the camera is out or jammed. */
  function Boot(hasMotor: bool, capacity: nat, status: int, now: nat): State {
    State(hasMotor, capacity, false, false, 0, 0, false, NoDialog, false, false, Unset, 0, 0, [],
          if hasMotor && ClosesOnBoot(status) then [Entry(CameraClosedMsg, now)] else [], [])
  }

  // ---------------------------------------------------------------- debounce

  /** onCameraAvailable: the camera was closed. */
  function OnCameraAvailable(s: State, cameraId: string, now: nat): State {
    if cameraId != FrontCameraId then s
    else
      var q := if now - s.openEvent < CameraEventDelay && HasMessages(s.queue, CameraOpenMsg)
               then RemoveMessages(s.queue, CameraOpenMsg) else s.queue;
      s.(closedEvent := now, queue := Post(q, CameraClosedMsg, now + CameraEventDelay))
  }

  /** onCameraUnavailable: the camera was opened. */
  function OnCameraUnavailable(s: State, cameraId: string, now: nat): State {
    if cameraId != FrontCameraId then s
    else
      var q := if now - s.closedEvent < CameraEventDelay && HasMessages(s.queue, CameraClosedMsg)
               then RemoveMessages(s.queue, CameraClosedMsg) else s.queue;
      s.(openEvent := now, queue := Post(q, CameraOpenMsg, now + CameraEventDelay))
  }

  // ---------------------------------------------------------------- dialogs

  /** showFrequentOperateDialog, up to the posted dialog builder. */
  function ShowFrequentOperateDialog(s: State, now: nat): State {
    if s.dialogShowing then s
    else s.(dialogShowing := true, queue := Post(s.queue, FrequentDialogTask, now))
  }

  /** showCalibrationResult, up to the posted dialog builder. */
  function ShowCalibrationResult(s: State, status: int, now: nat): State {
    if s.dialogShowing then s
    else s.(dialogShowing := true, queue := Post(s.queue, CalibrationDialogTask(status), now))
  }

  /** A dialog builder shows its dialog. */
  function Display(s: State, d: Dialog): State {
    s.(effects := s.effects + [ShowDialog(d)], screen := OnScreen(d))
  }

  /** The dialog builder posted by showCalibrationResult. */
  function BuildCalibrationDialog(s: State, status: int): State {
    Display(s, CalibrationResult(CalibrationMessageFor(s.motorCalibrating, status)))
  }

  /** handleError, up to the posted runnable. */
  function HandleError(s: State, now: nat): State {
    if s.dialogShowing then s
    else s.(dialogShowing := true, effects := s.effects + [GoHome], queue := Post(s.queue, ErrorDialogTask, now))
  }

  /** The error dialog the runnable of handleError shows. */
  function ErrorDialog(needsCalib: bool, cameraState: CameraState): Dialog {
    MotorError(ErrorMessageFor(needsCalib, cameraState), needsCalib)
  }

  /** The runnable posted by handleError, given the status the motor reports:
      decide whether calibration is needed, count the jam, retry a take-back,
      and show the error dialog. */
  function BuildErrorDialog(s: State, status: int): State {
    if status == RequestCalib || status == CalibError then
      Display(s, ErrorDialog(true, s.cameraState))
    else if status == PopupJammed then
      if s.popupFailedRecord >= MaxTries then
        Display(s, ErrorDialog(true, s.cameraState))
      else
        Display(s.(popupFailedRecord := s.popupFailedRecord + 1), ErrorDialog(false, s.cameraState))
    else if status == TakebackJammed then
      if s.takebackFailedRecord >= MaxTries then
        Display(s, ErrorDialog(true, s.cameraState))
      else
        Display(s.(takebackFailedRecord := s.takebackFailedRecord + 1, effects := s.effects + [Takeback]),
                ErrorDialog(false, s.cameraState))
    else
      Display(s, ErrorDialog(false, s.cameraState))
  }

  // ---------------------------------------------------------------- throttle

  /** The frequent-operation condition of checkFrequentOperate. */
  predicate TooFrequent(records: seq<nat>, capacity: nat) {
    IsFull(records, capacity) && |records| > 0 && records[|records| - 1] - records[0] < FrequentWindow
  }

  /** checkFrequentOperate: record the actuation, warn when too frequent. */
  function CheckFrequentOperate(s: State, now: nat): State {
    var records := Add(s.popupRecords, s.capacity, now);
    var s1 := s.(popupRecords := records);
    if TooFrequent(records, s.capacity) then ShowFrequentOperateDialog(s1, now) else s1
  }

  // ---------------------------------------------------------------- motor

  /** lightUp: LEDs on now, off after LedOnDuration. */
  function LightUp(s: State, now: nat): State {
    s.(effects := s.effects + [LedOn], queue := Post(s.queue, LedOffTask, now + LedOnDuration))
  }

  /** The entry updateMotor posts: the runnable now, or a re-poll when busy. */
  function MotorRequest(busy: bool, target: Direction, now: nat): Entry<Task> {
    if busy then Entry(PollBusyTask(target), now + BusyPollDelay) else Entry(RunMotorTask(target), now)
  }

  /** updateMotor: remember the direction, then run or re-poll. */
  function UpdateMotor(s: State, target: Direction, now: nat): State {
    var q := if s.motorBusy then Post(s.queue, PollBusyTask(target), now + BusyPollDelay)
             else Post(s.queue, RunMotorTask(target), now);
    s.(cameraState := Requested(target), queue := q)
  }

  /** The busy re-poll of updateMotor. */
  function PollBusy(s: State, target: Direction, now: nat): State {
    if s.motorBusy then s.(queue := Post(s.queue, PollBusyTask(target), now + BusyPollDelay))
    else s.(queue := Post(s.queue, RunMotorTask(target), now))
  }

  /** forceTakeback. */
  function ForceTakeback(s: State, now: nat): State {
    UpdateMotor(s, Close, now)
  }

  /** The runnable `r` of updateMotor, given the status the motor reports. */
  function RunMotor(s: State, target: Direction, status: int, now: nat): State {
    if !s.hasMotor then s
    else if s.motorCalibrating then RefuseWhileCalibrating(s, now)
    else if target == Open && ReadyToPopup(status) then ServeOpen(s, now)
    else if target == Close && ReadyToTakeback(status) then ServeClose(s, now)
    else RejectRequest(s, status, now)
  }

  /** The calibrating branch of `r`: no command, busy cleared, go home and
      the "calibration running" dialog. */
  function RefuseWhileCalibrating(s: State, now: nat): State {
    ShowCalibrationResult(s.(motorBusy := false, effects := s.effects + [GoHome]), NoStatus, now)
  }

  /** The open branch of `r`: pop up unless something is near, in which case
      the request is deferred to the proximity listener. */
  function ServeOpen(s: State, now: nat): State {
    var s1 := s.(motorBusy := true, takebackFailedRecord := 0);
    var s2 := if !s.proximityNear then IssueCommand(s1, Popup, RegisterFreeFall, now)
              else s1.(shouldTryUpdateMotor := true);
    s2.(queue := Post(s2.queue, ReleaseBusyTask, now + BusySettleDelay))
  }

  /** The close branch of `r`: take back whatever the proximity sensor says. */
  function ServeClose(s: State, now: nat): State {
    var s1 := s.(motorBusy := true, popupFailedRecord := 0);
    var s2 := IssueCommand(s1, Takeback, UnregisterFreeFall, now);
    s2.(queue := Post(s2.queue, ReleaseBusyTask, now + BusySettleDelay))
  }

  /** A motor command as both branches of `r` issue it: LEDs, the command,
      the free-fall listener change, and the frequency record. */
  function IssueCommand(s: State, command: Effect, listener: Effect, now: nat): State {
    var lit := LightUp(s, now);
    CheckFrequentOperate(lit.(effects := lit.effects + [command] + [listener]), now)
  }

  /** The last branch of `r`: no command, busy cleared, and MSG_CAMERA_ERROR
      for the error statuses. */
  function RejectRequest(s: State, status: int, now: nat): State {
    var s1 := s.(motorBusy := false);
    if IsErrorStatus(status) then s1.(queue := Post(s.queue, CameraErrorMsg, now)) else s1
  }

  /** calibrateMotor. */
  function CalibrateMotor(s: State): State {
    if s.motorCalibrating || !s.hasMotor then s
    else s.(motorCalibrating := true, effects := s.effects + [Calibration])
  }

  // ---------------------------------------------------------------- events

  /** MotorStatusCallback.onNotify. */
  function OnNotify(s: State, status: int, now: nat): State {
    if status == CalibOk || status == CalibError then
      ShowCalibrationResult(s.(motorCalibrating := false), status, now)
    else if status == Pressed then
      var s1 := ForceTakeback(s, now);
      s1.(effects := s1.effects + [GoHome])
    else if status == PopupJammed || status == TakebackJammed then
      s.(queue := Post(s.queue, CameraErrorMsg, now))
    else s
  }

  /** mProximityListener.onEvent. */
  function OnProximityEvent(s: State, isNear: bool, now: nat): State {
    var s1 := s.(proximityNear := isNear);
    if !isNear && s.shouldTryUpdateMotor then UpdateMotor(s1.(shouldTryUpdateMotor := false), Open, now)
    else s1
  }

  /** mProximityListener.onInit. */
  function OnProximityInit(s: State, isNear: bool): State {
    s.(proximityNear := isNear)
  }

  /** mFreeFallListener.onSensorChanged; `freeFall` is the sensor's free-fall reading. */
  function OnFreeFall(s: State, freeFall: bool, now: nat): State {
    if freeFall then
      var s1 := ForceTakeback(s, now);
      s1.(effects := s1.effects + [GoHome])
    else s
  }

  /** The dismiss listener every dialog installs: the dialog leaves the screen. */
  function DismissDialog(s: State): State {
    s.(dialogShowing := false, screen := NoDialog)
  }

  /** The dialog on screen has the "calibrate now" button. */
  predicate OffersCalibration(screen: Screen) {
    screen.OnScreen? && screen.dialog.MotorError? && screen.dialog.offersCalibration
  }

  /** The "calibrate now" button: calibrateMotor, after which the dialog is
      dismissed as every button of an AlertDialog dismisses it. */
  function ChooseCalibrate(s: State): State {
    DismissDialog(CalibrateMotor(s))
  }

  /** handleMessage. Anything other than the three messages is ignored. */
  function HandleMessage(s: State, what: Task, now: nat): State {
    match what
    case CameraClosedMsg => UpdateMotor(s, Close, now)
    case CameraOpenMsg => UpdateMotor(s, Open, now)
    case CameraErrorMsg => HandleError(s, now)
    case _ => s
  }

  /** What the looper does with a task: messages go to handleMessage, runnables run. */
  function RunTask(s: State, task: Task, status: int, now: nat): State {
    match task
    case CameraClosedMsg => HandleMessage(s, task, now)
    case CameraOpenMsg => HandleMessage(s, task, now)
    case CameraErrorMsg => HandleMessage(s, task, now)
    case RunMotorTask(target) => RunMotor(s, target, status, now)
    case PollBusyTask(target) => PollBusy(s, target, now)
    case ReleaseBusyTask => s.(motorBusy := false)
    case LedOffTask => s.(effects := s.effects + [LedOff])
    case FrequentDialogTask => Display(s, FrequentOperate)
    case CalibrationDialogTask(st) => BuildCalibrationDialog(s, st)
    case ErrorDialogTask => BuildErrorDialog(s, status)
  }

  /** One turn of the looper at time `now`: take the head if it is due and run it.
      `status` is what getMotorStatus reports if the task asks. */
  function RunNext(s: State, status: int, now: nat): State {
    if s.queue == [] || now < s.queue[0].when then s
    else RunTask(s.(queue := s.queue[1..]), s.queue[0].task, status, now)
  }

  /** Everything that can happen to the service. */
  datatype Event =
    | CameraAvailable(cameraId: string)
    | CameraUnavailable(cameraId: string)
    | ProximityChanged(isNear: bool)
    | ProximityInit(isNear: bool)
    | FreeFallSensed(freeFall: bool)
    | MotorNotified(status: int)
    | CalibrateChosen
    | DialogDismissed
    | LoopTurn(status: int)

  /** The service's reaction to one event at time `now`. Status notifications
      come from the motor's callback, so none arrive without a motor. A
      dialog can be dismissed only while one is on screen, and "calibrate
      now" chosen only while the dialog on screen offers it. */
  function Step(s: State, ev: Event, now: nat): State {
    match ev
    case CameraAvailable(id) => OnCameraAvailable(s, id, now)
    case CameraUnavailable(id) => OnCameraUnavailable(s, id, now)
    case ProximityChanged(isNear) => OnProximityEvent(s, isNear, now)
    case ProximityInit(isNear) => OnProximityInit(s, isNear)
    case FreeFallSensed(freeFall) => OnFreeFall(s, freeFall, now)
    case MotorNotified(status) => if s.hasMotor then OnNotify(s, status, now) else s
    case CalibrateChosen => if OffersCalibration(s.screen) then ChooseCalibrate(s) else s
    case DialogDismissed => if s.screen.OnScreen? then DismissDialog(s) else s
    case LoopTurn(status) => RunNext(s, status, now)
  }

  /** The state after a run of events, each with the time it happens. */
  function Run(s: State, evs: seq<(Event, nat)>): State
    decreases |evs|
  {
    if evs == [] then s else Run(Step(s, evs[0].0, evs[0].1), evs[1..])
  }
}
