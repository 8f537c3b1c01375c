/** What the handlers of the popup-camera service guarantee, proved about the
    transition functions of module PopupCamera. */
module Properties {
  import opened Motor
  import opened Dialogs
  import opened MessageQueue
  import opened RecordList
  import opened PopupCamera

  // ---------------------------------------------------------------- start-up

  /** onCreate posts one close message, and only when a motor is present and
      reports the camera out or jammed. */
  lemma BootClosesOutCamera(hasMotor: bool, capacity: nat, status: int, now: nat)
    ensures 1 <= capacity ==> Inv(Boot(hasMotor, capacity, status, now))
    ensures var q := Boot(hasMotor, capacity, status, now).queue;
      multiset(q) == if hasMotor && ClosesOnBoot(status) then multiset{Entry(CameraClosedMsg, now)} else multiset{}
  {
  }

  // ---------------------------------------------------------------- debounce

  /** Unfolding a front-camera "available" event: only the event time and
      the queue change. */
  lemma CameraAvailableUnfold(s: State, cameraId: string, now: nat)
    requires cameraId == FrontCameraId
    ensures var cancel := now - s.openEvent < CameraEventDelay && HasMessages(s.queue, CameraOpenMsg);
      var q := if cancel then RemoveMessages(s.queue, CameraOpenMsg) else s.queue;
      OnCameraAvailable(s, cameraId, now) == s.(closedEvent := now, queue := Post(q, CameraClosedMsg, now + CameraEventDelay))
  {
  }

  /** Unfolding a front-camera "unavailable" event: only the event time and
      the queue change. */
  lemma CameraUnavailableUnfold(s: State, cameraId: string, now: nat)
    requires cameraId == FrontCameraId
    ensures var cancel := now - s.closedEvent < CameraEventDelay && HasMessages(s.queue, CameraClosedMsg);
      var q := if cancel then RemoveMessages(s.queue, CameraClosedMsg) else s.queue;
      OnCameraUnavailable(s, cameraId, now) == s.(openEvent := now, queue := Post(q, CameraOpenMsg, now + CameraEventDelay))
  {
  }

  /** The debounce rule on the queue alone: after possibly cancelling every
      `opposite` entry, `what` is posted at `when`. When cancelling, the new
      queue holds exactly the entries that do not carry `opposite`, plus the
      new one; otherwise it holds the old entries plus the new one. */
  lemma DebounceQueue(queue: seq<Entry<Task>>, cancelWindow: bool, what: Task, opposite: Task, when: nat)
    requires what != opposite
    ensures var cancel := cancelWindow && HasMessages(queue, opposite);
      var r := Post(if cancel then RemoveMessages(queue, opposite) else queue, what, when);
      && (!cancelWindow ==> multiset(r) == multiset(queue) + multiset{Entry(what, when)})
      && (cancelWindow ==>
            && multiset(r) == multiset(RemoveMessages(queue, opposite)) + multiset{Entry(what, when)}
            && !HasMessages(r, opposite)
            && (forall e :: e in r ==> (e in queue && e.task != opposite) || e == Entry(what, when))
            && (forall e :: (e in queue && e.task != opposite) || e == Entry(what, when) ==> e in r))
  {
    var cancel := cancelWindow && HasMessages(queue, opposite);
    var q := if cancel then RemoveMessages(queue, opposite) else queue;
    var r := Post(q, what, when);
    PostContents(q, what, when);
    RemoveContents(queue, opposite);
    if cancelWindow && !cancel {
      RemoveAbsent(queue, opposite);
    }
    if cancelWindow {
      forall e | e in r ensures (e in queue && e.task != opposite) || e == Entry(what, when) {
        assert e in multiset(r);
        if e != Entry(what, when) {
          assert e in multiset(q);
          if !cancel {
            assert !HasMessages(queue, opposite);
            assert e.task != opposite;
          }
        }
      }
      forall e | (e in queue && e.task != opposite) || e == Entry(what, when) ensures e in r {
        if e != Entry(what, when) {
          assert e in q;
          assert e in multiset(q);
        }
        assert e in multiset(r);
      }
    }
  }

  /** A front-camera "available" event cancels the pending open messages only
      when it comes less than CameraEventDelay after the last "unavailable"
      event, always schedules a close message CameraEventDelay later, and
      records its time; other cameras change nothing. */
  lemma CameraAvailableDebounce(s: State, cameraId: string, now: nat)
    ensures cameraId != FrontCameraId ==> OnCameraAvailable(s, cameraId, now) == s
    ensures cameraId == FrontCameraId ==>
      var t := OnCameraAvailable(s, cameraId, now);
      var closing := Entry(CameraClosedMsg, now + CameraEventDelay);
      && t == s.(closedEvent := now, queue := t.queue)
      && (now - s.openEvent >= CameraEventDelay ==> multiset(t.queue) == multiset(s.queue) + multiset{closing})
      && (now - s.openEvent < CameraEventDelay ==>
            && multiset(t.queue) == multiset(RemoveMessages(s.queue, CameraOpenMsg)) + multiset{closing}
            && !HasMessages(t.queue, CameraOpenMsg)
            && (forall e :: e in t.queue ==> (e in s.queue && e.task != CameraOpenMsg) || e == closing)
            && (forall e :: (e in s.queue && e.task != CameraOpenMsg) || e == closing ==> e in t.queue))
  {
    if cameraId == FrontCameraId {
      CameraAvailableUnfold(s, cameraId, now);
      DebounceQueue(s.queue, now - s.openEvent < CameraEventDelay, CameraClosedMsg, CameraOpenMsg, now + CameraEventDelay);
    }
  }

  /** The same rule for "unavailable" events, with the roles of open and
      close swapped. */
  lemma CameraUnavailableDebounce(s: State, cameraId: string, now: nat)
    ensures cameraId != FrontCameraId ==> OnCameraUnavailable(s, cameraId, now) == s
    ensures cameraId == FrontCameraId ==>
      var t := OnCameraUnavailable(s, cameraId, now);
      var opening := Entry(CameraOpenMsg, now + CameraEventDelay);
      && t == s.(openEvent := now, queue := t.queue)
      && (now - s.closedEvent >= CameraEventDelay ==> multiset(t.queue) == multiset(s.queue) + multiset{opening})
      && (now - s.closedEvent < CameraEventDelay ==>
            && multiset(t.queue) == multiset(RemoveMessages(s.queue, CameraClosedMsg)) + multiset{opening}
            && !HasMessages(t.queue, CameraClosedMsg)
            && (forall e :: e in t.queue ==> (e in s.queue && e.task != CameraClosedMsg) || e == opening)
            && (forall e :: (e in s.queue && e.task != CameraClosedMsg) || e == opening ==> e in t.queue))
  {
    if cameraId == FrontCameraId {
      CameraUnavailableUnfold(s, cameraId, now);
      DebounceQueue(s.queue, now - s.closedEvent < CameraEventDelay, CameraOpenMsg, CameraClosedMsg, now + CameraEventDelay);
    }
  }

  // ---------------------------------------------------------------- updateMotor

  /** updateMotor records the requested direction at once and posts exactly
      one entry: the runnable when the motor is free, a re-poll when busy. */
  lemma UpdateMotorPostsOneRequest(s: State, target: Direction, now: nat)
    ensures var t := UpdateMotor(s, target, now);
      && t == s.(cameraState := Requested(target), queue := t.queue)
      && multiset(t.queue) == multiset(s.queue) + multiset{MotorRequest(s.motorBusy, target, now)}
  {
    var e := MotorRequest(s.motorBusy, target, now);
    PostContents(s.queue, e.task, e.when);
  }

  /** A re-poll that finds the motor busy posts itself again BusyPollDelay
      later instead of the runnable; one that finds it free posts the runnable. */
  lemma BusyPollerRepolls(s: State, target: Direction, now: nat)
    ensures var t := PollBusy(s, target, now);
      && t == s.(queue := t.queue)
      && multiset(t.queue) == multiset(s.queue) + multiset{MotorRequest(s.motorBusy, target, now)}
  {
    var e := MotorRequest(s.motorBusy, target, now);
    PostContents(s.queue, e.task, e.when);
  }

  // ---------------------------------------------------------------- motor runnable

  /** lightUp turns the LEDs on and posts only the LED-off task. */
  lemma LightUpShape(s: State, now: nat)
    ensures var t := LightUp(s, now);
      && t == s.(effects := s.effects + [LedOn], queue := t.queue)
      && multiset(t.queue) == multiset(s.queue) + multiset{Entry(LedOffTask, now + LedOnDuration)}
  {
    PostContents(s.queue, LedOffTask, now + LedOnDuration);
  }

  /** Issuing a command lights the LEDs, issues the command and the
      listener change, and records the actuation; of the other fields only
      the dialog flag and the queue may change. */
  lemma IssueCommandShape(s: State, command: Effect, listener: Effect, now: nat)
    ensures var t := IssueCommand(s, command, listener, now);
      t == s.(effects := s.effects + [LedOn] + [command] + [listener],
              popupRecords := Add(s.popupRecords, s.capacity, now),
              dialogShowing := t.dialogShowing, queue := t.queue)
  {
  }

  /** An open request the motor can serve resets the take-back failure count
      and keeps the motor busy until the settle task runs. With nothing near,
      it issues exactly one popup (with LED and free-fall registration) and one
      frequency record; with something near, it issues nothing and defers. */
  lemma OpenRequestWhenReady(s: State, status: int, now: nat)
    requires s.hasMotor && !s.motorCalibrating && ReadyToPopup(status)
    ensures var t := RunMotor(s, Open, status, now);
      && t.motorBusy
      && t.takebackFailedRecord == 0
      && t.popupFailedRecord == s.popupFailedRecord
      && t.motorCalibrating == s.motorCalibrating
      && t.cameraState == s.cameraState
      && t.proximityNear == s.proximityNear
      && Entry(ReleaseBusyTask, now + BusySettleDelay) in t.queue
      && (!s.proximityNear ==>
            && t.effects == s.effects + [LedOn] + [Popup] + [RegisterFreeFall]
            && t.popupRecords == Add(s.popupRecords, s.capacity, now)
            && t.shouldTryUpdateMotor == s.shouldTryUpdateMotor)
      && (s.proximityNear ==>
            && t == s.(motorBusy := true, takebackFailedRecord := 0, shouldTryUpdateMotor := true, queue := t.queue)
            && multiset(t.queue) == multiset(s.queue) + multiset{Entry(ReleaseBusyTask, now + BusySettleDelay)})
  {
    var t := RunMotor(s, Open, status, now);
    var s1 := s.(motorBusy := true, takebackFailedRecord := 0);
    var s2 := if !s.proximityNear then IssueCommand(s1, Popup, RegisterFreeFall, now)
              else s1.(shouldTryUpdateMotor := true);
    if !s.proximityNear {
      IssueCommandShape(s1, Popup, RegisterFreeFall, now);
    }
    assert t == s2.(queue := Post(s2.queue, ReleaseBusyTask, now + BusySettleDelay));
    PostContents(s2.queue, ReleaseBusyTask, now + BusySettleDelay);
    assert Entry(ReleaseBusyTask, now + BusySettleDelay) in multiset(t.queue);
  }

  /** A close request the motor can serve resets the popup failure count and
      always issues exactly one take-back (with LED and free-fall
      unregistration) and one frequency record, whatever the proximity sensor
      says; the motor stays busy until the settle task runs. */
  lemma CloseRequestWhenReady(s: State, status: int, now: nat)
    requires s.hasMotor && !s.motorCalibrating && ReadyToTakeback(status)
    ensures var t := RunMotor(s, Close, status, now);
      && t.motorBusy
      && t.popupFailedRecord == 0
      && t.takebackFailedRecord == s.takebackFailedRecord
      && t.motorCalibrating == s.motorCalibrating
      && t.cameraState == s.cameraState
      && t.shouldTryUpdateMotor == s.shouldTryUpdateMotor
      && t.effects == s.effects + [LedOn] + [Takeback] + [UnregisterFreeFall]
      && t.popupRecords == Add(s.popupRecords, s.capacity, now)
      && Entry(ReleaseBusyTask, now + BusySettleDelay) in t.queue
  {
    var t := RunMotor(s, Close, status, now);
    var s1 := s.(motorBusy := true, popupFailedRecord := 0);
    var s2 := IssueCommand(s1, Takeback, UnregisterFreeFall, now);
    IssueCommandShape(s1, Takeback, UnregisterFreeFall, now);
    assert t == s2.(queue := Post(s2.queue, ReleaseBusyTask, now + BusySettleDelay));
    PostContents(s2.queue, ReleaseBusyTask, now + BusySettleDelay);
    assert Entry(ReleaseBusyTask, now + BusySettleDelay) in multiset(t.queue);
  }

  /** Only the motor tasks touch mMotorBusy: the runnable, which sets or
      clears it, and the settle task, which clears it. No other task does. */
  lemma OnlyMotorTasksTouchBusy(s: State, task: Task, status: int, now: nat)
    requires !task.RunMotorTask? && !task.ReleaseBusyTask?
    ensures RunTask(s, task, status, now).motorBusy == s.motorBusy
  {
    match task
    case CameraClosedMsg =>
    case CameraOpenMsg =>
    case CameraErrorMsg =>
    case PollBusyTask(_) =>
    case LedOffTask =>
    case FrequentDialogTask =>
    case CalibrationDialogTask(_) =>
    case ErrorDialogTask => ErrorDialogFrame(s, status);
  }

  /** Nor does any event other than a looper turn. */
  lemma EventsLeaveBusyAlone(s: State, ev: Event, now: nat)
    requires !ev.LoopTurn?
    ensures Step(s, ev, now).motorBusy == s.motorBusy
  {
    match ev
    case CameraAvailable(id) =>
      if id == FrontCameraId {
        CameraAvailableUnfold(s, id, now);
      }
    case CameraUnavailable(id) =>
      if id == FrontCameraId {
        CameraUnavailableUnfold(s, id, now);
      }
    case ProximityChanged(_) =>
    case ProximityInit(_) =>
    case FreeFallSensed(_) =>
    case MotorNotified(_) =>
    case CalibrateChosen =>
    case DialogDismissed =>
  }

  /** Without a motor the runnable does nothing. While calibrating it issues
      no command, clears the busy flag at once, goes home and asks for the
      "calibration running" dialog. */
  lemma NoCommandWhileCalibrating(s: State, target: Direction, status: int, now: nat)
    ensures !s.hasMotor ==> RunMotor(s, target, status, now) == s
    ensures s.hasMotor && s.motorCalibrating ==>
      var t := RunMotor(s, target, status, now);
      && t == s.(motorBusy := false, dialogShowing := true, effects := s.effects + [GoHome], queue := t.queue)
      && multiset(t.queue) == multiset(s.queue) +
           if s.dialogShowing then multiset{} else multiset{Entry(CalibrationDialogTask(NoStatus), now)}
  {
    PostContents(s.queue, CalibrationDialogTask(NoStatus), now);
  }

  /** A request the motor status does not allow issues no command and clears
      the busy flag at once; it raises MSG_CAMERA_ERROR exactly when the status
      is RequestCalib, PopupJammed, TakebackJammed or CalibError. */
  lemma RejectedRequest(s: State, target: Direction, status: int, now: nat)
    requires s.hasMotor && !s.motorCalibrating
    requires !(target == Open && ReadyToPopup(status)) && !(target == Close && ReadyToTakeback(status))
    ensures var t := RunMotor(s, target, status, now);
      && t == s.(motorBusy := false, queue := t.queue)
      && multiset(t.queue) == multiset(s.queue) +
           if IsErrorStatus(status) then multiset{Entry(CameraErrorMsg, now)} else multiset{}
  {
    PostContents(s.queue, CameraErrorMsg, now);
  }

  /** An open request deferred because something is near is replayed by the
      next "far" event as exactly one open request; since the motor is still
      settling, that request is a re-poll. */
  lemma DeferredOpenReplayedOnce(s: State, status: int, now: nat, later: nat)
    requires s.hasMotor && !s.motorCalibrating && ReadyToPopup(status) && s.proximityNear
    ensures var t := RunMotor(s, Open, status, now);
      var u := OnProximityEvent(t, false, later);
      && t.effects == s.effects
      && t.shouldTryUpdateMotor
      && !u.shouldTryUpdateMotor
      && u.cameraState == Requested(Open)
      && multiset(u.queue) == multiset(t.queue) + multiset{Entry(PollBusyTask(Open), later + BusyPollDelay)}
  {
    OpenRequestWhenReady(s, status, now);
    var t := RunMotor(s, Open, status, now);
    UpdateMotorPostsOneRequest(t.(proximityNear := false, shouldTryUpdateMotor := false), Open, later);
  }

  // ---------------------------------------------------------------- handleError

  /** The runnable of handleError changes nothing but the two failure
      counters, the effect log and the dialog on screen. */
  lemma ErrorDialogFrame(s: State, status: int)
    ensures var t := BuildErrorDialog(s, status);
      t == s.(popupFailedRecord := t.popupFailedRecord,
              takebackFailedRecord := t.takebackFailedRecord,
              effects := t.effects, screen := t.screen)
  {
    if status == RequestCalib || status == CalibError {
    } else if status == PopupJammed {
      if s.popupFailedRecord >= MaxTries {
      } else {
      }
    } else if status == TakebackJammed {
      if s.takebackFailedRecord >= MaxTries {
      } else {
      }
    }
  }

  /** The runnable of handleError counts a jam: a popup jam adds one to
      mPopupFailedRecord unless MaxTries were already counted, a take-back jam
      likewise to mTakebackFailedRecord, and no other status touches either
      counter. */
  lemma ErrorCounting(s: State, status: int)
    ensures var t := BuildErrorDialog(s, status);
      && t.popupFailedRecord == s.popupFailedRecord +
           (if status == PopupJammed && s.popupFailedRecord < MaxTries then 1 else 0)
      && t.takebackFailedRecord == s.takebackFailedRecord +
           (if status == TakebackJammed && s.takebackFailedRecord < MaxTries then 1 else 0)
  {
    if status == RequestCalib || status == CalibError {
    } else if status == PopupJammed {
      if s.popupFailedRecord >= MaxTries {
      } else {
      }
    } else if status == TakebackJammed {
      if s.takebackFailedRecord >= MaxTries {
      } else {
      }
    }
  }

  /** The runnable of handleError decides that calibration is needed for
      RequestCalib and CalibError, and for a jam already counted MaxTries
      times; it retries one take-back for a take-back jam it only counts; and
      it then shows the error dialog chosen by that decision, which stays on
      screen. */
  lemma ErrorEscalation(s: State, status: int)
    ensures var t := BuildErrorDialog(s, status);
      var needsCalib :=
        || status == RequestCalib || status == CalibError
        || (status == PopupJammed && s.popupFailedRecord >= MaxTries)
        || (status == TakebackJammed && s.takebackFailedRecord >= MaxTries);
      var retry := status == TakebackJammed && s.takebackFailedRecord < MaxTries;
      && t.effects == (if retry then s.effects + [Takeback] else s.effects) + [ShowDialog(ErrorDialog(needsCalib, s.cameraState))]
      && t.screen == OnScreen(ErrorDialog(needsCalib, s.cameraState))
  {
  }

  /** Neither failure counter ever passes MaxTries. */
  lemma ErrorCountersBounded(s: State, status: int)
    requires s.popupFailedRecord <= MaxTries && s.takebackFailedRecord <= MaxTries
    ensures BuildErrorDialog(s, status).popupFailedRecord <= MaxTries
    ensures BuildErrorDialog(s, status).takebackFailedRecord <= MaxTries
  {
    ErrorCounting(s, status);
  }

  /** The error dialog offers calibration, and its message asks for it, exactly
      when calibration is needed; the message is about a take-back exactly when
      the last request was a close. */
  lemma ErrorDialogOffersCalibration(needsCalib: bool, cameraState: CameraState)
    ensures ErrorDialog(needsCalib, cameraState).offersCalibration == needsCalib
    ensures ErrorDialog(needsCalib, cameraState).errorMessage.AsksToCalibrate() == needsCalib
    ensures ErrorDialog(needsCalib, cameraState).errorMessage.AboutTakeback() == (cameraState == Requested(Close))
  {
  }

  /** The error-dialog runnable applied for `n` jams in a row. */
  function Jams(s: State, status: int, n: nat): State
    decreases n
  {
    if n == 0 then s else BuildErrorDialog(Jams(s, status, n - 1), status)
  }

  /** Starting from no recorded popup failures, the first MaxTries popup jams
      are only counted; every later one asks for calibration. */
  lemma {:induction false} PopupJamsEscalate(s: State, n: nat)
    requires s.popupFailedRecord == 0
    ensures var t := Jams(s, PopupJammed, n);
      && t.popupFailedRecord == (if n <= MaxTries then n else MaxTries)
      && t.takebackFailedRecord == s.takebackFailedRecord
      && t.cameraState == s.cameraState
      && (n > 0 ==> t.effects == Jams(s, PopupJammed, n - 1).effects + [ShowDialog(ErrorDialog(n > MaxTries, s.cameraState))])
  {
    if n > 0 {
      PopupJamsEscalate(s, n - 1);
    }
  }

  /** Starting from no recorded take-back failures, the first MaxTries
      take-back jams are counted and retried; every later one asks for
      calibration and retries nothing. */
  lemma {:induction false} TakebackJamsEscalate(s: State, n: nat)
    requires s.takebackFailedRecord == 0
    ensures var t := Jams(s, TakebackJammed, n);
      && t.takebackFailedRecord == (if n <= MaxTries then n else MaxTries)
      && t.popupFailedRecord == s.popupFailedRecord
      && t.cameraState == s.cameraState
      && (n > 0 ==> t.effects == (if n <= MaxTries then Jams(s, TakebackJammed, n - 1).effects + [Takeback]
                                  else Jams(s, TakebackJammed, n - 1).effects)
                               + [ShowDialog(ErrorDialog(n > MaxTries, s.cameraState))])
  {
    if n > 0 {
      TakebackJamsEscalate(s, n - 1);
    }
  }

  // ---------------------------------------------------------------- dialogs

  /** showFrequentOperateDialog does nothing while a dialog is showing;
      otherwise it marks one as showing and posts its builder. */
  lemma FrequentDialogGuard(s: State, now: nat)
    ensures s.dialogShowing ==> ShowFrequentOperateDialog(s, now) == s
    ensures !s.dialogShowing ==>
      var t := ShowFrequentOperateDialog(s, now);
      && t == s.(dialogShowing := true, queue := t.queue)
      && multiset(t.queue) == multiset(s.queue) + multiset{Entry(FrequentDialogTask, now)}
  {
    PostContents(s.queue, FrequentDialogTask, now);
  }

  /** showCalibrationResult does nothing while a dialog is showing; otherwise
      it marks one as showing and posts its builder. */
  lemma CalibrationDialogGuard(s: State, status: int, now: nat)
    ensures s.dialogShowing ==> ShowCalibrationResult(s, status, now) == s
    ensures !s.dialogShowing ==>
      var t := ShowCalibrationResult(s, status, now);
      && t == s.(dialogShowing := true, queue := t.queue)
      && multiset(t.queue) == multiset(s.queue) + multiset{Entry(CalibrationDialogTask(status), now)}
  {
    PostContents(s.queue, CalibrationDialogTask(status), now);
  }

  /** handleError does nothing, not even go home, while a dialog is showing;
      otherwise it marks one as showing, goes home and posts its runnable. */
  lemma ErrorDialogGuard(s: State, now: nat)
    ensures s.dialogShowing ==> HandleError(s, now) == s
    ensures !s.dialogShowing ==>
      var t := HandleError(s, now);
      && t == s.(dialogShowing := true, effects := s.effects + [GoHome], queue := t.queue)
      && multiset(t.queue) == multiset(s.queue) + multiset{Entry(ErrorDialogTask, now)}
  {
    PostContents(s.queue, ErrorDialogTask, now);
  }

  /** The calibration dialog says "running" while calibrating, otherwise
      success exactly for CalibOk, and stays on screen. */
  lemma CalibrationDialogMessage(s: State, status: int)
    ensures var t := BuildCalibrationDialog(s, status);
      && t == s.(effects := t.effects, screen := t.screen)
      && |t.effects| == |s.effects| + 1
      && t.effects[..|s.effects|] == s.effects
      && t.effects[|s.effects|].ShowDialog?
      && t.effects[|s.effects|].dialog.CalibrationResult?
      && (t.effects[|s.effects|].dialog.calibrationMessage == CalibrateRunning <==> s.motorCalibrating)
      && (t.effects[|s.effects|].dialog.calibrationMessage == CalibrateSuccess <==> !s.motorCalibrating && status == CalibOk)
      && t.screen == OnScreen(t.effects[|s.effects|].dialog)
  {
  }

  /** A request refused while calibrating asks for the result dialog with
      status -1. If CalibOk arrives before that dialog is built, the
      notification's own dialog is suppressed, and the dialog that is built
      reads the calibration as finished and -1 as not CalibOk: it reports
      failure after a successful calibration. */
  lemma SuccessShownAsFailed(s: State, target: Direction, status: int, now: nat, later: nat, turn: nat, st: int)
    requires s.hasMotor && s.motorCalibrating && !s.dialogShowing && s.queue == []
    requires now <= turn
    ensures var t := RunNext(OnNotify(RunMotor(s, target, status, now), CalibOk, later), st, turn);
      t.screen == OnScreen(CalibrationResult(CalibrateFailed))
  {
    var t1 := RunMotor(s, target, status, now);
    assert t1.queue == [Entry(CalibrationDialogTask(NoStatus), now)];
    var t2 := OnNotify(t1, CalibOk, later);
    assert t2 == t1.(motorCalibrating := false);
  }

  // ---------------------------------------------------------------- proximity

  /** A "far" event while an open is deferred clears the flag and makes
      exactly one open request, after which further proximity events only
      record proximity. Other events, and onInit, only record proximity. */
  lemma ProximityReplay(s: State, isNear: bool, now: nat)
    ensures OnProximityInit(s, isNear) == s.(proximityNear := isNear)
    ensures var t := OnProximityEvent(s, isNear, now);
      if !isNear && s.shouldTryUpdateMotor then
        && t == s.(proximityNear := false, shouldTryUpdateMotor := false,
                   cameraState := Requested(Open), queue := t.queue)
        && multiset(t.queue) == multiset(s.queue) + multiset{MotorRequest(s.motorBusy, Open, now)}
        && forall b: bool, n: nat :: OnProximityEvent(t, b, n) == t.(proximityNear := b)
      else
        t == s.(proximityNear := isNear)
  {
    UpdateMotorPostsOneRequest(s.(proximityNear := false, shouldTryUpdateMotor := false), Open, now);
  }

  // ---------------------------------------------------------------- calibration and status

  /** Asking for calibration again while it runs changes nothing. */
  lemma CalibrateIdempotent(s: State)
    ensures CalibrateMotor(CalibrateMotor(s)) == CalibrateMotor(s)
  {
  }

  /** How many calibration commands the service has issued. */
  function Calibrations(effects: seq<Effect>): nat {
    multiset(effects)[Calibration]
  }

  /** The status notifications that end a calibration. */
  predicate EndsCalibration(ev: Event) {
    ev.MotorNotified? && (ev.status == CalibOk || ev.status == CalibError)
  }

  /** "Calibrate now" on a dialog that offers it, with a motor that is not
      already calibrating: the one event that starts a calibration. */
  predicate StartsCalibration(s: State, ev: Event) {
    ev == CalibrateChosen && OffersCalibration(s.screen) && s.hasMotor && !s.motorCalibrating
  }

  /** The motor runnable neither starts nor ends a calibration, nor issues a
      calibration command. */
  lemma RunMotorLeavesCalibrationAlone(s: State, target: Direction, status: int, now: nat)
    ensures RunMotor(s, target, status, now).motorCalibrating == s.motorCalibrating
    ensures Calibrations(RunMotor(s, target, status, now).effects) == Calibrations(s.effects)
  {
    if !s.hasMotor || s.motorCalibrating {
      NoCommandWhileCalibrating(s, target, status, now);
    } else if target == Open && ReadyToPopup(status) {
      OpenRequestWhenReady(s, status, now);
    } else if target == Close && ReadyToTakeback(status) {
      CloseRequestWhenReady(s, status, now);
    } else {
      RejectedRequest(s, target, status, now);
    }
  }

  /** Nor does any other looper task. */
  lemma TasksLeaveCalibrationAlone(s: State, task: Task, status: int, now: nat)
    ensures RunTask(s, task, status, now).motorCalibrating == s.motorCalibrating
    ensures Calibrations(RunTask(s, task, status, now).effects) == Calibrations(s.effects)
  {
    match task
    case CameraClosedMsg =>
    case CameraOpenMsg =>
    case CameraErrorMsg =>
    case RunMotorTask(target) => RunMotorLeavesCalibrationAlone(s, target, status, now);
    case PollBusyTask(_) =>
    case ReleaseBusyTask =>
    case LedOffTask =>
    case FrequentDialogTask =>
    case CalibrationDialogTask(_) =>
    case ErrorDialogTask =>
      ErrorDialogFrame(s, status);
      ErrorEscalation(s, status);
  }

  /** What one step from `s` to `t` on `ev` may do to calibration:
      mMotorCalibrating is set only by "calibrate now" on a dialog that
      offers it, and cleared only by CalibOk or CalibError from the motor;
      exactly the event that sets it issues a calibration command. */
  predicate CalibrationStep(s: State, ev: Event, t: State) {
    && (!s.motorCalibrating && t.motorCalibrating <==> StartsCalibration(s, ev))
    && (s.motorCalibrating && !t.motorCalibrating ==> EndsCalibration(ev) && s.hasMotor)
    && Calibrations(t.effects) == Calibrations(s.effects) + (if StartsCalibration(s, ev) then 1 else 0)
  }

  /** Every event keeps to that rule. */
  lemma CalibrationFrame(s: State, ev: Event, now: nat)
    ensures CalibrationStep(s, ev, Step(s, ev, now))
  {
    if ev.LoopTurn? {
      if s.queue != [] && now >= s.queue[0].when {
        TasksLeaveCalibrationAlone(s.(queue := s.queue[1..]), s.queue[0].task, ev.status, now);
      }
    } else if ev.CameraAvailable? || ev.CameraUnavailable? {
      CameraCalibrationFrame(s, ev, now);
    } else if ev.MotorNotified? {
      NotifyCalibrationFrame(s, ev, now);
    } else if ev.ProximityChanged? || ev.ProximityInit? || ev.FreeFallSensed? {
      SensorCalibrationFrame(s, ev, now);
    }
  }

  lemma CameraCalibrationFrame(s: State, ev: Event, now: nat)
    requires ev.CameraAvailable? || ev.CameraUnavailable?
    ensures CalibrationStep(s, ev, Step(s, ev, now))
  {
    if ev.cameraId == FrontCameraId {
      if ev.CameraAvailable? {
        CameraAvailableUnfold(s, ev.cameraId, now);
      } else {
        CameraUnavailableUnfold(s, ev.cameraId, now);
      }
    }
  }

  lemma SensorCalibrationFrame(s: State, ev: Event, now: nat)
    requires ev.ProximityChanged? || ev.ProximityInit? || ev.FreeFallSensed?
    ensures CalibrationStep(s, ev, Step(s, ev, now))
  {
    if ev.ProximityChanged? {
      ProximityReplay(s, ev.isNear, now);
    } else if ev.FreeFallSensed? {
      FreeFallRetracts(s, ev.freeFall, now);
    }
  }

  lemma NotifyCalibrationFrame(s: State, ev: Event, now: nat)
    requires ev.MotorNotified?
    ensures CalibrationStep(s, ev, Step(s, ev, now))
  {
    if s.hasMotor {
      NotifyRouting(s, ev.status, now);
    }
  }

  /** Once a calibration has started, it stays running and no further
      calibration command is issued until the motor reports CalibOk or
      CalibError: between a start and its end there is exactly one
      calibration command. */
  lemma {:induction false} OneCalibrationUntilDone(s: State, evs: seq<(Event, nat)>)
    requires s.motorCalibrating
    requires forall i :: 0 <= i < |evs| ==> !EndsCalibration(evs[i].0)
    ensures Run(s, evs).motorCalibrating
    ensures Calibrations(Run(s, evs).effects) == Calibrations(s.effects)
    decreases |evs|
  {
    if evs != [] {
      var t := Step(s, evs[0].0, evs[0].1);
      CalibrationFrame(s, evs[0].0, evs[0].1);
      assert CalibrationStep(s, evs[0].0, t);
      assert !EndsCalibration(evs[0].0);
      forall i | 0 <= i < |evs[1..]| ensures !EndsCalibration(evs[1..][i].0) {
        assert evs[1..][i] == evs[i + 1];
      }
      OneCalibrationUntilDone(t, evs[1..]);
    }
  }

  /** onNotify: CalibOk and CalibError end calibration and ask for the result
      dialog; Pressed requests a take-back and goes home; PopupJammed and
      TakebackJammed raise MSG_CAMERA_ERROR; every other status is ignored. */
  lemma NotifyRouting(s: State, status: int, now: nat)
    ensures var t := OnNotify(s, status, now);
      && (status == CalibOk || status == CalibError ==>
            && !t.motorCalibrating
            && t == ShowCalibrationResult(s.(motorCalibrating := false), status, now))
      && (status == Pressed ==>
            && t == s.(cameraState := Requested(Close), effects := s.effects + [GoHome], queue := t.queue)
            && multiset(t.queue) == multiset(s.queue) + multiset{MotorRequest(s.motorBusy, Close, now)})
      && (status == PopupJammed || status == TakebackJammed ==>
            && t == s.(queue := t.queue)
            && multiset(t.queue) == multiset(s.queue) + multiset{Entry(CameraErrorMsg, now)})
      && (status !in {CalibOk, CalibError, Pressed, PopupJammed, TakebackJammed} ==> t == s)
  {
    if status == Pressed {
      UpdateMotorPostsOneRequest(s, Close, now);
    } else if status == PopupJammed || status == TakebackJammed {
      PostContents(s.queue, CameraErrorMsg, now);
    }
  }

  /** A free-fall reading requests a take-back and goes home; any other
      reading does nothing. */
  lemma FreeFallRetracts(s: State, freeFall: bool, now: nat)
    ensures !freeFall ==> OnFreeFall(s, freeFall, now) == s
    ensures freeFall ==>
      var t := OnFreeFall(s, freeFall, now);
      && t == s.(cameraState := Requested(Close), effects := s.effects + [GoHome], queue := t.queue)
      && multiset(t.queue) == multiset(s.queue) + multiset{MotorRequest(s.motorBusy, Close, now)}
  {
    UpdateMotorPostsOneRequest(s, Close, now);
  }

  // ---------------------------------------------------------------- throttle

  /** checkFrequentOperate always appends the actuation to the record list,
      and asks for the frequent-operation dialog exactly when the list is full,
      its newest entry is less than FrequentWindow after its oldest, and no
      dialog is showing. */
  lemma FrequentCheck(s: State, now: nat)
    requires 1 <= s.capacity
    ensures var t := CheckFrequentOperate(s, now);
      var records := Add(s.popupRecords, s.capacity, now);
      var frequent := |records| == s.capacity && records[|records| - 1] - records[0] < FrequentWindow;
      && t == s.(popupRecords := records, dialogShowing := t.dialogShowing, queue := t.queue)
      && records[|records| - 1] == now
      && (|s.popupRecords| <= s.capacity ==> records == Newest(s.popupRecords + [now], s.capacity))
      && t.dialogShowing == (s.dialogShowing || frequent)
      && multiset(t.queue) == multiset(s.queue) +
           if frequent && !s.dialogShowing then multiset{Entry(FrequentDialogTask, now)} else multiset{}
  {
    FrequentDialogGuard(s.(popupRecords := Add(s.popupRecords, s.capacity, now)), now);
  }

  lemma {:induction false} SpanAtLeastGap(records: seq<nat>, gap: nat)
    requires 2 <= |records|
    requires forall i :: 0 < i < |records| ==> records[i - 1] + gap <= records[i]
    ensures records[0] + gap <= records[|records| - 1]
  {
    if |records| > 2 {
      var front := records[..|records| - 1];
      SpanAtLeastGap(front, gap);
      assert records[|records| - 2] + gap <= records[|records| - 1];
    }
  }

  /** With room for at least two records, actuations at least FrequentWindow
      apart never look too frequent, however many of them the list has seen. */
  lemma SpacedActuationsNeverFrequent(history: seq<nat>, capacity: nat)
    requires 2 <= capacity
    requires forall i :: 0 < i < |history| ==> history[i - 1] + FrequentWindow <= history[i]
    ensures !TooFrequent(AddAll([], capacity, history), capacity)
  {
    AddAllKeepsNewest([], capacity, history);
    assert [] + history == history;
    SpacedNewestNeverFrequent(history, capacity);
  }

  lemma SpacedNewestNeverFrequent(history: seq<nat>, capacity: nat)
    requires 2 <= capacity
    requires forall i :: 0 < i < |history| ==> history[i - 1] + FrequentWindow <= history[i]
    ensures !TooFrequent(Newest(history, capacity), capacity)
  {
    var r := Newest(history, capacity);
    if |r| == capacity {
      var k := |history| - capacity;
      assert r == history[k..];
      SpacedSuffix(history, k, FrequentWindow);
      SpanAtLeastGap(r, FrequentWindow);
    }
  }

  lemma SpacedSuffix(history: seq<nat>, k: nat, gap: nat)
    requires k <= |history|
    requires forall i :: 0 < i < |history| ==> history[i - 1] + gap <= history[i]
    ensures forall i :: 0 < i < |history[k..]| ==> history[k..][i - 1] + gap <= history[k..][i]
  {
    forall i | 0 < i < |history[k..]| ensures history[k..][i - 1] + gap <= history[k..][i] {
      assert history[k..][i - 1] == history[k + i - 1] && history[k..][i] == history[k + i];
    }
  }

  /** With room for a single record, every actuation while no dialog is
      showing asks for the frequent-operation dialog. */
  lemma CapacityOneAlwaysWarns(s: State, now: nat)
    requires s.capacity == 1 && |s.popupRecords| <= s.capacity && !s.dialogShowing
    ensures var t := CheckFrequentOperate(s, now);
      && t.dialogShowing
      && multiset(t.queue) == multiset(s.queue) + multiset{Entry(FrequentDialogTask, now)}
  {
    FrequentCheck(s, now);
  }

  // ---------------------------------------------------------------- event loop

  /** A looper turn runs the head of the queue, which is due no later than any
      other entry, once it is due; when it is not, nothing is due and the turn
      changes nothing. */
  lemma RunNextRunsEarliest(s: State, status: int, now: nat)
    requires Sorted(s.queue)
    ensures s.queue == [] || now < s.queue[0].when ==>
      && RunNext(s, status, now) == s
      && forall i :: 0 <= i < |s.queue| ==> now < s.queue[i].when
    ensures s.queue != [] && s.queue[0].when <= now ==>
      && RunNext(s, status, now) == RunTask(s.(queue := s.queue[1..]), s.queue[0].task, status, now)
      && forall i :: 0 <= i < |s.queue| ==> s.queue[0].when <= s.queue[i].when
  {
  }

  // ---------------------------------------------------------------- the invariant

  /** Posting adds one pending dialog exactly when the posted task is a
      dialog builder. */
  lemma {:induction false} PendingAfterPost(q: seq<Entry<Task>>, task: Task, when: nat)
    ensures PendingDialogs(Post(q, task, when)) == PendingDialogs(q) + (if IsDialogTask(task) then 1 else 0)
  {
    if q == [] || when < q[0].when {
      assert ([Entry(task, when)] + q)[1..] == q;
    } else {
      PendingAfterPost(q[1..], task, when);
      assert ([q[0]] + Post(q[1..], task, when))[1..] == Post(q[1..], task, when);
    }
  }

  /** Cancelling a task that builds no dialog leaves the pending dialogs alone. */
  lemma {:induction false} PendingAfterRemove(q: seq<Entry<Task>>, task: Task)
    requires !IsDialogTask(task)
    ensures PendingDialogs(RemoveMessages(q, task)) == PendingDialogs(q)
  {
    if q != [] {
      PendingAfterRemove(q[1..], task);
      if q[0].task != task {
        assert ([q[0]] + RemoveMessages(q[1..], task))[1..] == RemoveMessages(q[1..], task);
      }
    }
  }

  /** The entry at `i` and those after it hold no more pending dialogs than
      the whole queue. */
  lemma {:induction false} PendingFrom(q: seq<Entry<Task>>, i: nat)
    requires i < |q|
    ensures PendingDialogs(q) >= (if IsDialogTask(q[i].task) then 1 else 0) + PendingDialogs(q[i + 1..])
  {
    if i > 0 {
      PendingFrom(q[1..], i - 1);
      assert q[1..][i - 1] == q[i];
      assert q[1..][i..] == q[i + 1..];
    }
  }

  /** Posting a task keeps the queue part of the invariant unless it is
      error work posted without a motor. */
  lemma PostKeepsQueueInv(hasMotor: bool, queue: seq<Entry<Task>>, task: Task, when: nat)
    requires QueueInv(hasMotor, queue)
    requires !hasMotor ==> task != CameraErrorMsg && task != ErrorDialogTask
    ensures QueueInv(hasMotor, Post(queue, task, when))
  {
    PostSorted(queue, task, when);
    PostHasMessages(queue, task, when, CameraErrorMsg);
    PostHasMessages(queue, task, when, ErrorDialogTask);
  }

  /** The same for a whole state, for a task that builds no dialog. */
  lemma PostKeepsInv(s: State, task: Task, when: nat)
    requires Inv(s)
    requires !IsDialogTask(task)
    requires !s.hasMotor ==> task != CameraErrorMsg
    ensures Inv(s.(queue := Post(s.queue, task, when)))
  {
    PostKeepsQueueInv(s.hasMotor, s.queue, task, when);
    PendingAfterPost(s.queue, task, when);
  }

  /** Marking a dialog as showing and posting its builder keeps the invariant
      when no dialog was showing. */
  lemma ShowKeepsInv(s: State, task: Task, when: nat)
    requires Inv(s) && !s.dialogShowing
    requires IsDialogTask(task)
    requires !s.hasMotor ==> task != ErrorDialogTask
    ensures Inv(s.(dialogShowing := true, queue := Post(s.queue, task, when)))
  {
    PostKeepsQueueInv(s.hasMotor, s.queue, task, when);
    PendingAfterPost(s.queue, task, when);
  }

  /** Posting a motor request (the runnable or a re-poll) keeps the invariant. */
  lemma MotorRequestKeepsInv(s: State, target: Direction, now: nat)
    requires Inv(s)
    ensures Inv(UpdateMotor(s, target, now))
    ensures Inv(PollBusy(s, target, now))
  {
    var e := MotorRequest(s.motorBusy, target, now);
    PostKeepsQueueInv(s.hasMotor, s.queue, e.task, e.when);
    PendingAfterPost(s.queue, e.task, e.when);
  }

  /** Posting a camera message, after possibly cancelling the opposite one,
      keeps the queue part of the invariant and the pending dialogs. */
  lemma DebounceKeepsInv(hasMotor: bool, queue: seq<Entry<Task>>, cancel: bool, what: Task, opposite: Task, when: nat)
    requires QueueInv(hasMotor, queue)
    requires what != CameraErrorMsg && !IsDialogTask(what) && !IsDialogTask(opposite)
    ensures var q := if cancel then RemoveMessages(queue, opposite) else queue;
      && QueueInv(hasMotor, Post(q, what, when))
      && PendingDialogs(Post(q, what, when)) == PendingDialogs(queue)
  {
    var q := if cancel then RemoveMessages(queue, opposite) else queue;
    RemoveSorted(queue, opposite);
    RemoveHasMessages(queue, opposite, CameraErrorMsg);
    RemoveHasMessages(queue, opposite, ErrorDialogTask);
    PendingAfterRemove(queue, opposite);
    PostKeepsQueueInv(hasMotor, q, what, when);
    PendingAfterPost(q, what, when);
  }

  /** checkFrequentOperate keeps the invariant. */
  lemma CheckFrequentKeepsInv(s: State, now: nat)
    requires Inv(s)
    ensures Inv(CheckFrequentOperate(s, now))
  {
    var s1 := s.(popupRecords := Add(s.popupRecords, s.capacity, now));
    assert Inv(s1);
    if !s1.dialogShowing {
      ShowKeepsInv(s1, FrequentDialogTask, now);
    }
  }

  /** Issuing a command keeps the invariant. */
  lemma IssueCommandKeepsInv(s: State, command: Effect, listener: Effect, now: nat)
    requires Inv(s)
    ensures Inv(IssueCommand(s, command, listener, now))
  {
    PostKeepsInv(s, LedOffTask, now + LedOnDuration);
    var lit := LightUp(s, now);
    CheckFrequentKeepsInv(lit.(effects := lit.effects + [command] + [listener]), now);
  }

  /** The motor runnable keeps the invariant. */
  lemma RunMotorKeepsInv(s: State, target: Direction, status: int, now: nat)
    requires Inv(s)
    ensures Inv(RunMotor(s, target, status, now))
  {
    if !s.hasMotor {
    } else if s.motorCalibrating {
      var s1 := s.(motorBusy := false, effects := s.effects + [GoHome]);
      if !s1.dialogShowing {
        ShowKeepsInv(s1, CalibrationDialogTask(NoStatus), now);
      }
    } else if target == Open && ReadyToPopup(status) {
      var s1 := s.(motorBusy := true, takebackFailedRecord := 0);
      var s2 := if !s.proximityNear then IssueCommand(s1, Popup, RegisterFreeFall, now)
                else s1.(shouldTryUpdateMotor := true);
      if !s.proximityNear {
        IssueCommandKeepsInv(s1, Popup, RegisterFreeFall, now);
        IssueCommandShape(s1, Popup, RegisterFreeFall, now);
      }
      PostKeepsInv(s2, ReleaseBusyTask, now + BusySettleDelay);
    } else if target == Close && ReadyToTakeback(status) {
      var s1 := s.(motorBusy := true, popupFailedRecord := 0);
      IssueCommandKeepsInv(s1, Takeback, UnregisterFreeFall, now);
      IssueCommandShape(s1, Takeback, UnregisterFreeFall, now);
      var s2 := IssueCommand(s1, Takeback, UnregisterFreeFall, now);
      PostKeepsInv(s2, ReleaseBusyTask, now + BusySettleDelay);
    } else {
      var s1 := s.(motorBusy := false);
      if IsErrorStatus(status) {
        PostKeepsInv(s1, CameraErrorMsg, now);
      }
    }
  }

  /** The invariant as it stands once `task` has been taken off the queue and
      before it runs: `task` still counts as a pending dialog builder, and no
      error work runs without a motor. */
  predicate InvWithout(s: State, task: Task) {
    && CoreInv(s)
    && (!s.hasMotor ==> task != CameraErrorMsg && task != ErrorDialogTask)
    && PendingDialogs(s.queue) + Shown(s.screen) + (if IsDialogTask(task) then 1 else 0)
       == if s.dialogShowing then 1 else 0
  }

  /** Running a task that builds no dialog keeps the invariant. */
  lemma RunWorkKeepsInv(s: State, task: Task, status: int, now: nat)
    requires Inv(s) && !IsDialogTask(task)
    requires !s.hasMotor ==> task != CameraErrorMsg
    ensures Inv(RunTask(s, task, status, now))
  {
    match task
    case CameraClosedMsg => MotorRequestKeepsInv(s, Close, now);
    case CameraOpenMsg => MotorRequestKeepsInv(s, Open, now);
    case CameraErrorMsg =>
      if !s.dialogShowing {
        ShowKeepsInv(s.(effects := s.effects + [GoHome]), ErrorDialogTask, now);
      }
    case RunMotorTask(target) => RunMotorKeepsInv(s, target, status, now);
    case PollBusyTask(target) => MotorRequestKeepsInv(s, target, now);
    case ReleaseBusyTask =>
    case LedOffTask =>
  }

  /** Running a dialog builder puts its dialog on screen, which keeps the
      invariant. */
  lemma RunBuilderKeepsInv(s: State, task: Task, status: int, now: nat)
    requires InvWithout(s, task) && IsDialogTask(task)
    ensures Inv(RunTask(s, task, status, now))
  {
    match task
    case FrequentDialogTask =>
    case CalibrationDialogTask(_) =>
    case ErrorDialogTask =>
      ErrorDialogFrame(s, status);
      ErrorCountersBounded(s, status);
      ErrorEscalation(s, status);
  }

  /** A looper turn keeps the invariant. */
  lemma RunNextKeepsInv(s: State, status: int, now: nat)
    requires Inv(s)
    ensures Inv(RunNext(s, status, now))
  {
    if s.queue != [] && s.queue[0].when <= now {
      var task := s.queue[0].task;
      var p := s.(queue := s.queue[1..]);
      assert s.queue[0] in s.queue;
      forall u ensures HasMessages(p.queue, u) ==> HasMessages(s.queue, u) {
        if HasMessages(p.queue, u) {
          var e :| e in p.queue && e.task == u;
          assert e in s.queue;
        }
      }
      assert InvWithout(p, task);
      if IsDialogTask(task) {
        RunBuilderKeepsInv(p, task, status, now);
      } else {
        RunWorkKeepsInv(p, task, status, now);
      }
    }
  }

  /** A status notification from the motor keeps the invariant. */
  lemma NotifyKeepsInv(s: State, status: int, now: nat)
    requires Inv(s) && s.hasMotor
    ensures Inv(OnNotify(s, status, now))
  {
    if status == CalibOk || status == CalibError {
      var s1 := s.(motorCalibrating := false);
      if !s1.dialogShowing {
        ShowKeepsInv(s1, CalibrationDialogTask(status), now);
      }
    } else if status == Pressed {
      MotorRequestKeepsInv(s, Close, now);
    } else if status == PopupJammed || status == TakebackJammed {
      PostKeepsInv(s, CameraErrorMsg, now);
    }
  }

  /** A front-camera "available" event keeps the invariant. */
  lemma CameraAvailableKeepsInv(s: State, cameraId: string, now: nat)
    requires Inv(s) && cameraId == FrontCameraId
    ensures Inv(OnCameraAvailable(s, cameraId, now))
  {
    CameraAvailableUnfold(s, cameraId, now);
    DebounceKeepsInv(s.hasMotor, s.queue, now - s.openEvent < CameraEventDelay && HasMessages(s.queue, CameraOpenMsg),
                     CameraClosedMsg, CameraOpenMsg, now + CameraEventDelay);
  }

  /** A front-camera "unavailable" event keeps the invariant. */
  lemma CameraUnavailableKeepsInv(s: State, cameraId: string, now: nat)
    requires Inv(s) && cameraId == FrontCameraId
    ensures Inv(OnCameraUnavailable(s, cameraId, now))
  {
    CameraUnavailableUnfold(s, cameraId, now);
    DebounceKeepsInv(s.hasMotor, s.queue, now - s.closedEvent < CameraEventDelay && HasMessages(s.queue, CameraClosedMsg),
                     CameraOpenMsg, CameraClosedMsg, now + CameraEventDelay);
  }

  /** Proximity and free-fall readings keep the invariant. */
  lemma SensorEventKeepsInv(s: State, flag: bool, now: nat)
    requires Inv(s)
    ensures Inv(OnProximityEvent(s, flag, now))
    ensures Inv(OnProximityInit(s, flag))
    ensures Inv(OnFreeFall(s, flag, now))
  {
    MotorRequestKeepsInv(s.(proximityNear := flag, shouldTryUpdateMotor := false), Open, now);
    MotorRequestKeepsInv(s, Close, now);
  }

  /** Dismissing the dialog on screen, directly or through its "calibrate
      now" button, keeps the invariant. */
  lemma DismissKeepsInv(s: State)
    requires Inv(s) && s.screen.OnScreen?
    ensures Inv(DismissDialog(s))
    ensures Inv(ChooseCalibrate(s))
  {
  }

  /** Every event keeps the invariant: the failure counters stay at most
      MaxTries, the record list within capacity, the queue in due-time order,
      without a motor no error work is ever pending, and mDialogShowing is up
      exactly while the one dialog builder is pending or its dialog is on
      screen. */
  lemma StepKeepsInv(s: State, ev: Event, now: nat)
    requires Inv(s)
    ensures Inv(Step(s, ev, now))
  {
    match ev
    case CameraAvailable(id) =>
      if id == FrontCameraId {
        CameraAvailableKeepsInv(s, id, now);
      }
    case CameraUnavailable(id) =>
      if id == FrontCameraId {
        CameraUnavailableKeepsInv(s, id, now);
      }
    case ProximityChanged(isNear) => SensorEventKeepsInv(s, isNear, now);
    case ProximityInit(isNear) => SensorEventKeepsInv(s, isNear, now);
    case FreeFallSensed(freeFall) => SensorEventKeepsInv(s, freeFall, now);
    case MotorNotified(status) =>
      if s.hasMotor {
        NotifyKeepsInv(s, status, now);
      }
    case CalibrateChosen =>
      if OffersCalibration(s.screen) {
        DismissKeepsInv(s);
      }
    case DialogDismissed =>
      if s.screen.OnScreen? {
        DismissKeepsInv(s);
      }
    case LoopTurn(status) => RunNextKeepsInv(s, status, now);
  }

  /** Every run of events keeps the invariant. */
  lemma {:induction false} RunKeepsInv(s: State, evs: seq<(Event, nat)>)
    requires Inv(s)
    ensures Inv(Run(s, evs))
    decreases |evs|
  {
    if evs != [] {
      StepKeepsInv(s, evs[0].0, evs[0].1);
      RunKeepsInv(Step(s, evs[0].0, evs[0].1), evs[1..]);
    }
  }

  // ---------------------------------------------------------------- one dialog at a time

  /** With no dialog marked as showing, none is on screen and no dialog
      builder is pending; with one on screen, no builder is pending; and no
      two builders are ever pending together. */
  lemma DialogsExclusive(s: State)
    requires Inv(s)
    ensures !s.dialogShowing ==>
      && s.screen == NoDialog
      && forall i :: 0 <= i < |s.queue| ==> !IsDialogTask(s.queue[i].task)
    ensures s.screen.OnScreen? ==> forall i :: 0 <= i < |s.queue| ==> !IsDialogTask(s.queue[i].task)
    ensures forall i, j :: 0 <= i < j < |s.queue| && IsDialogTask(s.queue[i].task) ==> !IsDialogTask(s.queue[j].task)
  {
    var q := s.queue;
    forall i | 0 <= i < |q|
      ensures IsDialogTask(q[i].task) ==> PendingDialogs(q) >= 1
    {
      PendingFrom(q, i);
    }
    forall i, j | 0 <= i < j < |q| && IsDialogTask(q[i].task)
      ensures !IsDialogTask(q[j].task)
    {
      PendingFrom(q, i);
      PendingFrom(q[i + 1..], j - i - 1);
      assert q[i + 1..][j - i - 1] == q[j];
    }
  }

  /** A dialog builder that runs finds the screen clear and mDialogShowing
      up, and leaves its dialog on screen. */
  lemma BuilderShowsOnlyDialog(s: State, status: int, now: nat)
    requires Inv(s) && s.queue != [] && s.queue[0].when <= now && IsDialogTask(s.queue[0].task)
    ensures s.dialogShowing && s.screen == NoDialog
    ensures var t := RunNext(s, status, now);
      t.dialogShowing && t.screen.OnScreen?
  {
    PendingFrom(s.queue, 0);
    var p := s.(queue := s.queue[1..]);
    match s.queue[0].task
    case FrequentDialogTask =>
    case CalibrationDialogTask(_) =>
    case ErrorDialogTask => ErrorEscalation(p, status);
  }
}
