/** PopupCameraService as a class: one field per field of the service, one
    method per handler, each proved to move the fields exactly as the
    transition function of the same name in module PopupCamera does. The
    public entry points (the callbacks and the looper turn) also keep the
    invariant PopupCamera.Inv. */
module Service {
  import opened Motor
  import opened MessageQueue
  import opened RecordList
  import opened PopupCamera
  import Properties

  class PopupCameraService {
    /** Whether IMotor.getService found a motor. */
    const hasMotor: bool
    /** FREQUENT_TRIGGER_COUNT, the capacity of the record list. */
    const frequentTriggerCount: nat

    var motorBusy: bool
    var motorCalibrating: bool
    var popupFailedRecord: nat
    var takebackFailedRecord: nat
    var dialogShowing: bool
    /** The dialog the window manager shows; not a field of the service, but
        what decides which buttons the user can press. */
    var screen: Screen
    var proximityNear: bool
    var shouldTryUpdateMotor: bool
    var cameraState: CameraState
    var openEvent: nat
    var closedEvent: nat
    /** mPopupRecordList. */
    var popupRecords: seq<nat>
    /** The pending entries of mHandler, in due-time order. */
    var queue: seq<Entry<Task>>
    /** Everything the service did to the world so far. */
    var effects: seq<Effect>

    /** The fields as one value of the specification's state. */
    ghost function Snap(): State
      reads this
    {
      State(hasMotor, frequentTriggerCount, motorBusy, motorCalibrating, popupFailedRecord,
            takebackFailedRecord, dialogShowing, screen, proximityNear, shouldTryUpdateMotor, cameraState,
            openEvent, closedEvent, popupRecords, queue, effects)
    }

    ghost predicate Valid()
      reads this
    {
      Inv(Snap())
    }

    /** onCreate, given what getMotorStatus reports at start-up. */
    constructor (hasMotor: bool, status: int, now: nat, frequentTriggerCount: nat := DefaultFrequentTriggerCount)
      ensures Snap() == Boot(hasMotor, frequentTriggerCount, status, now)
      ensures 1 <= frequentTriggerCount ==> Valid()
    {
      this.hasMotor := hasMotor;
      this.frequentTriggerCount := frequentTriggerCount;
      motorBusy := false;
      motorCalibrating := false;
      popupFailedRecord := 0;
      takebackFailedRecord := 0;
      dialogShowing := false;
      screen := NoDialog;
      proximityNear := false;
      shouldTryUpdateMotor := false;
      cameraState := Unset;
      openEvent := 0;
      closedEvent := 0;
      popupRecords := [];
      effects := [];
      new;
      if hasMotor && ClosesOnBoot(status) {
        queue := [Entry(CameraClosedMsg, now)];
      } else {
        queue := [];
      }
      Properties.BootClosesOutCamera(hasMotor, frequentTriggerCount, status, now);
    }

    // ------------------------------------------------------------ callbacks

    /** availabilityCallback.onCameraAvailable. */
    method OnCameraAvailable(cameraId: string, now: nat)
      requires Valid()
      modifies this
      ensures Snap() == PopupCamera.OnCameraAvailable(old(Snap()), cameraId, now)
      ensures Valid()
    {
      ghost var s0 := Snap();
      if cameraId == FrontCameraId {
        var q := queue;
        if now - openEvent < CameraEventDelay && HasMessages(queue, CameraOpenMsg) {
          q := RemoveMessages(queue, CameraOpenMsg);
        }
        closedEvent := now;
        queue := Post(q, CameraClosedMsg, now + CameraEventDelay);
        assert Snap() == s0.(closedEvent := now, queue := Post(q, CameraClosedMsg, now + CameraEventDelay));
        Properties.CameraAvailableUnfold(s0, cameraId, now);
        Properties.CameraAvailableKeepsInv(s0, cameraId, now);
      } else {
        assert PopupCamera.OnCameraAvailable(s0, cameraId, now) == s0;
      }
    }

    /** availabilityCallback.onCameraUnavailable. */
    method OnCameraUnavailable(cameraId: string, now: nat)
      requires Valid()
      modifies this
      ensures Snap() == PopupCamera.OnCameraUnavailable(old(Snap()), cameraId, now)
      ensures Valid()
    {
      ghost var s0 := Snap();
      if cameraId == FrontCameraId {
        var q := queue;
        if now - closedEvent < CameraEventDelay && HasMessages(queue, CameraClosedMsg) {
          q := RemoveMessages(queue, CameraClosedMsg);
        }
        openEvent := now;
        queue := Post(q, CameraOpenMsg, now + CameraEventDelay);
        assert Snap() == s0.(openEvent := now, queue := Post(q, CameraOpenMsg, now + CameraEventDelay));
        Properties.CameraUnavailableUnfold(s0, cameraId, now);
        Properties.CameraUnavailableKeepsInv(s0, cameraId, now);
      } else {
        assert PopupCamera.OnCameraUnavailable(s0, cameraId, now) == s0;
      }
    }

    /** mProximityListener.onEvent. */
    method OnProximityEvent(isNear: bool, now: nat)
      requires Valid()
      modifies this
      ensures Snap() == PopupCamera.OnProximityEvent(old(Snap()), isNear, now)
      ensures Valid()
    {
      ghost var s0 := Snap();
      proximityNear := isNear;
      if !proximityNear && shouldTryUpdateMotor {
        shouldTryUpdateMotor := false;
        UpdateMotor(Open, now);
      }
      Properties.SensorEventKeepsInv(s0, isNear, now);
    }

    /** mProximityListener.onInit. */
    method OnProximityInit(isNear: bool)
      requires Valid()
      modifies this
      ensures Snap() == PopupCamera.OnProximityInit(old(Snap()), isNear)
      ensures Valid()
    {
      proximityNear := isNear;
    }

    /** mFreeFallListener.onSensorChanged, reduced to whether the reading is a free fall. */
    method OnFreeFall(freeFall: bool, now: nat)
      requires Valid()
      modifies this
      ensures Snap() == PopupCamera.OnFreeFall(old(Snap()), freeFall, now)
      ensures Valid()
    {
      ghost var s0 := Snap();
      if freeFall {
        ForceTakeback(now);
        effects := effects + [GoHome];
      }
      Properties.SensorEventKeepsInv(s0, freeFall, now);
    }

    /** MotorStatusCallback.onNotify. The callback is registered on the motor,
        so it is only ever called when there is one. */
    method OnNotify(status: int, now: nat)
      requires Valid() && hasMotor
      modifies this
      ensures Snap() == PopupCamera.OnNotify(old(Snap()), status, now)
      ensures Valid()
    {
      ghost var s0 := Snap();
      if status == CalibOk || status == CalibError {
        motorCalibrating := false;
        ShowCalibrationResult(status, now);
        assert Snap() == PopupCamera.ShowCalibrationResult(s0.(motorCalibrating := false), status, now);
      } else if status == Pressed {
        ForceTakeback(now);
        ghost var s1 := Snap();
        effects := effects + [GoHome];
        assert Snap() == s1.(effects := s1.effects + [GoHome]);
      } else if status == PopupJammed || status == TakebackJammed {
        queue := Post(queue, CameraErrorMsg, now);
      }
      Properties.NotifyKeepsInv(s0, status, now);
    }

    /** calibrateMotor. */
    method CalibrateMotor()
      requires Valid()
      modifies this
      ensures Snap() == PopupCamera.CalibrateMotor(old(Snap()))
      ensures Valid()
    {
      if motorCalibrating || !hasMotor {
        return;
      }
      motorCalibrating := true;
      effects := effects + [Calibration];
    }

    /** The dismiss listener of the dialog on screen. */
    method DismissDialog()
      requires Valid() && screen.OnScreen?
      modifies this
      ensures Snap() == PopupCamera.DismissDialog(old(Snap()))
      ensures Valid()
    {
      Properties.DismissKeepsInv(Snap());
      dialogShowing := false;
      screen := NoDialog;
    }

    /** The "calibrate now" button of the error dialog that offers it:
        calibrateMotor, then the dialog is dismissed. */
    method ChooseCalibrate()
      requires Valid() && OffersCalibration(screen)
      modifies this
      ensures Snap() == PopupCamera.ChooseCalibrate(old(Snap()))
      ensures Valid()
    {
      CalibrateMotor();
      DismissDialog();
    }

    /** One turn of the looper: run the head of the queue if it is due.
        `status` is what getMotorStatus reports if the task asks. */
    method RunNext(status: int, now: nat) returns (ran: bool)
      requires Valid()
      modifies this
      ensures ran <==> old(queue) != [] && old(queue)[0].when <= now
      ensures Snap() == PopupCamera.RunNext(old(Snap()), status, now)
      ensures Valid()
    {
      ghost var s0 := Snap();
      if queue == [] || now < queue[0].when {
        return false;
      }
      var head := queue[0];
      queue := queue[1..];
      RunTask(head.task, status, now);
      Properties.RunNextKeepsInv(s0, status, now);
      return true;
    }

    // ------------------------------------------------------------ looper work

    /** What the looper does with a task. */
    method RunTask(task: Task, status: int, now: nat)
      modifies this
      ensures Snap() == PopupCamera.RunTask(old(Snap()), task, status, now)
    {
      match task
      case CameraClosedMsg => HandleMessage(task, now);
      case CameraOpenMsg => HandleMessage(task, now);
      case CameraErrorMsg => HandleMessage(task, now);
      case RunMotorTask(target) => RunMotor(target, status, now);
      case PollBusyTask(target) => PollBusy(target, now);
      case ReleaseBusyTask => motorBusy := false;
      case LedOffTask => effects := effects + [LedOff];
      case FrequentDialogTask => Display(Dialogs.FrequentOperate);
      case CalibrationDialogTask(st) => BuildCalibrationDialog(st);
      case ErrorDialogTask => BuildErrorDialog(status);
    }

    /** handleMessage. */
    method HandleMessage(what: Task, now: nat)
      modifies this
      ensures Snap() == PopupCamera.HandleMessage(old(Snap()), what, now)
    {
      match what
      case CameraClosedMsg => UpdateMotor(Close, now);
      case CameraOpenMsg => UpdateMotor(Open, now);
      case CameraErrorMsg => HandleError(now);
      case _ =>
    }

    /** updateMotor: remember the direction, then post the runnable, or the
        re-poll when the motor is busy. */
    method UpdateMotor(target: Direction, now: nat)
      modifies this
      ensures Snap() == PopupCamera.UpdateMotor(old(Snap()), target, now)
    {
      cameraState := Requested(target);
      if motorBusy {
        queue := Post(queue, PollBusyTask(target), now + BusyPollDelay);
      } else {
        queue := Post(queue, RunMotorTask(target), now);
      }
    }

    /** The busy re-poll of updateMotor. */
    method PollBusy(target: Direction, now: nat)
      modifies this
      ensures Snap() == PopupCamera.PollBusy(old(Snap()), target, now)
    {
      if motorBusy {
        queue := Post(queue, PollBusyTask(target), now + BusyPollDelay);
      } else {
        queue := Post(queue, RunMotorTask(target), now);
      }
    }

    /** forceTakeback. */
    method ForceTakeback(now: nat)
      modifies this
      ensures Snap() == PopupCamera.ForceTakeback(old(Snap()), now)
    {
      UpdateMotor(Close, now);
    }

    /** The runnable `r` of updateMotor. */
    method RunMotor(target: Direction, status: int, now: nat)
      modifies this
      ensures Snap() == PopupCamera.RunMotor(old(Snap()), target, status, now)
    {
      if !hasMotor {
        return;
      }
      if motorCalibrating {
        RefuseWhileCalibrating(now);
      } else if target == Open && ReadyToPopup(status) {
        ServeOpen(now);
      } else if target == Close && ReadyToTakeback(status) {
        ServeClose(now);
      } else {
        RejectRequest(status, now);
      }
    }

    /** The calibrating branch of `r`. */
    method RefuseWhileCalibrating(now: nat)
      modifies this
      ensures Snap() == PopupCamera.RefuseWhileCalibrating(old(Snap()), now)
    {
      motorBusy := false;
      effects := effects + [GoHome];
      ShowCalibrationResult(NoStatus, now);
    }

    /** The open branch of `r`. */
    method ServeOpen(now: nat)
      modifies this
      ensures Snap() == PopupCamera.ServeOpen(old(Snap()), now)
    {
      ghost var s0 := Snap();
      motorBusy := true;
      takebackFailedRecord := 0;
      assert Snap() == s0.(motorBusy := true, takebackFailedRecord := 0);
      if !proximityNear {
        IssueCommand(Popup, RegisterFreeFall, now);
      } else {
        shouldTryUpdateMotor := true;
      }
      ghost var s2 := Snap();
      queue := Post(queue, ReleaseBusyTask, now + BusySettleDelay);
      assert Snap() == s2.(queue := Post(s2.queue, ReleaseBusyTask, now + BusySettleDelay));
    }

    /** The close branch of `r`. */
    method ServeClose(now: nat)
      modifies this
      ensures Snap() == PopupCamera.ServeClose(old(Snap()), now)
    {
      ghost var s0 := Snap();
      motorBusy := true;
      popupFailedRecord := 0;
      assert Snap() == s0.(motorBusy := true, popupFailedRecord := 0);
      IssueCommand(Takeback, UnregisterFreeFall, now);
      ghost var s2 := Snap();
      queue := Post(queue, ReleaseBusyTask, now + BusySettleDelay);
      assert Snap() == s2.(queue := Post(s2.queue, ReleaseBusyTask, now + BusySettleDelay));
    }

    /** LEDs, the motor command, the free-fall listener change and the frequency record. */
    method IssueCommand(command: Effect, listener: Effect, now: nat)
      modifies this
      ensures Snap() == PopupCamera.IssueCommand(old(Snap()), command, listener, now)
    {
      LightUp(now);
      effects := effects + [command];
      effects := effects + [listener];
      CheckFrequentOperate(now);
    }

    /** The last branch of `r`. */
    method RejectRequest(status: int, now: nat)
      modifies this
      ensures Snap() == PopupCamera.RejectRequest(old(Snap()), status, now)
    {
      motorBusy := false;
      if IsErrorStatus(status) {
        queue := Post(queue, CameraErrorMsg, now);
      }
    }

    /** lightUp. */
    method LightUp(now: nat)
      modifies this
      ensures Snap() == PopupCamera.LightUp(old(Snap()), now)
    {
      effects := effects + [LedOn];
      queue := Post(queue, LedOffTask, now + LedOnDuration);
    }

    /** checkFrequentOperate. */
    method CheckFrequentOperate(now: nat)
      modifies this
      ensures Snap() == PopupCamera.CheckFrequentOperate(old(Snap()), now)
    {
      popupRecords := Add(popupRecords, frequentTriggerCount, now);
      if TooFrequent(popupRecords, frequentTriggerCount) {
        ShowFrequentOperateDialog(now);
      }
    }

    /** showFrequentOperateDialog, up to the posted builder. */
    method ShowFrequentOperateDialog(now: nat)
      modifies this
      ensures Snap() == PopupCamera.ShowFrequentOperateDialog(old(Snap()), now)
    {
      if dialogShowing {
        return;
      }
      dialogShowing := true;
      queue := Post(queue, FrequentDialogTask, now);
    }

    /** showCalibrationResult, up to the posted builder. */
    method ShowCalibrationResult(status: int, now: nat)
      modifies this
      ensures Snap() == PopupCamera.ShowCalibrationResult(old(Snap()), status, now)
    {
      if dialogShowing {
        return;
      }
      dialogShowing := true;
      queue := Post(queue, CalibrationDialogTask(status), now);
    }

    /** The builder posted by showCalibrationResult. */
    method BuildCalibrationDialog(status: int)
      modifies this
      ensures Snap() == PopupCamera.BuildCalibrationDialog(old(Snap()), status)
    {
      var message := Dialogs.CalibrationMessageFor(motorCalibrating, status);
      Display(Dialogs.CalibrationResult(message));
    }

    /** A dialog builder shows its dialog. */
    method Display(d: Dialogs.Dialog)
      modifies this
      ensures Snap() == PopupCamera.Display(old(Snap()), d)
    {
      effects := effects + [ShowDialog(d)];
      screen := OnScreen(d);
    }

    /** handleError, up to the posted runnable. */
    method HandleError(now: nat)
      modifies this
      ensures Snap() == PopupCamera.HandleError(old(Snap()), now)
    {
      if dialogShowing {
        return;
      }
      dialogShowing := true;
      effects := effects + [GoHome];
      queue := Post(queue, ErrorDialogTask, now);
    }

    /** The runnable posted by handleError. */
    method BuildErrorDialog(status: int)
      modifies this
      ensures Snap() == PopupCamera.BuildErrorDialog(old(Snap()), status)
    {
      var needsCalib := false;
      if status == RequestCalib || status == CalibError {
        needsCalib := true;
      } else if status == PopupJammed {
        if popupFailedRecord >= MaxTries {
          needsCalib := true;
        } else {
          popupFailedRecord := popupFailedRecord + 1;
        }
      } else if status == TakebackJammed {
        if takebackFailedRecord >= MaxTries {
          needsCalib := true;
        } else {
          takebackFailedRecord := takebackFailedRecord + 1;
          effects := effects + [Takeback];
        }
      }
      Display(ErrorDialog(needsCalib, cameraState));
    }
  }
}
