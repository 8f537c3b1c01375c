# Popup-camera controller

A model of `PopupCameraService`, the service that drives the motorised
pop-up front camera. It opens the camera when an app opens it and retracts
it when it closes, with a short debounce window. It defers a popup while the
proximity sensor reports something near and retries it once the sensor
reports far. It counts jams and escalates to a calibration offer. It warns
when the camera is actuated too often. It retracts the camera on a free-fall
reading or when the camera is pressed. In the model, at most one of its
dialogs is pending or on screen at a time.

The model has seven modules:

- `Motor`: the status codes of the motor HAL, the two directions and `mCameraState`.
- `Dialogs`: the dialogs and how their messages are chosen.
- `MessageQueue`: the service's `Handler` as a queue of `(task, due time)`
  entries in due-time order.
  - `Post` is `sendMessageDelayed`/`postDelayed`; it goes after entries due at the same time.
  - `RemoveMessages` and `HasMessages` are the `Handler` methods of the same names.
- `RecordList`: `LimitSizeList`, the bounded list of actuation times.
- `PopupCamera`: the service's fields as one `State` record, with one
  transition function per handler. These functions are the specification.
  - Time is a `now` parameter in milliseconds.
  - What `getMotorStatus` reports is a `status` parameter.
  - Whatever the service does to the outside world is appended to an effect log: LEDs, motor commands, free-fall listener changes, go-home, dialogs.
  - The runnables and dialog builders it posts are queue tasks, run by `RunNext`, one looper turn.
  - The dialog on screen, if any, is tracked as `screen`. It decides which buttons the user can press: any dialog can be dismissed, and only the error dialog that offers calibration has "calibrate now".
  - `Step` is the reaction to any one event, and `Run` to a sequence of timed events.
- `Properties`: lemmas stating what the handlers guarantee, with the
  invariant `Inv` that every event keeps.
  - The failure counters stay at most 3.
  - The record list stays within its capacity.
  - The queue stays in due-time order.
  - Without a motor no error work is ever pending.
  - `mDialogShowing` is set exactly while one dialog builder is pending or its dialog is on screen, and there is never more than one of them.
- `Service`: the class `PopupCameraService`, with one mutable field per
  field of the service and one method per handler that updates those fields
  in place.
  - Each method is proved to leave the fields exactly as the transition function of the same name does (`Snap()` is the fields as a `State`).
  - The callbacks and the looper turn also keep `Valid()`, the invariant.

Points where the code may surprise a reader:

- Calibration is offered on the fourth consecutive jam of one direction, not
  the third. The counter must already hold 3 when the jam is handled
  (`PopupCameraService.java:410`, `:416`).
- `mCameraState` is set when `updateMotor` is called, not when a command is
  issued. The error dialog therefore names the last requested direction.
- The debounce always posts its own message, even after it cancelled the
  opposite one.
- A request refused while calibrating asks for the result dialog with status
  -1 (`:317-321`). If the motor reports CalibOk before that dialog is built,
  the dialog reads "failed" (`:373-375`), and the notification's own dialog is
  suppressed because one is already marked showing (`SuccessShownAsFailed`).
- Nothing guarantees that only one motor command is in flight. A busy poller
  only re-polls instead of posting the runnable, and several pollers can each
  post it once the motor is free.

## Model

| member | source | states |
|---|---|---|
| Properties.BootClosesOutCamera | camera_motor/src/co/aospa/popupcamera/PopupCameraService.java:161-170 | the start state satisfies the invariant when the capacity is at least 1; for any capacity its queue holds one immediate close message exactly when a motor is present and reports 11, 12 or 14, and nothing otherwise |
| Properties.DebounceQueue | camera_motor/src/co/aospa/popupcamera/PopupCameraService.java:102-108 | outside the window the queue gains exactly the new message; inside it, the new queue is, as a multiset, the old queue with every opposite message removed plus the new one, so no opposite message remains |
| Properties.CameraAvailableDebounce | camera_motor/src/co/aospa/popupcamera/PopupCameraService.java:98-110 | other camera ids change nothing; for the front camera only the close time and the queue change, a close message is always posted 100 ms later, and pending open messages are dropped exactly when the event comes less than 100 ms after the last open event (the new queue is then the old one without them, plus the close message) |
| Properties.CameraUnavailableDebounce | camera_motor/src/co/aospa/popupcamera/PopupCameraService.java:113-125 | the same rule with open and close swapped |
| Properties.UpdateMotorPostsOneRequest | camera_motor/src/co/aospa/popupcamera/PopupCameraService.java:307-308 | updateMotor records the requested direction at once, changes nothing else but the queue, and posts exactly one entry: the runnable when the motor is free, a re-poll 100 ms later when it is busy |
| Properties.BusyPollerRepolls | camera_motor/src/co/aospa/popupcamera/PopupCameraService.java:350-363 | a re-poll changes only the queue and posts exactly one entry: itself again 100 ms later while the motor is busy, otherwise the runnable |
| Properties.LightUpShape | camera_motor/src/co/aospa/popupcamera/PopupCameraService.java:459-470 | lightUp logs the LEDs on and posts exactly one LED-off task 1000 ms later |
| Properties.IssueCommandShape | camera_motor/src/co/aospa/popupcamera/PopupCameraService.java:325-328 | a served command logs LED on, the command and the listener change in that order, and appends the actuation to the record list |
| Properties.OpenRequestWhenReady | camera_motor/src/co/aospa/popupcamera/PopupCameraService.java:322-331 | with status 13 or 17 and no calibration, an open request sets busy, resets the take-back counter, leaves the popup counter, and posts the 1200 ms busy release; far: exactly one popup with LED and free-fall registration and one record; near: no command, the deferral flag set, only the release posted |
| Properties.CloseRequestWhenReady | camera_motor/src/co/aospa/popupcamera/PopupCameraService.java:332-337 | with status 11 or 17 and no calibration, a close request sets busy, resets the popup counter and issues exactly one take-back with LED, free-fall unregistration and one record, whatever the proximity sensor says; the busy release is posted |
| Properties.OnlyMotorTasksTouchBusy | camera_motor/src/co/aospa/popupcamera/PopupCameraService.java:347 | no task other than the busy release or the runnable changes the busy flag |
| Properties.EventsLeaveBusyAlone | camera_motor/src/co/aospa/popupcamera/PopupCameraService.java:311-347 | no callback changes the busy flag; only tasks run by the looper do |
| Properties.NoCommandWhileCalibrating | camera_motor/src/co/aospa/popupcamera/PopupCameraService.java:312-321 | without a motor the runnable does nothing; while calibrating it issues no command, clears busy, goes home and posts the calibration dialog unless a dialog is showing |
| Properties.RejectedRequest | camera_motor/src/co/aospa/popupcamera/PopupCameraService.java:338-344 | a request the status does not allow issues no command, clears busy, and posts MSG_CAMERA_ERROR if and only if the status is 19, 12, 14 or 18 |
| Properties.DeferredOpenReplayedOnce | camera_motor/src/co/aospa/popupcamera/PopupCameraService.java:188-196 | an open deferred because something is near issues nothing; the next far event clears the flag and posts exactly one open request |
| Properties.ErrorDialogFrame | camera_motor/src/co/aospa/popupcamera/PopupCameraService.java:399-455 | the error runnable changes nothing but the two counters, the effect log and the dialog on screen |
| Properties.ErrorCounting | camera_motor/src/co/aospa/popupcamera/PopupCameraService.java:409-419 | a popup jam adds one to the popup counter unless it holds 3 already, a take-back jam likewise to its own counter, and the other counter is unchanged |
| Properties.ErrorEscalation | camera_motor/src/co/aospa/popupcamera/PopupCameraService.java:406-455 | calibration is needed for 19 and 18, and for a jam whose counter already holds 3; a take-back jam that is only counted re-issues one take-back; then the dialog chosen by that decision is shown and stays on screen |
| Properties.ErrorCountersBounded | camera_motor/src/co/aospa/popupcamera/PopupCameraService.java:410-419 | neither counter ever exceeds 3 |
| Properties.ErrorDialogOffersCalibration | camera_motor/src/co/aospa/popupcamera/PopupCameraService.java:427-444 | the error dialog offers calibration, and its message asks for it, exactly when calibration is needed; the message is about a take-back exactly when the last request was a close |
| Properties.PopupJamsEscalate | camera_motor/src/co/aospa/popupcamera/PopupCameraService.java:409-414 | from a zero counter, the first three popup jams are only counted and every later one asks for calibration |
| Properties.TakebackJamsEscalate | camera_motor/src/co/aospa/popupcamera/PopupCameraService.java:415-424 | from a zero counter, the first three take-back jams are counted and retried, and every later one asks for calibration without a retry |
| Properties.FrequentDialogGuard | camera_motor/src/co/aospa/popupcamera/PopupCameraService.java:210-215 | no effect while a dialog is showing; otherwise marks one showing and posts exactly its builder |
| Properties.CalibrationDialogGuard | camera_motor/src/co/aospa/popupcamera/PopupCameraService.java:366-371 | no effect while a dialog is showing; otherwise marks one showing and posts exactly its builder |
| Properties.ErrorDialogGuard | camera_motor/src/co/aospa/popupcamera/PopupCameraService.java:393-399 | no effect, not even go-home, while a dialog is showing; otherwise marks one showing, goes home and posts exactly its runnable |
| Properties.CalibrationDialogMessage | camera_motor/src/co/aospa/popupcamera/PopupCameraService.java:371-389 | the calibration dialog says "running" exactly while calibrating, and "success" exactly when not calibrating and the status is 17; it changes only the effect log and stays on screen |
| Properties.SuccessShownAsFailed | camera_motor/src/co/aospa/popupcamera/PopupCameraService.java:317-321 | a request refused while calibrating, then CalibOk before the pending result dialog is built, leaves the "failed" message on screen |
| Properties.ProximityReplay | camera_motor/src/co/aospa/popupcamera/PopupCameraService.java:188-200 | a far event with the deferral flag set clears it and makes exactly one open request, after which proximity events only record proximity; every other event, and onInit, only records proximity |
| Properties.CalibrateIdempotent | camera_motor/src/co/aospa/popupcamera/PopupCameraService.java:273-282 | calibrating again while a calibration runs changes nothing |
| Properties.RunMotorLeavesCalibrationAlone | camera_motor/src/co/aospa/popupcamera/PopupCameraService.java:311-348 | the motor runnable neither starts nor ends a calibration nor issues a calibration command |
| Properties.TasksLeaveCalibrationAlone | camera_motor/src/co/aospa/popupcamera/PopupCameraService.java:494-510 | no looper task starts or ends a calibration or issues a calibration command |
| Properties.CalibrationFrame | camera_motor/src/co/aospa/popupcamera/PopupCameraService.java:255-282 | on any event the calibrating flag is set if and only if "calibrate now" is chosen on a dialog offering it with a motor that is not calibrating, is cleared only by status 17 or 18, and exactly that event adds one calibration command |
| Properties.OneCalibrationUntilDone | camera_motor/src/co/aospa/popupcamera/PopupCameraService.java:260-282 | once a calibration runs, any run of events without status 17 or 18 leaves it running and issues no further calibration command |
| Properties.NotifyRouting | camera_motor/src/co/aospa/popupcamera/PopupCameraService.java:260-268 | 17 and 18 end calibration and go to the guarded result dialog; 15 requests one take-back and goes home; 12 and 14 post MSG_CAMERA_ERROR; every other status is ignored |
| Properties.FreeFallRetracts | camera_motor/src/co/aospa/popupcamera/PopupCameraService.java:474-478 | a free-fall reading requests one take-back and goes home; any other reading changes nothing |
| Properties.FrequentCheck | camera_motor/src/co/aospa/popupcamera/PopupCameraService.java:203-208 | every actuation is appended as the newest record; the frequent-operation dialog is marked showing and its builder posted exactly when the list is full, newest minus oldest is under 20000 ms and no dialog is showing |
| Properties.CapacityOneAlwaysWarns | camera_motor/src/co/aospa/popupcamera/PopupCameraService.java:203-206 | with a capacity of 1, every actuation while no dialog is showing marks one showing and posts the frequent-operation dialog |
| Properties.SpacedActuationsNeverFrequent | camera_motor/src/co/aospa/popupcamera/PopupCameraService.java:203-206 | with a capacity of at least 2, a record list fed any history of actuations at least 20000 ms apart never looks too frequent |
| Properties.RunNextRunsEarliest | camera_motor/src/co/aospa/popupcamera/PopupCameraService.java:494-510 | a looper turn runs the head of the queue, which is due no later than any other entry, once it is due; when it is not due, nothing is due and nothing changes |
| Properties.RunWorkKeepsInv | camera_motor/src/co/aospa/popupcamera/PopupCameraService.java:494-510 | running any task other than a dialog builder keeps the invariant |
| Properties.RunBuilderKeepsInv | camera_motor/src/co/aospa/popupcamera/PopupCameraService.java:215-231 | a dialog builder that runs while its dialog is counted as pending puts it on screen and keeps the invariant |
| Properties.RunMotorKeepsInv | camera_motor/src/co/aospa/popupcamera/PopupCameraService.java:311-348 | the motor runnable keeps the invariant |
| Properties.StepKeepsInv | camera_motor/src/co/aospa/popupcamera/PopupCameraService.java:98-510 | every event keeps the invariant: counters at most 3, records within capacity, queue in due-time order, no error work without a motor, and the dialog flag up exactly while one dialog is pending or on screen |
| Properties.DismissKeepsInv | camera_motor/src/co/aospa/popupcamera/PopupCameraService.java:226-231 | dismissing the dialog on screen, directly or by "calibrate now", keeps the invariant |
| Properties.RunKeepsInv | camera_motor/src/co/aospa/popupcamera/PopupCameraService.java:98-510 | every run of events keeps the invariant |
| Properties.DialogsExclusive | camera_motor/src/co/aospa/popupcamera/PopupCameraService.java:210-231 | with the dialog flag down nothing is pending or on screen; with a dialog on screen no builder is pending; and no two dialog builders are ever pending together |
| Properties.BuilderShowsOnlyDialog | camera_motor/src/co/aospa/popupcamera/PopupCameraService.java:215-231 | a dialog builder that runs finds the flag up and the screen clear, and leaves its dialog on screen |
| MessageQueue.PostContents | camera_motor/src/co/aospa/popupcamera/PopupCameraService.java:107-108 | posting adds exactly the one entry to the queue |
| MessageQueue.PostSorted | camera_motor/src/co/aospa/popupcamera/PopupCameraService.java:107-108 | posting keeps the queue in due-time order |
| MessageQueue.InsertionPointSplits | camera_motor/src/co/aospa/popupcamera/PopupCameraService.java:107-108 | every entry before the insertion point is due no later than the new entry, and the entry at it is due strictly later |
| MessageQueue.PostSplit | camera_motor/src/co/aospa/popupcamera/PopupCameraService.java:107-108 | the entry goes after every entry due no later and before the first entry due later |
| MessageQueue.RemoveContents | camera_motor/src/co/aospa/popupcamera/PopupCameraService.java:105 | removeMessages keeps exactly the entries for other tasks |
| MessageQueue.RemoveSorted | camera_motor/src/co/aospa/popupcamera/PopupCameraService.java:105 | removeMessages keeps the queue in due-time order |
| MessageQueue.RemoveCounts | camera_motor/src/co/aospa/popupcamera/PopupCameraService.java:105 | removeMessages keeps every entry for another task as often as it occurred, and none for the removed task |
| MessageQueue.RemoveAbsent | camera_motor/src/co/aospa/popupcamera/PopupCameraService.java:104-105 | removing a task that is not pending leaves the queue unchanged |
| RecordList.AddAllKeepsNewest | camera_motor/src/co/aospa/popupcamera/PopupCameraService.java:161-204 | however many actuations are recorded, the list holds exactly the newest FREQUENT_TRIGGER_COUNT of them, oldest first |
| Dialogs.ErrorMessageFor | camera_motor/src/co/aospa/popupcamera/PopupCameraService.java:427-432 | the message asks to calibrate exactly when calibration is needed, and is about a take-back exactly when the camera state is "closed" |
| Dialogs.CalibrationMessageFor | camera_motor/src/co/aospa/popupcamera/PopupCameraService.java:373-375 | "running" exactly while calibrating; "success" exactly when not calibrating and the status is 17 |
| Service.PopupCameraService.constructor | camera_motor/src/co/aospa/popupcamera/PopupCameraService.java:155-173 | the fields start as the start state, which satisfies the invariant |
| Service.PopupCameraService.OnCameraAvailable | camera_motor/src/co/aospa/popupcamera/PopupCameraService.java:98-110 | updates the fields in place as onCameraAvailable specifies and keeps the invariant |
| Service.PopupCameraService.OnCameraUnavailable | camera_motor/src/co/aospa/popupcamera/PopupCameraService.java:113-125 | updates the fields in place as onCameraUnavailable specifies and keeps the invariant |
| Service.PopupCameraService.OnProximityEvent | camera_motor/src/co/aospa/popupcamera/PopupCameraService.java:188-196 | records proximity and replays a deferred open in place, keeping the invariant |
| Service.PopupCameraService.OnProximityInit | camera_motor/src/co/aospa/popupcamera/PopupCameraService.java:197-200 | records proximity only |
| Service.PopupCameraService.OnFreeFall | camera_motor/src/co/aospa/popupcamera/PopupCameraService.java:474-478 | forces a take-back and goes home on a free-fall reading, keeping the invariant |
| Service.PopupCameraService.OnNotify | camera_motor/src/co/aospa/popupcamera/PopupCameraService.java:255-270 | routes a motor status in place as onNotify specifies, keeping the invariant |
| Service.PopupCameraService.CalibrateMotor | camera_motor/src/co/aospa/popupcamera/PopupCameraService.java:273-282 | starts a calibration unless one runs or there is no motor |
| Service.PopupCameraService.DismissDialog | camera_motor/src/co/aospa/popupcamera/PopupCameraService.java:226-231 | with a dialog on screen, clears the dialog flag and the screen, keeping the invariant |
| Service.PopupCameraService.ChooseCalibrate | camera_motor/src/co/aospa/popupcamera/PopupCameraService.java:437-440 | with a dialog offering calibration on screen, calibrates as calibrateMotor does and dismisses the dialog, keeping the invariant |
| Service.PopupCameraService.RunNext | camera_motor/src/co/aospa/popupcamera/PopupCameraService.java:494-510 | runs the head of the queue exactly when it is due, keeping the invariant |
| Service.PopupCameraService.RunTask | camera_motor/src/co/aospa/popupcamera/PopupCameraService.java:494-510 | runs one task in place |
| Service.PopupCameraService.HandleMessage | camera_motor/src/co/aospa/popupcamera/PopupCameraService.java:494-510 | dispatches the three messages to updateMotor and handleError |
| Service.PopupCameraService.UpdateMotor | camera_motor/src/co/aospa/popupcamera/PopupCameraService.java:307-364 | records the direction and posts the runnable or a re-poll |
| Service.PopupCameraService.PollBusy | camera_motor/src/co/aospa/popupcamera/PopupCameraService.java:351-360 | re-polls while busy, otherwise posts the runnable |
| Service.PopupCameraService.ForceTakeback | camera_motor/src/co/aospa/popupcamera/PopupCameraService.java:284-286 | requests a close |
| Service.PopupCameraService.RunMotor | camera_motor/src/co/aospa/popupcamera/PopupCameraService.java:311-348 | the runnable, dispatching to its four branches |
| Service.PopupCameraService.RefuseWhileCalibrating | camera_motor/src/co/aospa/popupcamera/PopupCameraService.java:317-321 | the calibrating branch of the runnable |
| Service.PopupCameraService.ServeOpen | camera_motor/src/co/aospa/popupcamera/PopupCameraService.java:322-331 | the open branch of the runnable, with the busy release |
| Service.PopupCameraService.ServeClose | camera_motor/src/co/aospa/popupcamera/PopupCameraService.java:332-337 | the close branch of the runnable, with the busy release |
| Service.PopupCameraService.IssueCommand | camera_motor/src/co/aospa/popupcamera/PopupCameraService.java:325-328 | LEDs, command, listener change and frequency record |
| Service.PopupCameraService.RejectRequest | camera_motor/src/co/aospa/popupcamera/PopupCameraService.java:338-344 | the rejecting branch of the runnable |
| Service.PopupCameraService.LightUp | camera_motor/src/co/aospa/popupcamera/PopupCameraService.java:459-470 | LEDs on, LED-off task posted |
| Service.PopupCameraService.CheckFrequentOperate | camera_motor/src/co/aospa/popupcamera/PopupCameraService.java:203-208 | records the actuation and warns when too frequent |
| Service.PopupCameraService.ShowFrequentOperateDialog | camera_motor/src/co/aospa/popupcamera/PopupCameraService.java:210-215 | the guarded frequent-operation dialog |
| Service.PopupCameraService.ShowCalibrationResult | camera_motor/src/co/aospa/popupcamera/PopupCameraService.java:366-371 | the guarded calibration dialog |
| Service.PopupCameraService.BuildCalibrationDialog | camera_motor/src/co/aospa/popupcamera/PopupCameraService.java:371-377 | shows the calibration dialog with the message read when it is built |
| Service.PopupCameraService.HandleError | camera_motor/src/co/aospa/popupcamera/PopupCameraService.java:393-399 | the guarded error handling up to its runnable |
| Service.PopupCameraService.BuildErrorDialog | camera_motor/src/co/aospa/popupcamera/PopupCameraService.java:399-444 | the error runnable: the calibration decision, the counters, the retry and the dialog |
| Service.PopupCameraService.Display | camera_motor/src/co/aospa/popupcamera/PopupCameraService.java:225 | a built dialog is logged and left on screen |

## Left out

- The Android service lifecycle (`onStartCommand`, `onDestroy`, `onBind`) and the registration with the camera and sensor managers are not modelled.
  - Whether `IMotor.getService` found a motor is the constructor's `hasMotor`.
- `RemoteException` and other exceptions thrown by motor calls are not modelled: every motor call succeeds.
- Dialog construction is not modelled: resource strings, window type and the 6-second countdown of the OK button. A shown dialog is an effect naming its kind and message.
- What the LED sysfs writes and the home intent do is not modelled; they appear only as effects in the log.
- The motor HAL itself is not modelled.
  - `getMotorStatus` is the `status` parameter of the looper turn and of the constructor.
  - `MotorEvent` is the `status` of `OnNotify`.
- Concurrency is not modelled, and neither is `synchronized (mLock)`. Each event and each looper turn runs atomically.
  - `SystemClock.elapsedRealtime` and `uptimeMillis` are one clock, the `now` parameter.
- The free-fall sensor test (sensor type and `values[0] == 2.0f`) is reduced to a boolean reading.
- Whether the free-fall listener is registered is not tracked: a free-fall reading can arrive in any state, including after `UnregisterFreeFall`. This allows more runs than the service has.
- Reading `persist.sys.popup.frequent_times` through `SystemProperties` is not modelled. The value is the constructor parameter `frequentTriggerCount`, default 10.
- `LimitSizeList` is not part of this model. Adding to a full list is assumed to drop the oldest entry, and `getFirst`/`getLast` are the oldest and newest entries.
- Properties.StepKeepsInv: the invariant assumes a record-list capacity of at least 1. A zero capacity from the system property is not covered.
- Service.PopupCameraService.OnNotify: requires a motor, because the callback is registered only on one.
- Button clicks and their dismissal run as one step: "calibrate now" calls `calibrateMotor` and then the dialog is dismissed, as AlertDialog does after any button's listener. The dialog framework itself is not modelled.
- Service.PopupCameraService.DismissDialog: requires a dialog on screen, because the dismiss listener is installed only on a shown dialog.
- Service.PopupCameraService.ChooseCalibrate: requires the calibration-offering dialog on screen, because the button exists only on it.
- The 32-bit and 64-bit widths of the Java counters and times are not modelled. The counters stay at most 3, and times are unbounded naturals.
