/** The dialogs the service shows and how their messages are chosen. */
module Dialogs {
  import opened Motor

  /** The four messages of the motor-error dialog. */
  datatype ErrorMessage =
    | PopupFrontFailed
    | TakebackFrontFailed
    | PopupFailedTimesCalibrate
    | TakebackFailedTimesCalibrate
  {
    /** The message tells the user that the motor needs calibrating. */
    predicate AsksToCalibrate() {
      PopupFailedTimesCalibrate? || TakebackFailedTimesCalibrate?
    }

    /** The message is about a failed take-back (rather than a failed popup). */
    predicate AboutTakeback() {
      TakebackFrontFailed? || TakebackFailedTimesCalibrate?
    }
  }

  /** The error message for a given calibration decision and last requested
      direction; a camera state other than "closed" counts as a popup. */
  function ErrorMessageFor(needsCalib: bool, cameraState: CameraState): (m: ErrorMessage)
    ensures m.AsksToCalibrate() == needsCalib
    ensures m.AboutTakeback() == (cameraState == Requested(Close))
  {
    if needsCalib then
      if cameraState == Requested(Close) then TakebackFailedTimesCalibrate else PopupFailedTimesCalibrate
    else
      if cameraState == Requested(Close) then TakebackFrontFailed else PopupFrontFailed
  }

  /** The three messages of the calibration dialog. */
  datatype CalibrationMessage = CalibrateRunning | CalibrateSuccess | CalibrateFailed

  /** The calibration message, read when the dialog is built. */
  function CalibrationMessageFor(calibrating: bool, status: int): (m: CalibrationMessage)
    ensures m.CalibrateRunning? == calibrating
    ensures m.CalibrateSuccess? == (!calibrating && status == CalibOk)
  {
    if calibrating then CalibrateRunning
    else if status == CalibOk then CalibrateSuccess
    else CalibrateFailed
  }

  datatype Dialog =
    | FrequentOperate
    | CalibrationResult(calibrationMessage: CalibrationMessage)
    | MotorError(errorMessage: ErrorMessage, offersCalibration: bool)
}
