/** Status codes the popup-camera motor HAL reports, and the two directions the
    service asks the motor to move in. */
module Motor {
  // Status codes of IMotor.getMotorStatus() and of MotorEvent.
  const PopupOk: int := 11
  const PopupJammed: int := 12
  const TakebackOk: int := 13
  const TakebackJammed: int := 14
  const Pressed: int := 15
  const CalibOk: int := 17
  const CalibError: int := 18
  const RequestCalib: int := 19

  /** The status the motor runnable passes to the calibration dialog when it
      finds a calibration already running. */
  const NoStatus: int := -1

  /** POPUP_FAILED_MAX_TRIES and TAKEBACK_FAILED_MAX_TRIES. */
  const MaxTries: nat := 3

  datatype Direction = Open | Close

  /** mCameraState: "-1" until the first updateMotor, then the last direction requested. */
  datatype CameraState = Unset | Requested(dir: Direction)

  /** The motor may pop up: the camera is retracted or was just calibrated. */
  predicate ReadyToPopup(status: int) {
    status == TakebackOk || status == CalibOk
  }

  /** The motor may take back: the camera is out or was just calibrated. */
  predicate ReadyToTakeback(status: int) {
    status == PopupOk || status == CalibOk
  }

  /** Statuses for which a rejected motor request raises MSG_CAMERA_ERROR. */
  predicate IsErrorStatus(status: int) {
    status == RequestCalib || status == PopupJammed || status == TakebackJammed || status == CalibError
  }

  /** Statuses found at start-up for which the service retracts the camera. */
  predicate ClosesOnBoot(status: int) {
    status == PopupOk || status == PopupJammed || status == TakebackJammed
  }
}
