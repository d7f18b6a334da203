/** The front-end notifications the recorder and the player emit, kept as an appended log. */
module Notifications {

  datatype Notification =
    | RecordStarted(deviceId: string, startTime: int, inputDevice: string)  // "touch-record-started"
    | RecordStopped(deviceId: string, eventCount: nat)                      // "touch-record-stopped"
    | PlaybackStarted(deviceId: string, total: nat)                         // "touch-playback-started"
    | PlaybackProgress(deviceId: string, current: nat, total: nat)          // "touch-playback-progress"
    | PlaybackCompleted(deviceId: string)                                   // "touch-playback-completed"
}
