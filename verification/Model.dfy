/** The fields of a decoded EEBus message the analyses read (internal/model/message.go).
    Time stamps and durations are nanoseconds. */
module Model {
  datatype Message = Message(
    id: int,
    timestamp: int,
    shipMsgType: string,
    cmdClassifier: string,
    functionSet: string,
    msgCounter: string,
    msgCounterRef: string,
    deviceSource: string,
    deviceDest: string,
    sourceAddr: string,
    destAddr: string,
    entitySource: string,
    featureSource: string)
}
