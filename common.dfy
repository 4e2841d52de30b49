/**
 * Identifiers shared by every part of the navigation system: the kinds of
 * message that travel on the bus and the identities of the nodes that send
 * and receive them, plus a small Option type.
 *
 * The two enumerations are closed in the system; only the values that the
 * modelled code names are spelled out, every other value is `Other…(code)`.
 */
module Common {

  datatype Option<+T> = None | Some(value: T)

  /** The closed set of message kinds (MessageTypes.hpp is not part of this model). */
  datatype MessageType =
    | MarineSensorData
    | PowerTrackMsg
    | WingSailCommand
    | RudderCommand
    | ServerWaypointsReceived
    | PowerOffCommand
    | CurrentSensorData
    | WindDataMsg
    | OtherType(code: nat)

  /** Node identities; `NoNode` is the reserved "no specific node" value (NodeID::None). */
  datatype NodeID =
    | NoNode
    | PowerTrack
    | OtherNode(code: nat)
}
