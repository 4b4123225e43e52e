/** The binding (WebSocket sub-protocol) a message format is carried over. */
module Bindings {

  /**
   * An IWampBinding: its protocol name, and whether it is also an
   * IWampTextBinding and/or an IWampBinaryBinding. A single object may
   * implement both interfaces, or neither.
   */
  datatype Binding = Binding(name: string, isText: bool, isBinary: bool)
}
