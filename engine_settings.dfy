/** Port specifications: which engine variables the host may read or write. */
module EngineSettings {
  /** `'float'` or `'messages'` (an array of messages). */
  datatype PortType = FloatPort | MessagesPort

  /** `'r'`, `'w'` or `'rw'`. */
  datatype Access = Read | Write | ReadWrite {
    predicate CanRead() { this == Read || this == ReadWrite }
    predicate CanWrite() { this == Write || this == ReadWrite }
  }

  datatype PortSpec = PortSpec(access: Access, portType: PortType)
}
