/** The vocabulary shared by every component: health words, bays, disks,
    diagnostics and the closed set of error codes. */
module Types {

  datatype Option<+T> = None | Some(value: T)

  datatype ErrorCode =
    | Unsupported | Permission | Timeout | Ambiguous | Malformed | NotFound | Internal

  datatype Result<+T> = Ok(value: T) | Err(code: ErrorCode)

  /** An OpenZFS state word. Events may carry any string here. */
  type Health = string

  /** The only two hardware mutations the tool can issue. */
  datatype Action = On | Off

  /** One physical slot. The last two fields describe the slot, they do not name it. */
  datatype Bay = Bay(backend: string, controller: string, enclosure: string, slot: string,
                     capability: string, ledState: string)
  {
    /** Empty when any component is missing, so an incomplete bay has no name. */
    function ID(): string {
      if controller == "" || enclosure == "" || slot == "" then ""
      else controller + "/" + enclosure + "/" + slot
    }

    /** The ownership key under which a locate LED is recorded. */
    function Key(): string {
      backend + ":" + ID()
    }
  }

  datatype ErrorCounters = ErrorCounters(read: nat, write: nat, checksum: nat)

  datatype Diagnostic = Diagnostic(code: ErrorCode, source: string)

  /** A leaf vdev joined to its Linux identity and, when known, its bay. */
  datatype Disk = Disk(pool: string, guid: string, name: string, role: string, state: Health,
                       devicePath: string, parentDevice: string,
                       serial: string, wwn: string, model: string,
                       errors: ErrorCounters, bay: Option<Bay>, diagnostics: seq<Diagnostic>)
}
