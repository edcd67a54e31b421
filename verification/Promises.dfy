/** The words in which promises about disks and bays are made. They repeat the documented
    conditions on health, bays and identity, so that a promise does not lean on the code that
    is to keep it. */
module Promises {
  import opened Types

  /** The states that call for a lit locate LED. */
  predicate IsFaulted(h: Health) {
    h == "DEGRADED" || h == "FAULTED" || h == "UNAVAIL" || h == "REMOVED"
  }

  /** The only state that calls for a dark one. */
  predicate IsOnline(h: Health) {
    h == "ONLINE"
  }

  predicate Asks(h: Health, action: Action) {
    match action
    case On => IsFaulted(h)
    case Off => IsOnline(h)
  }

  predicate IsComplete(b: Bay) {
    b.controller != "" && b.enclosure != "" && b.slot != ""
  }

  /** The disk sits in this bay. */
  predicate InBay(d: Disk, b: Bay) {
    d.bay == Some(b) && IsComplete(b)
  }

  predicate HasBay(d: Disk) {
    d.bay.Some? && IsComplete(d.bay.value)
  }

  /** A disk whose bay must be remembered: it has a GUID, a complete bay, and a serial number or
      a WWN. */
  predicate IsIdentified(d: Disk) {
    d.guid != "" && HasBay(d) && (d.serial != "" || d.wwn != "")
  }
}
