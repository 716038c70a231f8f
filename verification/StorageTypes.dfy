/** The storage records that carry logic: presentation fields of drives and volumes are dropped. */
module StorageTypes {
  import opened Prelude

  datatype Drive = Drive(id: Id, siblingId: Id, canEject: bool, canPowerOff: bool)

  datatype Volume = Volume(id: Id, driveId: Id, cryptoBackingId: Id, mountPoints: seq<string>, loop: bool,
                           canMount: bool, canUnmount: bool)

  datatype Operation = Mount | Unmount | Eject | PowerOff {
    /** Eject and PowerOff target a drive; the other two target a volume. */
    predicate Removal() { Eject? || PowerOff? }
  }

  /** `requestId` names the step for a backend result and the request for a controller result. */
  datatype Result = Result(requestId: Id, targetId: Id, operation: Operation, mountPath: string, errorName: string) {
    predicate Succeeded() { errorName == "" }
  }

  function StorageError(name: string): (r: string)
    ensures r != ""
  {
    "org.holonight.Storage." + name
  }
}
