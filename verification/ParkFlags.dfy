/** The per-process park flags of the kernel (kernel/proc.h) and the three system
    calls on them (kernel/proc.c), each of which runs as one atomic step because the
    kernel executes it under ptable.lock. */
module ParkFlags {
  /** `asleep` is `state == SLEEPING`; the others are the fields of struct proc. */
  datatype Flags = Flags(asleep: bool, isParked: bool, setPark: bool, immediateUnpark: bool)

  /** A process that is running and has made no park announcement. */
  const CLEAR := Flags(false, false, false, false)

  /** setpark(): announce a park unless one is announced or an unpark is already pending. */
  function SetPark(f: Flags): Flags {
    if !f.immediateUnpark && !f.setPark then f.(setPark := true) else f
  }

  /** park(), up to the point where the caller either sleeps or goes on running. */
  function Park(f: Flags): Flags {
    if !f.immediateUnpark
    then f.(asleep := true, isParked := true, setPark := false)
    else f.(immediateUnpark := false, setPark := false)
  }

  /** The branch of unpark() that reports an error and changes nothing. */
  predicate UnparkRefused(f: Flags) {
    !f.setPark && !f.isParked
  }

  /** unpark() on the process whose flags are `f`. */
  function Unpark(f: Flags): Flags {
    if UnparkRefused(f) then f
    else if f.setPark && !f.isParked then f.(immediateUnpark := true)
    else if f.asleep && f.isParked then f.(asleep := false, isParked := false)
    else f
  }
}
