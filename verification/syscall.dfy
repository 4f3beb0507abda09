/**
 * The system calls the management client makes on its Bluetooth control
 * socket (`socket`, `bind`, `read`, `write`, `close`). Their results come
 * from outside the program, so the model takes them as given answers.
 */
module Syscall {
  import opened Bytes

  /**
   * What `socket` or `write` reports: a file descriptor or byte count, or
   * an errno. On an errno Go's wrappers hand back -1 as the count.
   */
  datatype SysAnswer = Done(n: int) | Failed(errno: int)

  /** What `read` reports: the bytes the kernel delivered, or an errno. */
  datatype ReadAnswer = Delivered(data: seq<Byte>) | ReadFailed(errno: int)

  /**
   * The kernel's answers to successive `write` calls: call number `k`
   * with the slice `p`. The kernel never reports more bytes than it was
   * given, and a blocking socket accepts at least one byte of a non-empty
   * slice or reports an error.
   */
  ghost predicate WriteContract(kernelWrite: (nat, seq<Byte>) -> SysAnswer)
  {
    forall k: nat, p: seq<Byte> :: |p| > 0 && kernelWrite(k, p).Done? ==>
      1 <= kernelWrite(k, p).n <= |p|
  }

  /**
   * The kernel's answers to successive `read` calls: call number `k` into
   * a buffer with room for `room` bytes. A blocking read delivers at least
   * one byte and never more than fits, or reports an error.
   */
  ghost predicate ReadContract(kernelRead: (nat, nat) -> ReadAnswer)
  {
    forall k: nat, room: nat :: room > 0 && kernelRead(k, room).Delivered? ==>
      1 <= |kernelRead(k, room).data| <= room
  }
}
