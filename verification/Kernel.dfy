/** Vocabulary shared by the kernel modules: thread names, return codes, wait-list flags. */
module Kernel {

  /** A thread is named by the address of its control block. */
  type Tid = nat

  /** The return codes the IPC calls use: RT_EOK, -RT_ERROR, -RT_ETIMEOUT, -RT_EFULL, -RT_EINVAL. */
  datatype Err = EOK | ERROR | ETIMEOUT | EFULL | EINVAL

  /** RT_IPC_FLAG_FIFO and RT_IPC_FLAG_PRIO. */
  datatype Flag = FIFO | PRIO

  type Byte = b: nat | b < 0x100

  datatype Option<+T> = None | Some(value: T)

  /** What a section of a call leaves its caller with: the call goes on, or it returned. */
  datatype Outcome = Running | Returned(err: Err)

  /** A control-block field of every thread, with thread t's field set to v. */
  function With<V>(field: Tid -> V, t: Tid, v: V): Tid -> V {
    (x: Tid) => if x == t then v else field(x)
  }

  ghost predicate Distinct<T>(s: seq<T>) {
    forall i, j :: 0 <= i < j < |s| ==> s[i] != s[j]
  }
}
