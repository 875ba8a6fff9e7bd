/** Fixed-width integers, error codes and outcomes shared by every component. */
module Base {
  type byte = b: int | 0 <= b < 256
  type u32 = w: int | 0 <= w < 0x1_0000_0000

  datatype Option<+T> = None | Some(value: T)

  datatype Errno =
    | EPERM | ENOENT | EIO | EBUSY | ENODEV | EINVAL | EPIPE | EPROTO | EBADMSG
    | ENOTSUP | ENOTCONN | ECONNRESET | ETIMEDOUT | ESTALE | EINTR

  /** What a failed operation reports about the hardware: it never wrote, it put the
      previous state back, or the state may have changed. */
  datatype Note = Untouched | Restored | Uncertain

  datatype Status = Ok | Err(code: Errno, note: Note)
}
