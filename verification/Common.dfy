/** Types and error codes shared by the other modules. */
module Common {
  datatype Option<+T> = None | Some(value: T)

  /** Negative return codes, with the values the kernel's errno header gives them. */
  const EAGAIN := 11
  const ENOMEM := 12
  const EBUSY := 16
  const EINVAL := 22
  const ENOMSG := 35
  const ENOBUFS := 105

  /** The largest value of a C `int`; the smallest is `-INT_MAX - 1`. */
  const INT_MAX := 0x7FFF_FFFF
}
