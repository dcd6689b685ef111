/** The error numbers that calls return, negated. */
module Errno {
  const EPERM: int := 1
  const ENOMEM: int := 12
  const EBUSY: int := 16
  const EINVAL: int := 22
  const ENODATA: int := 61
  const EPROTONOSUPPORT: int := 123
}
