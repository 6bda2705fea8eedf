/** The return codes of `src/lc_error.h` that the modelled functions give. */
module ErrorCodes {
  const SUCCESS := 0
  const ERR_INVAL := -2
  const ERR_FULL := -7
  const ERR_EMPTY := -8
  const ERR_CLOSED := -11
  const ERR_OVERFLOW := -17
  const ERR_TASKSTATE := -20
}
