/** Error numbers the application returns, negated, as in the firmware's errno.h. */
module Errno {
  const EINVAL: int := 22
}
