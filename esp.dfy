/** ESP-IDF error codes (esp_err_t) and the one operation the firmware applies
    to them besides comparison: bitwise OR, used to accumulate the status of
    several register writes (`ret |= regWrite8(...)`).
    esp_err_t is a signed 32-bit int; it is kept here as its bit pattern. */
module Esp {

  type Err = bv32

  const OK: Err := 0
  /** ESP_FAIL is -1, all bits set. */
  const FAIL: Err := 0xFFFF_FFFF
  const ERR_INVALID_ARG: Err := 0x102
  const ERR_NOT_FOUND: Err := 0x105

  /** `a | b` on two status codes: OK exactly when both are OK, a failure
      code is never masked by a later success. */
  function Or(a: Err, b: Err): (r: Err)
    ensures r == OK <==> a == OK && b == OK
    ensures a != OK ==> r != OK
    ensures a == OK ==> r == b
  {
    a | b
  }

  datatype Option<T> = None | Some(value: T)

  /** The end of a call wrapped in ESP_ERROR_CHECK: it either returns, or
      aborts the program with the failing code. */
  datatype Checked = Returned(ret: Err) | Aborted(code: Err)
}
