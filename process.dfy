/** What a process leaves behind when `exit_with_error` ends it: the status its parent
    sees and the text written to standard error. */
module Process {

  datatype ExitReport = ExitReport(status: int, diagnostic: string)

  /** `exit(code)` hands the parent only the low eight bits of `code`. */
  function ExitStatus(code: int): (s: int)
    ensures 0 <= s < 256
    ensures 0 <= code < 256 ==> s == code
    ensures (code - s) % 256 == 0
  {
    code % 256
  }
}
