/** Engine time in milliseconds, with the infinity an idle script is due at. */
module Times {
  datatype Time = At(ms: real) | Never

  predicate Before(a: Time, b: Time) {
    a.At? && (b.Never? || a.ms < b.ms)
  }

  predicate NotAfter(a: Time, b: Time) {
    b.Never? || (a.At? && a.ms <= b.ms)
  }

  function Plus(a: Time, b: Time): Time {
    if a.Never? || b.Never? then Never else At(a.ms + b.ms)
  }

  function Earlier(a: Time, b: Time): Time { if Before(b, a) then b else a }
}
