/** Identifiers and times shared by the components that store rows. */
module Primitives {

  type Uuid = nat

  /** Microseconds on some clock. */
  type Instant = int

  function Later(a: Instant, b: Instant): Instant {
    if a < b then b else a
  }
}
