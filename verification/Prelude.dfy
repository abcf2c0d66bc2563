/** Shared vocabulary: the clock, Valkey keys with a deadline, and Option.

    Time is counted in millisecond ticks, the resolution in which Valkey keeps
    key deadlines. Token payloads carry whole seconds (`time.Time.Unix`). */
module Prelude {

  datatype Option<+T> = None | Some(value: T)

  /** A Valkey key: its value and the instant from which it no longer exists. */
  datatype Cell<+T> = Cell(value: T, deadline: nat)

  /** `t.Unix()`: the whole second an instant falls in. */
  function Sec(t: nat): nat {
    t / 1000
  }

  /** A duration of whole seconds in ticks. */
  function Ticks(secs: nat): nat {
    secs * 1000
  }

  /** A key answers reads while its deadline lies in the future. */
  predicate Live<T>(c: Cell<T>, now: nat) {
    now < c.deadline
  }
}
