/** A frame's duration, stored in seconds. */
module Timestep {

  datatype Timestep = Timestep(time: real)

  /** The default timestep is zero. */
  function DefaultTimestep(): (t: Timestep)
    ensures Seconds(t) == 0.0 && Milliseconds(t) == 0.0
  {
    Timestep(0.0)
  }

  /** `getSeconds`, and also the `float` conversion. */
  function Seconds(t: Timestep): real {
    t.time
  }

  /** `getMilliseconds`. */
  function Milliseconds(t: Timestep): (ms: real)
    ensures ms == 1000.0 * Seconds(t)
  {
    t.time * 1000.0
  }

  /** Milliseconds and seconds describe the same duration: dividing by a
      thousand gives the seconds back, and the conversion keeps order. */
  lemma MillisecondsAgreeWithSeconds(t: Timestep, u: Timestep)
    ensures Milliseconds(t) / 1000.0 == Seconds(t)
    ensures Seconds(t) <= Seconds(u) <==> Milliseconds(t) <= Milliseconds(u)
    ensures Milliseconds(t) == Milliseconds(u) ==> t == u
  {
  }
}
