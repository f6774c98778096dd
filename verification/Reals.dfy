/** The few functions on reals that several modules share. */
module Reals {
  function Min(a: real, b: real): real { if b < a then b else a }

  function Max(a: real, b: real): real { if b > a then b else a }

  function Abs(v: real): real { if v < 0.0 then -v else v }

  function Clamp01(v: real): real { if v < 0.0 then 0.0 else if v > 1.0 then 1.0 else v }
}
