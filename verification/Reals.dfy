// Elementary functions on reals.
module Reals {
  function Abs(x: real): real { if x < 0.0 then -x else x }

  function MinReal(x: real, y: real): real { if x <= y then x else y }

  function MaxReal(x: real, y: real): real { if x >= y then x else y }
}
