/** The vocabulary of the index: labels, internal ids, vectors and distances. */
module Space {
  /** External label (`labeltype`) and internal slot number (`tableint`). */
  type Label = nat
  type Id = nat
  type Vector = seq<real>

  /** `std::numeric_limits<float>::max()`. */
  const FLT_MAX := 340282346638528859811704183484516925440.0

  /** Finite distances. Rounding is not modelled, the order and the upper end of the range are. */
  type Dist = d: real | -FLT_MAX <= d <= FLT_MAX

  /** The distance function the index is built with (`fstdistfunc_`); nothing is assumed about it. */
  type Metric = (Vector, Vector) -> Dist

  datatype Option<+T> = None | Some(value: T)
}
