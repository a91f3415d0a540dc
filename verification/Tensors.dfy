/** Dense tensors in row-major order. */
module Tensors {

  type Shape = seq<nat>

  function Size(shape: Shape): nat {
    if shape == [] then 1 else shape[0] * Size(shape[1..])
  }

  datatype Array<T> = Array(shape: Shape, data: seq<T>) {
    predicate Valid() {
      |data| == Size(shape)
    }
  }
}
