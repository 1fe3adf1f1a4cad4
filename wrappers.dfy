/** Option type shared by the decoders of the model. */
module Wrappers {

  datatype Option<+T> = None | Some(value: T)

  /** Puts `x` in front of a decoded sequence; a failed decoding stays failed. */
  function Prepend<T>(x: T, o: Option<seq<T>>): (r: Option<seq<T>>)
    ensures r.Some? <==> o.Some?
    ensures r.Some? ==> r.value == [x] + o.value
  {
    match o
    case Some(v) => Some([x] + v)
    case None => None
  }
}
