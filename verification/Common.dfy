/** Small shared datatypes and sequence functions. */
module Common {

  datatype Option<+T> = None | Some(value: T)

  /** Concatenation of a sequence of sequences. */
  function Flatten<T>(parts: seq<seq<T>>): (whole: seq<T>)
  {
    if parts == [] then [] else parts[0] + Flatten(parts[1..])
  }
}
