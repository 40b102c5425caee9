/** Containers that the modules share. */
module Containers {
  datatype Option<T> = None | Some(value: T)

  datatype List<T> = Nil | Cons(head: T, tail: List<T>)

  function Length<T>(l: List<T>): nat {
    if l.Nil? then 0 else 1 + Length(l.tail)
  }
}
