/** An optional value: the "no match" / "could not convert" outcomes of the processor. */
module Options {

  datatype Option<T> = None | Some(value: T)
}
