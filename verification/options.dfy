/** The optional value the parser uses for fields that may stay unset
    (Python's `None` versus a value). */
module Options {

  datatype Option<+T> = None | Some(value: T)

}
