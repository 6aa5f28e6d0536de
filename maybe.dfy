/** The optional value used for an absent argument, a failed removal and an exit status. */
module Maybe {
  datatype Option<+T> = None | Some(value: T)
}
