/** Optional values and fallible results, as the agent's functions return them. */
module Results {
  datatype Option<+T> = None | Some(value: T)

  /** An operation's value or the text of its error. */
  datatype Result<+T> = Ok(value: T) | Err(message: string)
}
