/** Declarations the modules share. */
module Common {

  datatype Option<+T> = None | Some(value: T)

  /** The next key a walk over a map happens to meet. */
  method Next<T(==)>(keys: set<T>) returns (k: T)
    requires keys != {}
    ensures k in keys
  {
    k :| k in keys;
  }
}
