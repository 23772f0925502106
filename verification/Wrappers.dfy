/** Optional values, the ways a call ends, and picking a member of a set. */
module Wrappers {
  datatype Option<+T> = None | Some(value: T)

  /** A Go call returns normally, returns an error, or panics. */
  datatype Outcome = Done | Failed | Panicked

  lemma SomeMember<T>(s: set<T>) returns (x: T)
    requires s != {}
    ensures x in s
  {
    x :| x in s;
  }
}
