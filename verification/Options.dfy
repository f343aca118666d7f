/** The optional value used throughout the model in place of Go's nil and (value, ok) pairs. */
module Options {
  datatype Option<+T> = None | Some(value: T)

  /** A member of a non-empty set, for loops that range over a set or the keys of a map. */
  lemma Member<T>(s: set<T>) returns (x: T)
    requires s != {}
    ensures x in s
  {
    assert exists y :: y in s;
    x :| x in s;
  }
}
