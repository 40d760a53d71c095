/** The option and result types shared by the models. */
module Wrappers {

  datatype Option<+T> = None | Some(value: T)

  datatype Result<+T, +E> = Ok(value: T) | Err(error: E)

  /** A number that is not a key yet. */
  lemma Unused<T>(m: map<nat, T>) returns (u: nat)
    ensures u !in m
  {
    var keys := m.Keys;
    u := 0;
    while u in m
      invariant keys <= m.Keys && forall k :: k in m && k !in keys ==> k < u
      invariant forall k :: k in keys ==> k >= u
      decreases |keys|
    {
      keys := keys - {u};
      u := u + 1;
    }
  }
}
