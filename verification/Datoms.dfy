/** The datom: a fact about an entity, asserted or retracted by a transaction. */
module Datoms {
  datatype Datom<A, V> = Datom(e: int, a: A, v: V, tx: int, added: bool)
}
