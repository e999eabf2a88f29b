/** Vocabulary shared by every model in this project. */
module Common {

  datatype Option<+T> = None | Some(value: T)

  datatype Result<+T, +E> = Ok(value: T) | Err(error: E)

  /** Instants are milliseconds; lease tokens and row identifiers are opaque numbers. */
  type Instant = int
  type Token = nat
  type Id = nat

  function Max(a: int, b: int): int {
    if a > b then a else b
  }

  function Min(a: int, b: int): int {
    if a < b then a else b
  }

  /** Among the rows of some keys there is one of least rank. */
  lemma LeastExists<K(!new), V(!new)>(rows: map<K, V>, keys: set<K>, rank: V -> int)
    requires keys != {} && keys <= rows.Keys
    ensures exists k :: k in keys && forall other :: other in keys ==> rank(rows[k]) <= rank(rows[other])
  {
    var k :| k in keys;
    var rest := keys - {k};
    assert forall other :: other in keys ==> other == k || other in rest;
    if rest == {} {
      assert forall other :: other in keys ==> rank(rows[k]) <= rank(rows[other]);
    } else {
      LeastExists(rows, rest, rank);
      var m :| m in rest && forall other :: other in rest ==> rank(rows[m]) <= rank(rows[other]);
      var best := if rank(rows[k]) <= rank(rows[m]) then k else m;
      assert best in keys && forall other :: other in keys ==> rank(rows[best]) <= rank(rows[other]);
    }
  }
}
