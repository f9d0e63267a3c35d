/** The factory's registries: identifiers bound once, first write wins. */
module Registry {

  /** Binds `id` to `v` unless `id` is already bound. */
  function Register<V>(m: map<string, V>, id: string, v: V): (r: map<string, V>)
    ensures r.Keys == m.Keys + {id}
    ensures forall k :: k in m ==> r[k] == m[k]
    ensures id !in m ==> r[id] == v
  {
    if id !in m then m[id := v] else m
  }

  /** Re-registering an identifier is a no-op, whatever the new value. */
  lemma RegisterTwice<V>(m: map<string, V>, id: string, v1: V, v2: V)
    ensures Register(Register(m, id, v1), id, v2) == Register(m, id, v1)
  {
  }
}
