# py-graph object model in Dafny

This project models the object model of `Graph.py` in py-graph. It has three parts:

- **Constraint**: a requirement on one entity. It holds a satisfaction clause and a
  `satisfied` flag. Its change callback is *edge-triggered*: the callback runs only
  when the flag actually changes value. A constraint is linked to an entity at most
  once, and the first link wins.
- **Entity**: an attribute store with a fixed schema. The schema maps each property
  name to an exact type. An entity also keeps a list of the constraints added to it.
- **Factory**: two first-write-wins registries, one for entity types and one for
  constraint types. The factory creates instances of registered types. It also links
  a constraint to an entity of the constraint's registered companion type, with the
  two arguments given in either order.

Files and modules:

- `values.dfy` (`Values`): the exact type tags, attribute values and error kinds.
  There is one error kind for each place the source raises.
- `attributes.dfy` (`Attributes`): the typed attribute write as a pure function. It
  comes with its round-trip, frame and well-typedness guarantees.
- `edge.dfy` (`Edge`): the edge-triggered setter as a function over the callback
  log. It has lemmas about any sequence of `satisfy`/`fail`/`check` calls.
- `lists.dfy` (`Lists`): first-occurrence search and removal, as `list.remove` does it.
- `registry.dfy` (`Registry`): first-write-wins registration.
- `graph.dfy` (`Graph`): the classes `Constraint`, `Entity` and `Factory`. Their
  methods change fields in place, and their `ensures` tie the new state to the
  functions above. This file also has the argument dispatch of `link`.

The user callback is modelled as a ghost field `log`. It records the value the
callback was called with, each time. The class invariant `Constraint.Valid` says the
log reads true, false, true, ... and that the current state is true exactly when the
log has odd length. Every method keeps this invariant.

Where the documented design and the code disagree, the model follows the code:

- `register_constraint` does not check that the referenced entity type is registered
  (Graph.py:196-199).
- `create_entity` takes no source object to copy attributes from (Graph.py:201-213).
- No `Graph` container class exists in `Graph.py`, so none is modelled.

## Model

| member | source | states |
|---|---|---|
| `Attributes.Set` | Graph.py:122-134 | A write succeeds exactly when the key is declared and the value's exact type is the declared one. An undeclared key gives `UnknownAttribute`; a wrong type gives `TypeMismatch`. On success the value reads back, no other key changes and the store stays well typed. |
| `Attributes.BoolIsNotInt` | Graph.py:128-132 | The type check is exact: a boolean is refused for an `int` property. |
| `Attributes.SetOverwrites` | Graph.py:122-134 | A second write to a key succeeds exactly when it has the first value's type. Then the store is as if only the second write happened. |
| `Edge.Assign` | Graph.py:37-43 | The setter adds one callback exactly when the new value differs from the old one. The log is only appended to, and the callback receives the new value. |
| `Edge.AssignKeepsConsistent` | Graph.py:29-43 | Starting unsatisfied with no callbacks, any setter call keeps the log alternating true, false, ... and keeps the state equal to "odd number of callbacks". |
| `Edge.ConsistentAlternates` | Graph.py:37-43 | In any reachable history, no two successive callbacks carry the same value, and the last callback carries the current state. |
| `Edge.RunFiresOnFlips` | Graph.py:37-74 | Over any sequence of setter calls, the number of callbacks equals the number of state changes. The log only grows, and the final state is the last value given. |
| `Edge.RepeatFiresAtMostOnce` | Graph.py:45-74 | Repeating one value (satisfy twice, fail twice, check with an unchanged clause result) fires the callback at most once. It fires exactly once when the value differs from the starting state. |
| `Edge.RunKeepsConsistent` | Graph.py:37-74 | Any sequence of setter calls keeps the history consistent. |
| `Lists.IndexOf` | Graph.py:157-158 | Gives the first position holding the element, or the length when the element is absent. |
| `Lists.RemoveFirst` | Graph.py:148-158 | Removing an absent element is a no-op. Otherwise exactly one copy of it leaves the list (multiset difference) and the length drops by one. |
| `Lists.RemoveFirstAt` | Graph.py:157-158 | The copy removed is the first occurrence, and the other elements keep their order. |
| `Registry.Register` | Graph.py:174-199 | Registering adds the identifier to the keys. An existing binding is never changed, and a new identifier gets the given value. |
| `Registry.RegisterTwice` | Graph.py:185-186 | Re-registering an identifier is a no-op, whatever the new value. |
| `Graph.Constraint.constructor` | Graph.py:12-31 | A new constraint is unlinked and unsatisfied, and no callback has run. |
| `Graph.Constraint.SetSatisfied` | Graph.py:37-43 | Afterwards `satisfied == value`. The callback log is extended exactly as `Edge.Assign` says, and the invariant is kept. |
| `Graph.Constraint.Satisfy` | Graph.py:45-52 | Forces the state to true, with a callback only if the state was false. |
| `Graph.Constraint.Fail` | Graph.py:54-60 | Forces the state to false, with a callback only if the state was true. |
| `Graph.Constraint.Check` | Graph.py:62-74 | An unlinked constraint gives `NotLinked` and changes nothing. A linked one takes the clause's value on the linked entity's attributes, through the edge-triggered setter. |
| `Graph.Constraint.LinkTo` | Graph.py:76-88 | Sets the entity only when none is set: the first link wins. |
| `Graph.Entity.constructor` | Graph.py:98-116 | A new entity has the given type and schema, no attributes and no constraints. |
| `Graph.Entity.Get` | Graph.py:118-120 | Gives the stored value when the key was set, and that value has the declared type. Otherwise it gives `MissingAttribute`. |
| `Graph.Entity.Set` | Graph.py:122-134 | The result and the new store are those of `Attributes.Set`. A refused write leaves the store unchanged. |
| `Graph.Entity.AddConstraint` | Graph.py:136-146 | The list grows by exactly the new constraint, at the end. Then the constraint is checked. An unlinked constraint stays appended but gives `NotLinked`. |
| `Graph.Entity.RemoveConstraint` | Graph.py:148-158 | The list becomes `Lists.RemoveFirst` of the old list: the first occurrence is removed, and an absent constraint changes nothing. |
| `Graph.Dispatch` | Graph.py:239-242 | `link`'s arguments are accepted exactly when one is a constraint and the other an entity, in either order. Anything else gives `NotConstraintAndEntity`. |
| `Graph.Admit` | Graph.py:239-248 | A link is admitted exactly for one constraint and one entity where the constraint's type is registered for the entity's type. An unregistered constraint type gives `UnknownConstraintType`; a different registered entity type gives `IncompatibleLink`. |
| `Graph.AdmitSymmetric` | Graph.py:231-248 | `link(a, b)` and `link(b, a)` are admitted, or refused with the same error, alike. |
| `Graph.Factory.constructor` | Graph.py:166-172 | Both registries start empty. |
| `Graph.Factory.RegisterEntity` | Graph.py:174-186 | The entity registry becomes `Registry.Register` of the old one: first write wins. |
| `Graph.Factory.RegisterConstraint` | Graph.py:188-199 | The constraint registry becomes `Registry.Register` of the old one. The entity type is not checked. |
| `Graph.Factory.CreateEntity` | Graph.py:201-213 | Fails with `UnregisteredEntity` exactly for an unregistered type. Otherwise it returns a fresh entity with the registered schema, no attributes and no constraints. |
| `Graph.Factory.CreateConstraint` | Graph.py:215-229 | Fails with `UnregisteredConstraint` exactly for an unregistered type. Otherwise it returns a fresh, unlinked, unsatisfied constraint with the given clause. |
| `Graph.Factory.Link` | Graph.py:231-253 | A link refused by `Admit` reports that error and changes neither argument. An admitted link keeps an earlier entity if the constraint had one, and appends the constraint to the entity's list. The constraint then holds the clause's value on its linked entity, with at most one callback, as `Edge.Assign` says. |

## Left out

- Argument type checks (utils.py): Dafny's static types replace them. A non-string key, a non-callable clause or a non-boolean clause result cannot be expressed.
- Error messages: only the error kind is modelled, not the message text. As written, the messages at Graph.py:131-132 and utils.py:9 join a type object to a string, which raises a different `TypeError` than intended. The error kind is still `TypeError`.
- `__getitem__` reads the whole instance dictionary. That dictionary also holds `identifier`, `property_map` and `constraints`, and a property declared under one of those names would overwrite the field. The model keeps attributes in their own map.
- Clauses: a clause is a total predicate over the entity's attributes. In the source it receives the whole entity, may raise (for example on an attribute never set), and may return a non-boolean.
- Callbacks: only the values passed are logged. Their side effects and any reentrant calls back into the model are not modelled.
- Aliasing of the registered property map: in the source the factory and every entity it creates share one dictionary object. The model copies the map by value.
- The `Graph` container (add, remove, contains) is not part of this source, so it is not modelled. The same goes for persistence and concurrency.
- test.py: a usage script that only prints from its callback.
