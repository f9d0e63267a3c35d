/** The object model: constraints, entities and the factory that registers,
    creates and links them. */
module Graph {
  import opened Values
  import Attributes
  import Edge
  import Lists
  import Registry

  /** A satisfaction clause: a predicate over the linked entity's attributes. */
  type Clause = Attributes.Store -> bool

  /** A requirement on one entity, with an edge-triggered satisfaction state.
      `log` holds the values the change callback has been called with. */
  class Constraint {
    const identifier: string
    const clause: Clause
    var satisfied: bool
    var entity: Entity?
    ghost var log: seq<bool>

    ghost predicate Valid()
      reads this
    {
      Edge.Consistent(satisfied, log)
    }

    /** A new constraint is unlinked and unsatisfied, and nothing has been notified. */
    constructor (identifier: string, clause: Clause)
      ensures this.identifier == identifier && this.clause == clause
      ensures !satisfied && entity == null && log == []
      ensures Valid()
    {
      this.identifier := identifier;
      this.clause := clause;
      satisfied := false;
      entity := null;
      log := [];
    }

    /** The `satisfied` setter: stores `value`, and calls the callback with it
        only when it differs from the previous state. */
    method SetSatisfied(value: bool)
      requires Valid()
      modifies this`satisfied, this`log
      ensures Valid()
      ensures satisfied == value
      ensures log == Edge.Assign(old(satisfied), value, old(log))
    {
      if satisfied != value {
        satisfied := value;
        log := log + [satisfied];
      }
      Edge.AssignKeepsConsistent(old(satisfied), value, old(log));
    }

    method Satisfy()
      requires Valid()
      modifies this`satisfied, this`log
      ensures Valid()
      ensures satisfied
      ensures log == Edge.Assign(old(satisfied), true, old(log))
    {
      SetSatisfied(true);
    }

    method Fail()
      requires Valid()
      modifies this`satisfied, this`log
      ensures Valid()
      ensures !satisfied
      ensures log == Edge.Assign(old(satisfied), false, old(log))
    {
      SetSatisfied(false);
    }

    /** Re-evaluates the clause on the linked entity; an unlinked constraint
        cannot be checked and is left as it was. */
    method Check() returns (r: Outcome)
      requires Valid()
      modifies this`satisfied, this`log
      ensures Valid()
      ensures r == (if entity == null then Outcome.Fail(NotLinked) else Pass)
      ensures entity == null ==> satisfied == old(satisfied) && log == old(log)
      ensures entity != null ==> satisfied == clause(entity.attributes)
      ensures entity != null ==> log == Edge.Assign(old(satisfied), clause(entity.attributes), old(log))
    {
      if entity == null {
        return Outcome.Fail(NotLinked);
      }
      SetSatisfied(clause(entity.attributes));
      r := Pass;
    }

    /** Links to `e` unless already linked: the first link wins. */
    method LinkTo(e: Entity)
      modifies this`entity
      ensures entity == if old(entity) == null then e else old(entity)
    {
      if entity == null {
        entity := e;
      }
    }
  }

  /** An object with declared, exactly typed properties and a list of the
      constraints added to it. */
  class Entity {
    const identifier: string
    const propertyMap: Attributes.Schema
    var attributes: Attributes.Store
    var constraints: seq<Constraint>

    ghost predicate Valid()
      reads this
    {
      Attributes.WellTyped(propertyMap, attributes)
    }

    /** A new entity has no attributes and no constraints. */
    constructor (identifier: string, propertyMap: Attributes.Schema)
      ensures this.identifier == identifier && this.propertyMap == propertyMap
      ensures attributes == map[] && constraints == []
      ensures Valid()
    {
      this.identifier := identifier;
      this.propertyMap := propertyMap;
      attributes := map[];
      constraints := [];
    }

    /** `entity[key]`: the stored value, or an error for a key never set. */
    method Get(key: string) returns (r: Result<Value>)
      requires Valid()
      ensures r.Ok? <==> key in attributes
      ensures r.Ok? ==> r.value == attributes[key] && key in propertyMap && TagOf(r.value) == propertyMap[key]
      ensures r.Err? ==> r.error == MissingAttribute(key)
    {
      if key in attributes {
        r := Ok(attributes[key]);
      } else {
        r := Err(MissingAttribute(key));
      }
    }

    /** `entity[key] = value`: a refused write leaves every attribute as it was. */
    method Set(key: string, value: Value) returns (r: Outcome)
      requires Valid()
      modifies this`attributes
      ensures Valid()
      ensures var w := Attributes.Set(propertyMap, old(attributes), key, value);
        && r == (if w.Ok? then Pass else Fail(w.error))
        && attributes == (if w.Ok? then w.value else old(attributes))
    {
      var w := Attributes.Set(propertyMap, attributes, key, value);
      if w.Err? {
        return Fail(w.error);
      }
      attributes := w.value;
      r := Pass;
    }

    /** Appends `c` to the constraint list, then checks it at once; the check
        fails, after the append, when `c` is not linked. */
    method AddConstraint(c: Constraint) returns (r: Outcome)
      requires c.Valid()
      modifies this`constraints, c`satisfied, c`log
      ensures c.Valid()
      ensures constraints == old(constraints) + [c]
      ensures r == (if c.entity == null then Fail(NotLinked) else Pass)
      ensures c.entity == null ==> c.satisfied == old(c.satisfied) && c.log == old(c.log)
      ensures c.entity != null ==> c.satisfied == c.clause(c.entity.attributes)
      ensures c.entity != null ==> c.log == Edge.Assign(old(c.satisfied), c.clause(c.entity.attributes), old(c.log))
    {
      constraints := constraints + [c];
      r := c.Check();
    }

    /** Removes the first occurrence of `c`; no effect when `c` is not in the list. */
    method RemoveConstraint(c: Constraint)
      modifies this`constraints
      ensures constraints == Lists.RemoveFirst(old(constraints), c)
    {
      if c in constraints {
        constraints := Lists.RemoveFirst(constraints, c);
      }
    }
  }

  /** An argument of `link`, which accepts a constraint and an entity in either order. */
  datatype Node = CNode(c: Constraint) | ENode(e: Entity) {
    function Ref(): object {
      match this
      case CNode(c) => c
      case ENode(e) => e
    }
  }

  /** Picks the constraint and the entity out of `link`'s two arguments: the
      first argument if it is a constraint, else the second; the entity is the
      other one. Anything but one of each is refused. */
  function Dispatch(a: Node, b: Node): (r: Result<(Constraint, Entity)>)
    ensures r.Ok? <==> a.CNode? != b.CNode?
    ensures r.Ok? ==> (a == CNode(r.value.0) && b == ENode(r.value.1)) || (a == ENode(r.value.1) && b == CNode(r.value.0))
    ensures r.Err? ==> r.error == NotConstraintAndEntity
  {
    var constraint := if a.CNode? then a else b;
    var entity := if constraint == b then a else b;
    if constraint.CNode? && entity.ENode? then Ok((constraint.c, entity.e))
    else Err(NotConstraintAndEntity)
  }

  /** Whether `link` may go ahead: one constraint and one entity, the
      constraint's type registered, and registered for the entity's type. */
  function Admit(constraintMap: map<string, string>, a: Node, b: Node): (r: Result<(Constraint, Entity)>)
    ensures r.Ok? ==> (a == CNode(r.value.0) && b == ENode(r.value.1)) || (a == ENode(r.value.1) && b == CNode(r.value.0))
    ensures r.Ok? ==> r.value.0.identifier in constraintMap && constraintMap[r.value.0.identifier] == r.value.1.identifier
    ensures a.CNode? == b.CNode? ==> r == Err(NotConstraintAndEntity)
    ensures a.CNode? && b.ENode? && a.c.identifier !in constraintMap ==>
      r == Err(UnknownConstraintType(a.c.identifier))
    ensures a.CNode? && b.ENode? && a.c.identifier in constraintMap && constraintMap[a.c.identifier] != b.e.identifier ==>
      r == Err(IncompatibleLink(constraintMap[a.c.identifier], b.e.identifier))
    ensures a.CNode? && b.ENode? && a.c.identifier in constraintMap && constraintMap[a.c.identifier] == b.e.identifier ==>
      r == Ok((a.c, b.e))
  {
    match Dispatch(a, b)
    case Err(e) => Err(e)
    case Ok((c, e)) =>
      if c.identifier !in constraintMap then Err(UnknownConstraintType(c.identifier))
      else if constraintMap[c.identifier] != e.identifier then Err(IncompatibleLink(constraintMap[c.identifier], e.identifier))
      else Ok((c, e))
  }

  /** `link(a, b)` and `link(b, a)` are admitted, or refused with the same error, alike. */
  lemma AdmitSymmetric(constraintMap: map<string, string>, a: Node, b: Node)
    ensures Admit(constraintMap, a, b) == Admit(constraintMap, b, a)
  {
  }

  /** Registers entity and constraint types, creates instances of them, and
      links constraints to entities of the registered companion type. */
  class Factory {
    var entityMap: map<string, Attributes.Schema>
    var constraintMap: map<string, string>

    constructor ()
      ensures entityMap == map[] && constraintMap == map[]
    {
      entityMap := map[];
      constraintMap := map[];
    }

    method RegisterEntity(identifier: string, propertyMap: Attributes.Schema)
      modifies this`entityMap
      ensures entityMap == Registry.Register(old(entityMap), identifier, propertyMap)
    {
      if identifier !in entityMap {
        entityMap := entityMap[identifier := propertyMap];
      }
    }

    /** Records which entity type a constraint type applies to; the entity
        type need not be registered. */
    method RegisterConstraint(identifier: string, entityType: string)
      modifies this`constraintMap
      ensures constraintMap == Registry.Register(old(constraintMap), identifier, entityType)
    {
      if identifier !in constraintMap {
        constraintMap := constraintMap[identifier := entityType];
      }
    }

    method CreateEntity(identifier: string) returns (r: Result<Entity>)
      ensures r.Ok? <==> identifier in entityMap
      ensures r.Err? ==> r.error == UnregisteredEntity(identifier)
      ensures r.Ok? ==> fresh(r.value) && r.value.Valid()
      ensures r.Ok? ==> r.value.identifier == identifier && r.value.propertyMap == entityMap[identifier]
      ensures r.Ok? ==> r.value.attributes == map[] && r.value.constraints == []
    {
      if identifier in entityMap {
        var e := new Entity(identifier, entityMap[identifier]);
        return Ok(e);
      }
      r := Err(UnregisteredEntity(identifier));
    }

    method CreateConstraint(identifier: string, clause: Clause) returns (r: Result<Constraint>)
      ensures r.Ok? <==> identifier in constraintMap
      ensures r.Err? ==> r.error == UnregisteredConstraint(identifier)
      ensures r.Ok? ==> fresh(r.value) && r.value.Valid()
      ensures r.Ok? ==> r.value.identifier == identifier && r.value.clause == clause
      ensures r.Ok? ==> !r.value.satisfied && r.value.entity == null && r.value.log == []
    {
      if identifier in constraintMap {
        var c := new Constraint(identifier, clause);
        return Ok(c);
      }
      r := Err(UnregisteredConstraint(identifier));
    }

    /** Links a constraint to an entity, given in either order: sets the
        constraint's entity if it has none, appends the constraint to the
        entity's list and checks it (twice, so the second check is silent).
        A refused link changes neither argument. */
    method Link(a: Node, b: Node) returns (r: Outcome)
      requires a.CNode? ==> a.c.Valid()
      requires b.CNode? ==> b.c.Valid()
      modifies a.Ref(), b.Ref()
      ensures Admit(constraintMap, a, b).Err? ==>
        r == Fail(Admit(constraintMap, a, b).error) && unchanged(a.Ref(), b.Ref())
      ensures Admit(constraintMap, a, b).Ok? ==>
        var (c, e) := Admit(constraintMap, a, b).value;
        && r == Pass
        && c.Valid()
        && c.entity == (if old(c.entity) == null then e else old(c.entity))
        && e.constraints == old(e.constraints) + [c]
        && e.attributes == old(e.attributes)
        && c.satisfied == c.clause(c.entity.attributes)
        && c.log == Edge.Assign(old(c.satisfied), c.clause(c.entity.attributes), old(c.log))
    {
      var admitted := Admit(constraintMap, a, b);
      if admitted.Err? {
        return Fail(admitted.error);
      }
      var (c, e) := admitted.value;
      c.LinkTo(e);
      var added := e.AddConstraint(c);
      var checked := c.Check();
      r := Pass;
    }
  }
}
