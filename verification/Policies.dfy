/** Policies and how one of them is matched against a request. */
module Policies {
  import opened Wrappers

  /** A JSON scalar, as found in a condition or on a resource. */
  datatype Value = Null | Num(n: int) | Text(s: string)

  type Resource = map<string, Value>

  /** One key of a policy's `conditions` object. `resource_attributes` is flat equality on the resource; the
  other kinds are only known by their key and configuration. */
  datatype Condition = ResourceAttributes(attrs: map<string, Value>) | Other(key: string, config: string)

  datatype Definition = Definition(
    name: string, description: Option<string>, actions: seq<string>, resourceType: string,
    conditions: Option<seq<Condition>>, active: bool)

  /** What the remaining condition handlers answer for one request: user, context and clock are fixed. */
  type Handlers = (string, string) -> bool

  predicate Registered(key: string) {
    key in {"self_only", "context_attributes", "time", "date_range", "network", "security_context"}
  }

  function Key(c: Condition): string {
    match c
    case ResourceAttributes(_) => "resource_attributes"
    case Other(key, _) => key
  }

  function FieldOf(resource: Resource, field: string): Value {
    if field in resource then resource[field] else Null
  }

  predicate Holds(c: Condition, resource: Option<Resource>, handlers: Handlers) {
    match c
    case ResourceAttributes(attrs) =>
      attrs == map[]
      || (resource.Some? && forall field :: field in attrs ==> FieldOf(resource.value, field) == attrs[field])
    case Other(key, config) => Registered(key) && handlers(key, config)
  }

  function Items(conditions: Option<seq<Condition>>): seq<Condition> {
    if conditions.Some? then conditions.value else []
  }

  predicate Satisfied(conditions: Option<seq<Condition>>, resource: Option<Resource>, handlers: Handlers) {
    forall c :: c in Items(conditions) ==> Holds(c, resource, handlers)
  }

  predicate Applies(d: Definition, action: string, resourceType: string) {
    (d.resourceType == resourceType || d.resourceType == "*") && action in d.actions
  }

  predicate Grants(
    d: Definition, action: string, resourceType: string, resource: Option<Resource>, handlers: Handlers)
  {
    Applies(d, action, resourceType) && Satisfied(d.conditions, resource, handlers)
  }
}
