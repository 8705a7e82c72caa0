/** The policy store and the routes that change it: the policy table, its assignments, its history log, and the
per-user cache the authorization checks read.

Every route call is one atomic step. Policy lists are sets, because the query that builds them has no ORDER BY;
each holds what a check reads of a policy, its definition. */
module PolicyStore {
  import opened Wrappers
  import opened Policies

  type Email = string

  const SELF_SERVICE := "self_service"
  const USER_ADMINISTRATION := "user_administration"
  const SYSTEM_SUPERUSER := "system_superuser"

  const CACHE_TTL := 60

  predicate Protected(name: string) {
    name == SELF_SERVICE || name == USER_ADMINISTRATION || name == SYSTEM_SUPERUSER
  }

  // ----- columns and edits -----

  datatype Column = Name | Description | Actions | ResourceType | Conditions | Active

  /** One `setattr` of an update. */
  datatype Change =
    | SetName(name: string)
    | SetDescription(description: Option<string>)
    | SetActions(actions: seq<string>)
    | SetResourceType(resourceType: string)
    | SetConditions(conditions: Option<seq<Condition>>)
    | SetActive(active: bool)

  function ColumnOf(c: Change): Column {
    match c
    case SetName(_) => Name
    case SetDescription(_) => Description
    case SetActions(_) => Actions
    case SetResourceType(_) => ResourceType
    case SetConditions(_) => Conditions
    case SetActive(_) => Active
  }

  function Write(d: Definition, c: Change): Definition {
    match c
    case SetName(name) => d.(name := name)
    case SetDescription(description) => d.(description := description)
    case SetActions(actions) => d.(actions := actions)
    case SetResourceType(resourceType) => d.(resourceType := resourceType)
    case SetConditions(conditions) => d.(conditions := conditions)
    case SetActive(active) => d.(active := active)
  }

  function WriteAll(d: Definition, cs: seq<Change>): Definition {
    if cs == [] then d else Write(WriteAll(d, cs[..|cs| - 1]), cs[|cs| - 1])
  }

  predicate Differs(column: Column, a: Definition, b: Definition) {
    match column
    case Name => a.name != b.name
    case Description => a.description != b.description
    case Actions => a.actions != b.actions
    case ResourceType => a.resourceType != b.resourceType
    case Conditions => a.conditions != b.conditions
    case Active => a.active != b.active
  }

  /** The updated columns whose value really changed, in request order. */
  function ChangedFields(cs: seq<Change>, before: Definition, after: Definition): seq<Column> {
    if cs == [] then []
    else
      ChangedFields(cs[..|cs| - 1], before, after)
      + if Differs(ColumnOf(cs[|cs| - 1]), before, after) then [ColumnOf(cs[|cs| - 1])] else []
  }

  /** An edit that restores a whole definition. */
  function Restoring(d: Definition): seq<Change> {
    [SetName(d.name), SetDescription(d.description), SetActions(d.actions), SetResourceType(d.resourceType),
     SetConditions(d.conditions), SetActive(d.active)]
  }

  predicate Touches(cs: seq<Change>, column: Column) { exists c :: c in cs && ColumnOf(c) == column }

  // ----- state -----

  datatype Kind = Created | Updated | RolledBack | Deleted

  datatype Entry = Entry(
    policyId: nat, policyName: string, kind: Kind, previous: Option<Definition>, next: Option<Definition>,
    changed: Option<seq<Column>>, author: Email)

  datatype Cached = Cached(list: set<Definition>, deadline: nat)

  /** The columns of a user that the policy routes and the account routes read. */
  datatype Account = Account(id: nat, system: bool, active: bool)

  /** `sensitive` is the fixed vocabulary of guarded actions. Assignments are (user id, policy id). `inFlight`
  holds the lists that some reader got from the database and may yet write to the cache. */
  datatype State = State(
    now: nat, sensitive: set<string>, users: map<Email, Account>, nextUser: nat, policies: map<nat, Definition>,
    nextPolicy: nat, held: set<(nat, nat)>, history: seq<Entry>, cache: map<Email, Cached>,
    inFlight: set<(Email, set<Definition>)>)

  datatype Outcome = Ok | Unauthenticated | Forbidden | Missing | Conflict | Invalid

  // ----- reading policies -----

  /** The join: every active policy assigned to the account with this address. */
  function Query(s: State, email: Email): set<Definition> {
    set p | p in s.policies && email in s.users && (s.users[email].id, p) in s.held && s.policies[p].active ::
      s.policies[p]
  }

  predicate Hit(s: State, email: Email) { email in s.cache && s.now < s.cache[email].deadline }

  /** What `get_active_policies_for_user` returns. */
  function ListFor(s: State, email: Email): set<Definition> {
    if Hit(s, email) then s.cache[email].list else Query(s, email)
  }

  /** The store after that read: a miss fills the cache. */
  function Fetch(s: State, email: Email): State {
    if Hit(s, email) then s else s.(cache := s.cache[email := Cached(Query(s, email), s.now + CACHE_TTL)])
  }

  predicate Allows(list: set<Definition>, action: string, resourceType: string, handlers: Handlers) {
    exists d :: d in list && Grants(d, action, resourceType, None, handlers)
  }

  /** Every guarded action among `actions` is one the caller already holds on that resource type. */
  predicate MayGrant(s: State, email: Email, actions: seq<string>, resourceType: string, handlers: Handlers) {
    forall a :: a in actions && a in s.sensitive ==> Allows(ListFor(s, email), a, resourceType, handlers)
  }

  ghost predicate Named(policies: map<nat, Definition>, p: nat, name: string) {
    p in policies && policies[p].name == name
  }

  ghost function FindByName(policies: map<nat, Definition>, name: string): (r: Option<nat>)
    ensures r.None? ==> forall p :: !Named(policies, p, name)
    ensures r.Some? ==> Named(policies, r.value, name)
  {
    if exists p :: Named(policies, p, name) then
      var p :| Named(policies, p, name);
      Some(p)
    else
      None
  }

  function Holders(s: State, p: nat): set<(nat, nat)> { set a | a in s.held && a.1 == p }

  // ----- what a request does to the store -----

  /** The one write a request ends in, if its guards let it through. */
  datatype Call =
    | Refuse(outcome: Outcome)
    | Insert(definition: Definition, author: Email)
    | Rewrite(policy: nat, changes: seq<Change>, kind: Kind, author: Email)
    | Remove(policy: nat, author: Email)
    | Assign(email: Email, policy: nat, author: Email)
    | Unassign(email: Email, policy: nat)
    | Join(email: Email, baseline: Option<nat>)
    | Leave(email: Email)
    | Flag(email: Email, system: bool, active: bool)
    | Start(email: Email)
    | Fill(email: Email, list: set<Definition>)
    | Wait(seconds: nat)

  function Log(s: State, e: Entry): State { s.(history := s.history + [e]) }

  predicate Possible(s: State, call: Call) {
    match call
    case Rewrite(p, _, kind, _) => p in s.policies && (kind == Updated || kind == RolledBack)
    case Remove(p, _) => p in s.policies
    case Assign(email, p, _) => email in s.users && p in s.policies
    case Unassign(email, p) => email in s.users && p in s.policies && (s.users[email].id, p) in s.held
    case Join(email, baseline) => email !in s.users && (baseline.Some? ==> baseline.value in s.policies)
    case Leave(email) => email in s.users
    case Flag(email, _, _) => email in s.users
    case Fill(email, list) => (email, list) in s.inFlight
    case _ => true
  }

  function Inserted(s: State, d: Definition, author: Email): State {
    Log(s.(policies := s.policies[s.nextPolicy := d], nextPolicy := s.nextPolicy + 1),
        Entry(s.nextPolicy, d.name, Created, None, Some(d), None, author))
  }

  function Rewritten(s: State, p: nat, cs: seq<Change>, kind: Kind, author: Email): State
    requires p in s.policies
  {
    var before, after := s.policies[p], WriteAll(s.policies[p], cs);
    Log(s.(policies := s.policies[p := after], cache := map[]),
        Entry(p, after.name, kind, Some(before), Some(after), Some(ChangedFields(cs, before, after)), author))
  }

  /** Deleting a policy cascades to its assignments. */
  function Removed(s: State, p: nat, author: Email): State
    requires p in s.policies
  {
    Log(s.(policies := s.policies - {p}, held := s.held - Holders(s, p), cache := map[]),
        Entry(p, s.policies[p].name, Deleted, Some(s.policies[p]), None, None, author))
  }

  /** Assigning a policy already held is a no-op, without invalidation. */
  function Assigned(s: State, email: Email, p: nat): State
    requires email in s.users
  {
    if (s.users[email].id, p) in s.held then s
    else s.(held := s.held + {(s.users[email].id, p)}, cache := s.cache - {email})
  }

  function Unassigned(s: State, email: Email, p: nat): State
    requires email in s.users
  {
    s.(held := s.held - {(s.users[email].id, p)}, cache := s.cache - {email})
  }

  /** A new account gets the baseline policy, without touching the cache. */
  function Joined(s: State, email: Email, baseline: Option<nat>): State {
    s.(users := s.users[email := Account(s.nextUser, false, true)], nextUser := s.nextUser + 1,
       held := s.held + if baseline.Some? then {(s.nextUser, baseline.value)} else {})
  }

  /** A purge removes the account row; its assignments cascade, its cache entry stays. */
  function Left(s: State, email: Email): State
    requires email in s.users
  {
    s.(users := s.users - {email}, held := (set a | a in s.held && a.0 != s.users[email].id))
  }

  function Flagged(s: State, email: Email, system: bool, active: bool): State
    requires email in s.users
  {
    s.(users := s.users[email := s.users[email].(system := system, active := active)])
  }

  function Apply(s: State, call: Call): State
    requires Possible(s, call)
  {
    match call
    case Refuse(_) => s
    case Insert(d, author) => Inserted(s, d, author)
    case Rewrite(p, cs, kind, author) => Rewritten(s, p, cs, kind, author)
    case Remove(p, author) => Removed(s, p, author)
    case Assign(email, p, _) => Assigned(s, email, p)
    case Unassign(email, p) => Unassigned(s, email, p)
    case Join(email, baseline) => Joined(s, email, baseline)
    case Leave(email) => Left(s, email)
    case Flag(email, system, active) => Flagged(s, email, system, active)
    case Start(email) => s.(inFlight := s.inFlight + {(email, Query(s, email))})
    case Fill(email, list) => s.(cache := s.cache[email := Cached(list, s.now + CACHE_TTL)])
    case Wait(seconds) => s.(now := s.now + seconds)
  }

  // ----- the requests -----

  /** The caller of a route, with what the condition handlers answer for the route's own check (`here`, with
  the request context) and for the grant guard (`bare`, without it). */
  datatype Caller = Caller(email: Email, here: Handlers, bare: Handlers)

  /** `wellFormed` is the verdict of `validate_conditions`, a check of the submitted block alone. `StartRead`
  and `FinishRead` are the two halves of a read that other requests overlap. */
  datatype Step =
    | CreatePolicy(caller: Caller, wellFormed: bool, definition: Definition)
    | UpdatePolicy(caller: Caller, wellFormed: bool, name: string, changes: seq<Change>)
    | RollbackPolicy(caller: Caller, wellFormed: bool, name: string, entry: nat)
    | DeletePolicy(caller: Caller, name: string)
    | AssignPolicy(caller: Caller, email: Email, name: string)
    | RevokePolicy(caller: Caller, email: Email, name: string)
    | ReadPolicies(email: Email)
    | StartRead(email: Email)
    | FinishRead(email: Email, list: set<Definition>)
    | SignUp(email: Email)
    | PurgeUser(caller: Caller, email: Email)
    | DeactivateUser(caller: Caller, email: Email)
    | ReactivateUser(caller: Caller, email: Email)
    | MakeSystem(caller: Caller, email: Email)
    | Tick(seconds: nat)

  /** `get_current_user`: the account exists and is active. */
  predicate CanCall(s: State, email: Email) { email in s.users && s.users[email].active }

  /** Authentication and the route's permission. */
  function Refusal(s: State, caller: Caller, action: string, resourceType: string): Option<Outcome> {
    if caller.email !in s.users then Some(Unauthenticated)
    else if !s.users[caller.email].active then Some(Forbidden)
    else if !Allows(ListFor(s, caller.email), action, resourceType, caller.here) then Some(Forbidden)
    else None
  }

  ghost function Create(s: State, caller: Caller, wellFormed: bool, d: Definition): Call {
    if !wellFormed then Refuse(Invalid)
    else if FindByName(s.policies, d.name).Some? then Refuse(Conflict)
    else if !MayGrant(s, caller.email, d.actions, d.resourceType, caller.bare) then Refuse(Forbidden)
    else Insert(d.(active := true), caller.email)
  }

  /** Why an edit of policy `p` is turned away, if it is. */
  ghost function UpdateRefusal(s: State, caller: Caller, wellFormed: bool, p: nat, cs: seq<Change>): Option<Outcome>
    requires p in s.policies
  {
    var before, after := s.policies[p], WriteAll(s.policies[p], cs);
    if Touches(cs, Conditions) && !wellFormed then Some(Invalid)
    else if Protected(before.name) && after.name != before.name then Some(Forbidden)
    else if after.name != before.name && FindByName(s.policies, after.name).Some? then Some(Conflict)
    else if Protected(before.name) && Touches(cs, Active) && !after.active then Some(Forbidden)
    else if (Touches(cs, Actions) || Touches(cs, ResourceType))
      && !MayGrant(s, caller.email, after.actions, after.resourceType, caller.bare) then Some(Forbidden)
    else None
  }

  ghost function Update(s: State, caller: Caller, wellFormed: bool, name: string, cs: seq<Change>): Call {
    match FindByName(s.policies, name)
    case None => Refuse(Missing)
    case Some(p) =>
      var refused := UpdateRefusal(s, caller, wellFormed, p, cs);
      if refused.Some? then Refuse(refused.value) else Rewrite(p, cs, Updated, caller.email)
  }

  /** The definition a history entry stands for. */
  function DefinitionOf(e: Entry): Option<Definition> { if e.next.Some? then e.next else e.previous }

  ghost function Rollback(s: State, caller: Caller, wellFormed: bool, name: string, k: nat): Call {
    match FindByName(s.policies, name)
    case None => Refuse(Missing)
    case Some(p) =>
      if k >= |s.history| || s.history[k].policyName != name || DefinitionOf(s.history[k]).None? then Refuse(Missing)
      else
        var current, target := s.policies[p], DefinitionOf(s.history[k]).value;
        if !wellFormed then Refuse(Invalid)
        else if Protected(current.name) && target.name != current.name then Refuse(Forbidden)
        else if Protected(current.name) && !target.active then Refuse(Forbidden)
        else if !MayGrant(s, caller.email, target.actions, target.resourceType, caller.bare) then Refuse(Forbidden)
        else Rewrite(p, Restoring(target), RolledBack, caller.email)
  }

  ghost function Delete(s: State, caller: Caller, name: string): Call {
    match FindByName(s.policies, name)
    case None => Refuse(Missing)
    case Some(p) => if Protected(name) then Refuse(Forbidden) else Remove(p, caller.email)
  }

  ghost function AssignTo(s: State, caller: Caller, email: Email, name: string): Call {
    if email !in s.users then Refuse(Missing)
    else
      match FindByName(s.policies, name)
      case None => Refuse(Missing)
      case Some(p) =>
        if MayGrant(s, caller.email, s.policies[p].actions, s.policies[p].resourceType, caller.bare) then
          Assign(email, p, caller.email)
        else
          Refuse(Forbidden)
  }

  ghost function RevokeFrom(s: State, email: Email, name: string): Call {
    if email !in s.users then Refuse(Missing)
    else
      match FindByName(s.policies, name)
      case None => Refuse(Missing)
      case Some(p) =>
        if name == SYSTEM_SUPERUSER && |Holders(s, p)| <= 1 then Refuse(Conflict)
        else if (s.users[email].id, p) !in s.held then Refuse(Missing)
        else Unassign(email, p)
  }

  /** The guards that soft delete and purge share. */
  function RemovalRefusal(s: State, caller: Caller, email: Email): Option<Outcome> {
    if email !in s.users then Some(Missing)
    else if s.users[email].system || email == caller.email then Some(Forbidden)
    else None
  }

  function Purge(s: State, caller: Caller, email: Email): Call {
    var refused := RemovalRefusal(s, caller, email);
    if refused.Some? then Refuse(refused.value) else Leave(email)
  }

  function Deactivate(s: State, caller: Caller, email: Email): Call {
    var refused := RemovalRefusal(s, caller, email);
    if refused.Some? then Refuse(refused.value) else Flag(email, s.users[email].system, false)
  }

  function Reactivate(s: State, email: Email): Call {
    if email !in s.users then Refuse(Missing)
    else if s.users[email].active then Refuse(Invalid)
    else Flag(email, s.users[email].system, true)
  }

  /** Assigning the system role, which takes a second permission. */
  function Promote(s: State, caller: Caller, email: Email): Call {
    if email !in s.users then Refuse(Missing)
    else if s.users[email].system then Refuse(Forbidden)
    else if !Allows(ListFor(s, caller.email), "users:assign_system_role", "users", caller.here) then Refuse(Forbidden)
    else Flag(email, true, s.users[email].active)
  }

  /** The caller of a guarded route and the permission that route asks for. */
  datatype Gate = Gate(caller: Caller, action: string, resourceType: string)

  function GateOf(step: Step): Option<Gate> {
    match step
    case CreatePolicy(caller, _, _) => Some(Gate(caller, "policies:create", "policies"))
    case UpdatePolicy(caller, _, _, _) => Some(Gate(caller, "policies:update", "policies"))
    case RollbackPolicy(caller, _, _, _) => Some(Gate(caller, "policies:update", "policies"))
    case DeletePolicy(caller, _) => Some(Gate(caller, "policies:delete", "policies"))
    case AssignPolicy(caller, _, _) => Some(Gate(caller, "policies:assign", "policies"))
    case RevokePolicy(caller, _, _) => Some(Gate(caller, "policies:revoke", "policies"))
    case PurgeUser(caller, _) => Some(Gate(caller, "users:purge", "users"))
    case DeactivateUser(caller, _) => Some(Gate(caller, "users:delete_any", "users"))
    case ReactivateUser(caller, _) => Some(Gate(caller, "users:reactivate", "users"))
    case MakeSystem(caller, _) => Some(Gate(caller, "users:assign_role", "users"))
    case _ => None
  }

  /** The address whose policy list the request reads first. */
  function Reader(step: Step): Option<Email> {
    if GateOf(step).Some? then Some(GateOf(step).value.caller.email)
    else if step.ReadPolicies? then Some(step.email)
    else None
  }

  /** The store once that list is read. Only an active account gets as far as reading. */
  function Entered(s: State, step: Step): State {
    if Reader(step).Some? && CanCall(s, Reader(step).value) then Fetch(s, Reader(step).value) else s
  }

  /** The guards of a request, past its permission check. */
  ghost function Body(s: State, step: Step): Call {
    match step
    case CreatePolicy(caller, wellFormed, d) => Create(s, caller, wellFormed, d)
    case UpdatePolicy(caller, wellFormed, name, cs) => Update(s, caller, wellFormed, name, cs)
    case RollbackPolicy(caller, wellFormed, name, k) => Rollback(s, caller, wellFormed, name, k)
    case DeletePolicy(caller, name) => Delete(s, caller, name)
    case AssignPolicy(caller, email, name) => AssignTo(s, caller, email, name)
    case RevokePolicy(_, email, name) => RevokeFrom(s, email, name)
    case ReadPolicies(_) => Wait(0)
    case StartRead(email) => if Hit(s, email) then Wait(0) else Start(email)
    case FinishRead(email, list) => if (email, list) in s.inFlight then Fill(email, list) else Wait(0)
    case SignUp(email) =>
      if email in s.users then Refuse(Conflict) else Join(email, FindByName(s.policies, SELF_SERVICE))
    case PurgeUser(caller, email) => Purge(s, caller, email)
    case DeactivateUser(caller, email) => Deactivate(s, caller, email)
    case ReactivateUser(_, email) => Reactivate(s, email)
    case MakeSystem(caller, email) => Promote(s, caller, email)
    case Tick(seconds) => Wait(seconds)
  }

  /** Whether the request is turned away before its own guards, and with what answer. */
  function Turned(s: State, step: Step): Option<Outcome> {
    var gate := GateOf(step);
    if gate.Some? then Refusal(s, gate.value.caller, gate.value.action, gate.value.resourceType) else None
  }

  ghost function Decide(s: State, step: Step): Call {
    if Turned(s, step).Some? then Refuse(Turned(s, step).value) else Body(s, step)
  }

  predicate EditsPolicies(step: Step) {
    step.CreatePolicy? || step.UpdatePolicy? || step.RollbackPolicy? || step.DeletePolicy?
  }

  lemma EditIsPossible(s: State, step: Step)
    requires EditsPolicies(step)
    ensures Possible(s, Body(s, step))
  {
  }

  lemma OtherRequestIsPossible(s: State, step: Step)
    requires !EditsPolicies(step)
    ensures Possible(s, Body(s, step))
  {
  }

  lemma DecidesPossibly(s: State, step: Step)
    ensures Possible(s, Decide(s, step))
  {
    if EditsPolicies(step) { EditIsPossible(s, step); } else { OtherRequestIsPossible(s, step); }
  }

  function Answer(s: State, call: Call): (State, Outcome)
    requires Possible(s, call)
  {
    (Apply(s, call), if call.Refuse? then call.outcome else Ok)
  }

  ghost function Do(s: State, step: Step): (State, Outcome) {
    DecidesPossibly(Entered(s, step), step);
    Answer(Entered(s, step), Decide(Entered(s, step), step))
  }

  lemma ReadingChangesNoAnswer(s: State, step: Step)
    requires GateOf(step).Some?
    ensures var gate := GateOf(step).value;
      Turned(Entered(s, step), step) == Refusal(s, gate.caller, gate.action, gate.resourceType)
  {
  }

  /** A gated request is turned away, having only read its caller's list, or goes on to its own guards. */
  lemma GateDecides(s: State, step: Step)
    ensures var entered := Entered(s, step);
      && Possible(entered, Body(entered, step))
      && Do(s, step) == match Turned(entered, step)
         case Some(outcome) => (entered, outcome)
         case None => Answer(entered, Body(entered, step))
  {
    var entered := Entered(s, step);
    if EditsPolicies(step) { EditIsPossible(entered, step); } else { OtherRequestIsPossible(entered, step); }
  }

  ghost function Next(s: State, step: Step): State { Do(s, step).0 }

  ghost function Run(s: State, steps: seq<Step>): State
    decreases |steps|
  {
    if steps == [] then s else Run(Next(s, steps[0]), steps[1..])
  }
}
