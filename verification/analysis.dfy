/** An application as the macro sees it, the list of its resource accesses, and the check of that list. */
module Analysis {
  import opened Options

  // Identifiers and type names only matter up to equality.
  type Name = nat
  type TypeName = nat

  datatype Access = Exclusive | Shared

  datatype Kind = Idle | Hardware(binds: Name) | Software

  /** `#[local]` resources are external; the others are declared in the task. */
  datatype Task = Task(
    name: Name,
    kind: Kind,
    declaredPriority: nat,
    shared: seq<(Name, Access)>,
    locals: seq<(Name, bool)>)
  {
    /** `idle` runs at priority 0 whatever it declares. */
    function Priority(): nat {
      if kind.Idle? then 0 else declaredPriority
    }
  }

  datatype Resource = Resource(ty: TypeName, lockFree: bool)

  datatype App = App(
    initLocals: seq<(Name, bool)>,
    idle: Option<Task>,
    hardware: seq<Task>,
    software: seq<Task>,
    sharedResources: map<Name, Resource>,
    localResources: set<Name>,
    dispatchers: set<Name>)

  /**
  `idle`, the hardware tasks and the software tasks, in the order of the access iterator.  The
  acceptance rules list `init` first and software before hardware; no rule depends on the order.
  */
  function Tasks(app: App): seq<Task> {
    (if app.idle.Some? then [app.idle.value] else []) + app.hardware + app.software
  }

  /** Where resources are used: in `init`, or in one of the tasks. */
  datatype Place = InInit | InIdle | InHardware(i: nat) | InSoftware(i: nat)

  ghost function TaskAt(app: App, p: Place): Option<Task> {
    match p
    case InInit => None
    case InIdle => app.idle
    case InHardware(i) => if i < |app.hardware| then Some(app.hardware[i]) else None
    case InSoftware(i) => if i < |app.software| then Some(app.software[i]) else None
  }

  ghost function LocalsAt(app: App, p: Place): seq<(Name, bool)> {
    if p.InInit? then app.initLocals else if TaskAt(app, p).Some? then TaskAt(app, p).value.locals else []
  }

  ghost predicate UsedAt(app: App, p: Place, r: Name, a: Access) {
    TaskAt(app, p).Some? && (r, a) in TaskAt(app, p).value.shared
  }

  /** The place of the `k`-th task. */
  ghost function PlaceOf(app: App, k: nat): Place {
    var n := if app.idle.Some? then 1 else 0;
    if k < n then InIdle else if k < n + |app.hardware| then InHardware(k - n) else InSoftware(k - n - |app.hardware|)
  }

  /** Every place but `init` is that of one task, and every task has its own. */
  lemma PlacesAreTasks(app: App)
    ensures forall k :: 0 <= k < |Tasks(app)| ==> TaskAt(app, PlaceOf(app, k)) == Some(Tasks(app)[k])
    ensures forall j, k :: 0 <= j < k < |Tasks(app)| ==> PlaceOf(app, j) != PlaceOf(app, k)
    ensures forall p: Place :: TaskAt(app, p).Some? ==> exists k: nat :: k < |Tasks(app)| && PlaceOf(app, k) == p
  {
    var n: nat := if app.idle.Some? then 1 else 0;
    forall p: Place | TaskAt(app, p).Some? ensures exists k: nat :: k < |Tasks(app)| && PlaceOf(app, k) == p {
      var k: nat := if p.InHardware? then n + p.i else if p.InSoftware? then n + |app.hardware| + p.i else 0;
      assert k < |Tasks(app)| && PlaceOf(app, k) == p;
    }
  }

  lemma TasksAtPlaces(app: App, t: Task)
    ensures t in Tasks(app) <==> exists p: Place :: TaskAt(app, p) == Some(t)
  {
    PlacesAreTasks(app);
    if t in Tasks(app) {
      var k: nat :| k < |Tasks(app)| && Tasks(app)[k] == t;
      assert TaskAt(app, PlaceOf(app, k)) == Some(t);
    }
    if p: Place :| TaskAt(app, p) == Some(t) {
      var k: nat :| k < |Tasks(app)| && PlaceOf(app, k) == p;
      assert Tasks(app)[k] == t;
    }
  }

  datatype Use = Use(priority: Option<nat>, name: Name, access: Access)

  function UsesOf(p: nat, shared: seq<(Name, Access)>): (us: seq<Use>) {
    if shared == [] then [] else [Use(Some(p), shared[0].0, shared[0].1)] + UsesOf(p, shared[1..])
  }

  function UsesOfAll(tasks: seq<Task>): seq<Use> {
    if tasks == [] then [] else UsesOf(tasks[0].Priority(), tasks[0].shared) + UsesOfAll(tasks[1..])
  }

  /** `App::shared_resource_accesses`. */
  function Accesses(app: App): seq<Use> {
    UsesOfAll(Tasks(app))
  }

  lemma {:induction false} UsesOfMembers(p: nat, shared: seq<(Name, Access)>, u: Use)
    ensures u in UsesOf(p, shared) <==> u.priority == Some(p) && (u.name, u.access) in shared
  {
    if shared == [] {
    } else {
      UsesOfMembers(p, shared[1..], u);
      assert shared == [shared[0]] + shared[1..];
    }
  }

  /** An access of the application is an access declared by one of its tasks, at its priority. */
  lemma {:induction false} UsesOfAllMembers(tasks: seq<Task>, u: Use)
    ensures u in UsesOfAll(tasks)
       <==> exists t :: t in tasks && u.priority == Some(t.Priority()) && (u.name, u.access) in t.shared
  {
    if tasks == [] {
    } else {
      UsesOfMembers(tasks[0].Priority(), tasks[0].shared, u);
      UsesOfAllMembers(tasks[1..], u);
      assert tasks == [tasks[0]] + tasks[1..];
    }
  }

  /** How many accesses the tasks before the `t`-th one declare. */
  function Before(tasks: seq<Task>, t: nat): nat
    requires t <= |tasks|
  {
    if t == 0 then 0 else |tasks[0].shared| + Before(tasks[1..], t - 1)
  }

  lemma {:induction false} UsesOfAt(p: nat, shared: seq<(Name, Access)>)
    ensures |UsesOf(p, shared)| == |shared|
    ensures forall k :: 0 <= k < |shared| ==> UsesOf(p, shared)[k] == Use(Some(p), shared[k].0, shared[k].1)
  {
    if shared == [] {
    } else {
      UsesOfAt(p, shared[1..]);
    }
  }

  /** Every declared access is listed once, task after task and in the order of its declaration. */
  lemma {:induction false} UsesInOrder(tasks: seq<Task>, t: nat, k: nat)
    requires t < |tasks| && k < |tasks[t].shared|
    ensures Before(tasks, t) + k < |UsesOfAll(tasks)| == Before(tasks, |tasks|)
    ensures UsesOfAll(tasks)[Before(tasks, t) + k]
         == Use(Some(tasks[t].Priority()), tasks[t].shared[k].0, tasks[t].shared[k].1)
  {
    UsesOfAt(tasks[0].Priority(), tasks[0].shared);
    UsesLength(tasks);
    if t > 0 {
      UsesInOrder(tasks[1..], t - 1, k);
    } else {
      UsesLength(tasks[1..]);
    }
  }

  lemma {:induction false} UsesLength(tasks: seq<Task>)
    ensures |UsesOfAll(tasks)| == Before(tasks, |tasks|)
  {
    if tasks == [] {
    } else {
      UsesOfAt(tasks[0].Priority(), tasks[0].shared);
      UsesLength(tasks[1..]);
    }
  }

  /** The kinds of the tasks are those of the lists they are in. */
  ghost predicate KindsFit(app: App) {
    && (app.idle.Some? ==> app.idle.value.kind.Idle?)
    && (forall t :: t in app.hardware ==> t.kind.Hardware?)
    && (forall t :: t in app.software ==> t.kind.Software?)
  }

  /** The accesses of an application: those of `idle` at 0, those of all other tasks at the declared priority. */
  lemma AccessesOfApp(app: App, u: Use)
    requires KindsFit(app)
    ensures u in Accesses(app)
       <==> || (app.idle.Some? && u.priority == Some(0) && (u.name, u.access) in app.idle.value.shared)
            || (exists t :: t in app.hardware + app.software && u.priority == Some(t.declaredPriority)
                            && (u.name, u.access) in t.shared)
  {
    UsesOfAllMembers(Tasks(app), u);
    assert forall t :: t in Tasks(app) <==>
      (app.idle.Some? && t == app.idle.value) || t in app.hardware + app.software;
  }

  /** A resource is accessed in some task iff it is declared there. */
  lemma AccessedAt(app: App, r: Name, a: Access)
    ensures (exists u :: u in Accesses(app) && u.name == r && u.access == a)
       <==> exists p: Place :: UsedAt(app, p, r, a)
    ensures forall u :: u in Accesses(app) ==> u.priority.Some?
  {
    forall u | u in Accesses(app)
      ensures u.priority.Some? && exists p: Place :: UsedAt(app, p, u.name, u.access)
    {
      UsesOfAllMembers(Tasks(app), u);
      var t :| t in Tasks(app) && u.priority == Some(t.Priority()) && (u.name, u.access) in t.shared;
      TasksAtPlaces(app, t);
      var p: Place :| TaskAt(app, p) == Some(t);
      assert UsedAt(app, p, u.name, u.access);
    }
    if p: Place :| UsedAt(app, p, r, a) {
      var t := TaskAt(app, p).value;
      TasksAtPlaces(app, t);
      var u := Use(Some(t.Priority()), r, a);
      UsesOfAllMembers(Tasks(app), u);
      assert u in Accesses(app) && u.name == r && u.access == a;
    }
  }

  // ----- check

  datatype CheckError =
    | UndeclaredShared(name: Name) | UndeclaredLocal(name: Name)
    | MixedAccess(name: Name) | DispatcherBound(name: Name)

  datatype CheckResult = Passed | Failed(error: CheckError)

  /** `App::local_resource_accesses`: the external locals of init and of every task. */
  function ExternalLocals(locals: seq<(Name, bool)>): seq<Name> {
    if locals == [] then [] else (if locals[0].1 then [locals[0].0] else []) + ExternalLocals(locals[1..])
  }

  function TaskLocals(tasks: seq<Task>): seq<Name> {
    if tasks == [] then [] else ExternalLocals(tasks[0].locals) + TaskLocals(tasks[1..])
  }

  function LocalAccesses(app: App): seq<Name> {
    ExternalLocals(app.initLocals) + TaskLocals(Tasks(app))
  }

  ghost predicate Mixed(uses: seq<Use>, r: Name) {
    (exists u :: u in uses && u.name == r && u.access.Shared?)
    && (exists u :: u in uses && u.name == r && u.access.Exclusive? && u.priority.Some?)
  }

  ghost predicate Declared(app: App) {
    forall u :: u in Accesses(app) ==> u.name in app.sharedResources
  }

  ghost predicate LocalsDeclared(app: App) {
    forall x :: x in LocalAccesses(app) ==> x in app.localResources
  }

  ghost predicate Unmixed(app: App) {
    forall u :: u in Accesses(app) ==> !Mixed(Accesses(app), u.name)
  }

  ghost predicate DispatchersFree(app: App) {
    forall i :: 0 <= i < |app.hardware| && app.hardware[i].kind.Hardware? ==>
      app.hardware[i].kind.binds !in app.dispatchers
  }

  // The same rules in terms of the places where resources are used.

  ghost predicate AllSharedDeclared(app: App) {
    forall p: Place, x, a :: UsedAt(app, p, x, a) ==> x in app.sharedResources
  }

  ghost predicate AllLocalsDeclared(app: App) {
    forall p: Place, x :: (x, true) in LocalsAt(app, p) ==> x in app.localResources
  }

  /** Resource `x` is shared in one place and locked in another, or the same. */
  ghost predicate MixedAt(app: App, x: Name) {
    (exists p: Place :: UsedAt(app, p, x, Shared)) && (exists p: Place :: UsedAt(app, p, x, Exclusive))
  }

  ghost predicate Listed(app: App, x: Name) {
    exists u :: u in Accesses(app) && u.name == x
  }

  ghost predicate UsedSomewhere(app: App, x: Name) {
    exists p: Place, a :: UsedAt(app, p, x, a)
  }

  lemma ListedIsUsed(app: App, x: Name)
    ensures Listed(app, x) <==> UsedSomewhere(app, x)
  {
    AccessedAt(app, x, Shared);
    AccessedAt(app, x, Exclusive);
    if u :| u in Accesses(app) && u.name == x {
      var p: Place :| UsedAt(app, p, x, u.access);
    }
    if p: Place, a :| UsedAt(app, p, x, a) {
      assert a == Shared || a == Exclusive;
    }
  }

  lemma DeclaredInPlaces(app: App)
    ensures Declared(app) <==> AllSharedDeclared(app)
    ensures forall x :: Listed(app, x) <==> UsedSomewhere(app, x)
  {
    forall x ensures Listed(app, x) <==> UsedSomewhere(app, x) {
      ListedIsUsed(app, x);
    }
    if !Declared(app) {
      var u :| u in Accesses(app) && u.name !in app.sharedResources;
      assert Listed(app, u.name);
    }
    if !AllSharedDeclared(app) {
      var p: Place, x, a :| UsedAt(app, p, x, a) && x !in app.sharedResources;
      assert UsedSomewhere(app, x) && Listed(app, x);
    }
  }

  lemma MixedInPlaces(app: App)
    ensures forall x :: Mixed(Accesses(app), x) <==> MixedAt(app, x)
    ensures Unmixed(app) <==> forall x :: !MixedAt(app, x)
  {
    forall x ensures Mixed(Accesses(app), x) <==> MixedAt(app, x) {
      AccessedAt(app, x, Shared);
      AccessedAt(app, x, Exclusive);
    }
  }

  lemma {:induction false} ExternalMembers(locals: seq<(Name, bool)>, x: Name)
    ensures x in ExternalLocals(locals) <==> (x, true) in locals
  {
    if locals == [] {
    } else {
      ExternalMembers(locals[1..], x);
      assert locals == [locals[0]] + locals[1..];
    }
  }

  lemma {:induction false} TaskLocalsMembers(tasks: seq<Task>, x: Name)
    ensures x in TaskLocals(tasks) <==> exists t :: t in tasks && (x, true) in t.locals
  {
    if tasks == [] {
    } else {
      ExternalMembers(tasks[0].locals, x);
      TaskLocalsMembers(tasks[1..], x);
      assert tasks == [tasks[0]] + tasks[1..];
    }
  }

  lemma LocalsInPlaces(app: App)
    ensures forall x :: x in LocalAccesses(app) <==> exists p: Place :: (x, true) in LocalsAt(app, p)
    ensures LocalsDeclared(app) <==> AllLocalsDeclared(app)
  {
    forall x ensures x in LocalAccesses(app) <==> exists p: Place :: (x, true) in LocalsAt(app, p) {
      ExternalMembers(app.initLocals, x);
      TaskLocalsMembers(Tasks(app), x);
      if (x, true) in app.initLocals { assert (x, true) in LocalsAt(app, InInit); }
      if t :| t in Tasks(app) && (x, true) in t.locals {
        TasksAtPlaces(app, t);
        var p: Place :| TaskAt(app, p) == Some(t);
        assert (x, true) in LocalsAt(app, p);
      }
      if p: Place :| (x, true) in LocalsAt(app, p) {
        if !p.InInit? { TasksAtPlaces(app, TaskAt(app, p).value); }
      }
    }
  }

  /** Passes exactly the well-declared applications, and names a culprit of the first rule broken. */
  method Check(app: App) returns (r: CheckResult)
    ensures r.Passed? <==>
              && AllSharedDeclared(app) && AllLocalsDeclared(app)
              && (forall x :: !MixedAt(app, x)) && DispatchersFree(app)
    ensures r.Failed? ==> match r.error
            case UndeclaredShared(x) =>
              x !in app.sharedResources && exists p: Place, a :: UsedAt(app, p, x, a)
            case UndeclaredLocal(x) =>
              && AllSharedDeclared(app)
              && x !in app.localResources && exists p: Place :: (x, true) in LocalsAt(app, p)
            case MixedAccess(x) => AllSharedDeclared(app) && AllLocalsDeclared(app) && MixedAt(app, x)
            case DispatcherBound(x) =>
              && AllSharedDeclared(app) && AllLocalsDeclared(app) && (forall y :: !MixedAt(app, y))
              && x in app.dispatchers && exists t :: t in app.hardware && t.kind == Hardware(x)
  {
    DeclaredInPlaces(app);
    LocalsInPlaces(app);
    MixedInPlaces(app);
    r := CheckAccesses(app);
    if r.Failed? && r.error.UndeclaredShared? { assert Listed(app, r.error.name); }
  }

  /** The four rules one after the other, on the lists of accesses. */
  method CheckAccesses(app: App) returns (r: CheckResult)
    ensures r.Passed? <==> Declared(app) && LocalsDeclared(app) && Unmixed(app) && DispatchersFree(app)
    ensures r.Failed? ==> match r.error
            case UndeclaredShared(x) =>
              x !in app.sharedResources && exists u :: u in Accesses(app) && u.name == x
            case UndeclaredLocal(x) => Declared(app) && x in LocalAccesses(app) && x !in app.localResources
            case MixedAccess(x) => Declared(app) && LocalsDeclared(app) && Mixed(Accesses(app), x)
            case DispatcherBound(x) =>
              && Declared(app) && LocalsDeclared(app) && Unmixed(app)
              && x in app.dispatchers && exists t :: t in app.hardware && t.kind == Hardware(x)
  {
    var uses := Accesses(app);
    for i := 0 to |uses|
      invariant forall k :: 0 <= k < i ==> uses[k].name in app.sharedResources
    {
      if uses[i].name !in app.sharedResources {
        assert uses[i] in uses;
        return Failed(UndeclaredShared(uses[i].name));
      }
    }
    var locals := LocalAccesses(app);
    for i := 0 to |locals|
      invariant forall k :: 0 <= k < i ==> locals[k] in app.localResources
    {
      if locals[i] !in app.localResources {
        return Failed(UndeclaredLocal(locals[i]));
      }
    }
    var exclusive := {};
    for i := 0 to |uses|
      invariant forall x :: x in exclusive <==>
                  exists k ::
                    0 <= k < i && uses[k].name == x && uses[k].access.Exclusive? && uses[k].priority.Some?
    {
      if uses[i].access.Exclusive? && uses[i].priority.Some? {
        exclusive := exclusive + {uses[i].name};
      }
    }
    for i := 0 to |uses|
      invariant forall k :: 0 <= k < i ==> !(uses[k].access.Shared? && uses[k].name in exclusive)
    {
      if uses[i].access.Shared? && uses[i].name in exclusive {
        assert uses[i] in uses;
        assert Mixed(uses, uses[i].name);
        return Failed(MixedAccess(uses[i].name));
      }
    }
    for i := 0 to |app.hardware|
      invariant forall k :: 0 <= k < i && app.hardware[k].kind.Hardware? ==>
                  app.hardware[k].kind.binds !in app.dispatchers
    {
      if app.hardware[i].kind.Hardware? && app.hardware[i].kind.binds in app.dispatchers {
        return Failed(DispatcherBound(app.hardware[i].kind.binds));
      }
    }
    return Passed;
  }
}
