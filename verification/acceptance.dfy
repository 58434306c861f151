/** The rules by which the analysis rejects an application, beyond the access check. */
module Acceptance {
  import opened Options
  import opened Analysis
  import opened LocalResources

  datatype Rejection =
    | AsyncLockFree(r: Name) | LockFreePriorities(r: Name)
    | LocalClash(r: Name) | ZeroPriorityWithIdle(task: Name)

  datatype TaskUse = TaskUse(name: Name, priority: nat, software: bool)

  function TaskUsesOf(t: Task, shared: seq<(Name, Access)>): seq<TaskUse> {
    if shared == [] then []
    else [TaskUse(shared[0].0, t.Priority(), t.kind.Software?)] + TaskUsesOf(t, shared[1..])
  }

  /** All uses of shared resources, task after task. */
  function TaskUses(tasks: seq<Task>): seq<TaskUse> {
    if tasks == [] then [] else TaskUsesOf(tasks[0], tasks[0].shared) + TaskUses(tasks[1..])
  }

  ghost predicate Declares(t: Task, r: Name) {
    exists a :: (r, a) in t.shared
  }

  ghost predicate UsedAtDifferentPriorities(uses: seq<TaskUse>, r: Name) {
    exists i, j ::
      0 <= i < j < |uses| && uses[i].name == r && uses[j].name == r && uses[i].priority != uses[j].priority
  }

  ghost predicate UsedBySoftware(uses: seq<TaskUse>, r: Name) {
    exists i :: 0 <= i < |uses| && uses[i].name == r && uses[i].software
  }

  /** One lock-free resource: the uses seen so far are compared with the previous one only. */
  method CheckLockFree(r: Name, uses: seq<TaskUse>) returns (errors: set<Rejection>)
    ensures errors <= {AsyncLockFree(r), LockFreePriorities(r)}
    ensures AsyncLockFree(r) in errors <==> UsedBySoftware(uses, r)
    ensures LockFreePriorities(r) in errors <==> UsedAtDifferentPriorities(uses, r)
  {
    errors := {};
    var previous: Option<nat> := None;
    for i := 0 to |uses|
      invariant errors <= {AsyncLockFree(r), LockFreePriorities(r)}
      invariant AsyncLockFree(r) in errors <==> UsedBySoftware(uses[..i], r)
      invariant LockFreePriorities(r) in errors <==> UsedAtDifferentPriorities(uses[..i], r)
      invariant previous.None? ==> forall k :: 0 <= k < i ==> uses[k].name != r
      invariant previous.Some? ==>
                  exists k :: 0 <= k < i && uses[k].name == r && uses[k].priority == previous.value
      invariant LockFreePriorities(r) !in errors ==>
                  forall k :: 0 <= k < i && uses[k].name == r ==> previous == Some(uses[k].priority)
    {
      var u := uses[i];
      ghost var seen := uses[..i + 1];
      assert seen[i] == u && forall k :: 0 <= k < i ==> seen[k] == uses[..i][k];
      if u.name == r {
        if u.software {
          errors := errors + {AsyncLockFree(r)};
        }
        if previous.Some? && previous.value != u.priority {
          ghost var k :| 0 <= k < i && uses[k].name == r && uses[k].priority == previous.value;
          assert seen[k].name == r && seen[k].priority != seen[i].priority;
          errors := errors + {LockFreePriorities(r)};
        }
        previous := Some(u.priority);
      }
    }
    assert uses[..|uses|] == uses;
  }

  ghost predicate LockFreeSafe(tasks: seq<Task>, r: Name) {
    !UsedBySoftware(TaskUses(tasks), r) && !UsedAtDifferentPriorities(TaskUses(tasks), r)
  }

  /** What the scheduler relies on: every lock-free resource is safe without locks. */
  ghost predicate LockFreeAccepted(app: App) {
    forall r :: r in app.sharedResources && app.sharedResources[r].lockFree ==> LockFreeSafe(Tasks(app), r)
  }

  ghost predicate ListsLockFree(app: App, lockFree: seq<Name>) {
    forall r :: r in lockFree <==> r in app.sharedResources && app.sharedResources[r].lockFree
  }

  // The rules for lock-free resources in terms of the places that use them.

  ghost predicate Sharer(app: App, p: Place, r: Name) {
    TaskAt(app, p).Some? && Declares(TaskAt(app, p).value, r)
  }

  ghost predicate UsedByAsync(app: App, r: Name) {
    exists p: Place :: Sharer(app, p, r) && TaskAt(app, p).value.kind.Software?
  }

  ghost predicate UsedAcrossPriorities(app: App, r: Name) {
    exists p: Place, q: Place ::
      Sharer(app, p, r) && Sharer(app, q, r) && TaskAt(app, p).value.Priority() != TaskAt(app, q).value.Priority()
  }

  lemma {:induction false} TaskUsesOfMembers(t: Task, shared: seq<(Name, Access)>, u: TaskUse)
    ensures u in TaskUsesOf(t, shared)
       <==> u.priority == t.Priority() && u.software == t.kind.Software? && exists a :: (u.name, a) in shared
  {
    if shared == [] {
    } else {
      TaskUsesOfMembers(t, shared[1..], u);
      assert shared == [shared[0]] + shared[1..];
      if u.name == shared[0].0 { assert (u.name, shared[0].1) in shared; }
      if a :| (u.name, a) in shared { assert (u.name, a) == shared[0] || (u.name, a) in shared[1..]; }
    }
  }

  ghost predicate UseBy(t: Task, u: TaskUse) {
    Declares(t, u.name) && u.priority == t.Priority() && u.software == t.kind.Software?
  }

  /** Which uses of shared resources the rules see: those of every task. */
  lemma {:induction false} TaskUsesMembers(tasks: seq<Task>, u: TaskUse)
    ensures u in TaskUses(tasks) <==> exists t :: t in tasks && UseBy(t, u)
  {
    if tasks == [] {
    } else {
      TaskUsesOfMembers(tasks[0], tasks[0].shared, u);
      TaskUsesMembers(tasks[1..], u);
      assert tasks == [tasks[0]] + tasks[1..];
      assert UseBy(tasks[0], u) <==> u in TaskUsesOf(tasks[0], tasks[0].shared);
      if UseBy(tasks[0], u) { assert tasks[0] in tasks; }
      if t :| t in tasks && UseBy(t, u) { assert t == tasks[0] || t in tasks[1..]; }
    }
  }

  lemma UseAtPlace(app: App, u: TaskUse) returns (p: Place)
    requires u in TaskUses(Tasks(app))
    ensures Sharer(app, p, u.name) && UseBy(TaskAt(app, p).value, u)
  {
    TaskUsesMembers(Tasks(app), u);
    var t :| t in Tasks(app) && UseBy(t, u);
    TasksAtPlaces(app, t);
    p :| TaskAt(app, p) == Some(t);
  }

  lemma PlaceHasUse(app: App, p: Place, r: Name) returns (i: nat)
    requires Sharer(app, p, r)
    ensures i < |TaskUses(Tasks(app))| && TaskUses(Tasks(app))[i].name == r
    ensures UseBy(TaskAt(app, p).value, TaskUses(Tasks(app))[i])
  {
    var t := TaskAt(app, p).value;
    var u := TaskUse(r, t.Priority(), t.kind.Software?);
    TasksAtPlaces(app, t);
    TaskUsesMembers(Tasks(app), u);
    assert t in Tasks(app) && UseBy(t, u);
    i :| i < |TaskUses(Tasks(app))| && TaskUses(Tasks(app))[i] == u;
  }

  lemma AsyncUseInApp(app: App, r: Name)
    ensures UsedBySoftware(TaskUses(Tasks(app)), r) <==> UsedByAsync(app, r)
  {
    var uses := TaskUses(Tasks(app));
    if i :| 0 <= i < |uses| && uses[i].name == r && uses[i].software {
      var p := UseAtPlace(app, uses[i]);
    }
    if p: Place :| Sharer(app, p, r) && TaskAt(app, p).value.kind.Software? {
      var i := PlaceHasUse(app, p, r);
    }
  }

  lemma PrioritiesInApp(app: App, r: Name)
    ensures UsedAtDifferentPriorities(TaskUses(Tasks(app)), r) <==> UsedAcrossPriorities(app, r)
  {
    var uses := TaskUses(Tasks(app));
    if i, j :| 0 <= i < j < |uses| && uses[i].name == r && uses[j].name == r && uses[i].priority != uses[j].priority {
      var p := UseAtPlace(app, uses[i]);
      var q := UseAtPlace(app, uses[j]);
    }
    if p: Place, q: Place :| Sharer(app, p, r) && Sharer(app, q, r)
                             && TaskAt(app, p).value.Priority() != TaskAt(app, q).value.Priority() {
      var i := PlaceHasUse(app, p, r);
      var j := PlaceHasUse(app, q, r);
      assert i != j;
    }
  }

  /** `lockFree` and `locals` list the resources in declaration order. */
  method Accept(app: App, lockFree: seq<Name>, locals: seq<Name>) returns (errors: set<Rejection>)
    ensures forall r :: AsyncLockFree(r) in errors <==> r in lockFree && UsedByAsync(app, r)
    ensures forall r :: LockFreePriorities(r) in errors <==> r in lockFree && UsedAcrossPriorities(app, r)
    ensures forall r :: LocalClash(r) in errors <==> r in locals && LocalClashIn(app, r)
    ensures forall x :: ZeroPriorityWithIdle(x) in errors <==>
              && app.idle.Some?
              && exists i :: 0 <= i < |app.software|
                             && app.software[i].name == x && app.software[i].declaredPriority == 0
    ensures errors == {} && ListsLockFree(app, lockFree) ==> LockFreeAccepted(app)
  {
    forall r ensures UsedBySoftware(TaskUses(Tasks(app)), r) <==> UsedByAsync(app, r) { AsyncUseInApp(app, r); }
    forall r ensures UsedAtDifferentPriorities(TaskUses(Tasks(app)), r) <==> UsedAcrossPriorities(app, r) {
      PrioritiesInApp(app, r);
    }
    forall r ensures Clashes(LocalUses(app), r) <==> LocalClashIn(app, r) { ClashIffInApp(app, r); }
    errors := Rejections(app, lockFree, locals);
  }

  /** The rules one after the other, on the lists of uses. */
  method Rejections(app: App, lockFree: seq<Name>, locals: seq<Name>) returns (errors: set<Rejection>)
    ensures forall r :: AsyncLockFree(r) in errors <==> r in lockFree && UsedBySoftware(TaskUses(Tasks(app)), r)
    ensures forall r :: LockFreePriorities(r) in errors <==>
                          r in lockFree && UsedAtDifferentPriorities(TaskUses(Tasks(app)), r)
    ensures forall r :: LocalClash(r) in errors <==> r in locals && Clashes(LocalUses(app), r)
    ensures forall x :: ZeroPriorityWithIdle(x) in errors <==>
              && app.idle.Some?
              && exists i :: 0 <= i < |app.software|
                             && app.software[i].name == x && app.software[i].declaredPriority == 0
    ensures errors == {} && ListsLockFree(app, lockFree) ==> LockFreeAccepted(app)
  {
    errors := {};
    var uses := TaskUses(Tasks(app));
    for i := 0 to |lockFree|
      invariant forall r :: AsyncLockFree(r) in errors <==> r in lockFree[..i] && UsedBySoftware(uses, r)
      invariant forall r :: LockFreePriorities(r) in errors <==>
                  r in lockFree[..i] && UsedAtDifferentPriorities(uses, r)
      invariant forall e :: e in errors ==> e.AsyncLockFree? || e.LockFreePriorities?
    {
      var found := CheckLockFree(lockFree[i], uses);
      errors := errors + found;
    }
    ghost var e1 := errors;
    var localUses := app.initLocals + LocalUsesOf(Tasks(app));
    for i := 0 to |locals|
      invariant forall r :: LocalClash(r) in errors <==> r in locals[..i] && Clashes(localUses, r)
      invariant forall e :: e in errors <==> e in e1 || (e.LocalClash? && e in errors)
      invariant e1 <= errors
    {
      var bad := CheckLocal(locals[i], localUses);
      if bad {
        errors := errors + {LocalClash(locals[i])};
      }
    }
    ghost var e2 := errors;
    for i := 0 to |app.software|
      invariant forall x :: ZeroPriorityWithIdle(x) in errors <==>
                  && app.idle.Some?
                  && exists k :: 0 <= k < i && app.software[k].name == x && app.software[k].declaredPriority == 0
      invariant forall e :: e in errors <==> e in e2 || (e.ZeroPriorityWithIdle? && e in errors)
      invariant e2 <= errors
    {
      if app.software[i].declaredPriority == 0 && app.idle.Some? {
        errors := errors + {ZeroPriorityWithIdle(app.software[i].name)};
      }
    }
    assert lockFree[..|lockFree|] == lockFree;
    assert forall r :: r in lockFree && !LockFreeSafe(Tasks(app), r) ==>
             AsyncLockFree(r) in errors || LockFreePriorities(r) in errors;
    assert locals[..|locals|] == locals;
  }

  lemma {:induction false} DeclaredIsUsed(t: Task, shared: seq<(Name, Access)>, r: Name)
    requires exists a :: (r, a) in shared
    ensures exists i :: 0 <= i < |TaskUsesOf(t, shared)|
                        && TaskUsesOf(t, shared)[i] == TaskUse(r, t.Priority(), t.kind.Software?)
  {
    var a :| (r, a) in shared;
    if shared[0].0 == r {
      assert TaskUsesOf(t, shared)[0] == TaskUse(r, t.Priority(), t.kind.Software?);
    } else {
      assert (r, a) in shared[1..];
      DeclaredIsUsed(t, shared[1..], r);
      var i :| 0 <= i < |TaskUsesOf(t, shared[1..])|
               && TaskUsesOf(t, shared[1..])[i] == TaskUse(r, t.Priority(), t.kind.Software?);
      assert TaskUsesOf(t, shared)[i + 1] == TaskUsesOf(t, shared[1..])[i];
    }
  }

  /** The position in the list of uses of some use of `r` by task `k`; later tasks have later uses. */
  lemma {:induction false} UseOfTask(tasks: seq<Task>, k: nat, r: Name) returns (i: nat)
    requires k < |tasks| && Declares(tasks[k], r)
    ensures i < |TaskUses(tasks)|
    ensures TaskUses(tasks)[i] == TaskUse(r, tasks[k].Priority(), tasks[k].kind.Software?)
  {
    if k == 0 {
      DeclaredIsUsed(tasks[0], tasks[0].shared, r);
      i :| 0 <= i < |TaskUsesOf(tasks[0], tasks[0].shared)|
           && TaskUsesOf(tasks[0], tasks[0].shared)[i] == TaskUse(r, tasks[0].Priority(), tasks[0].kind.Software?);
    } else {
      var j := UseOfTask(tasks[1..], k - 1, r);
      i := |TaskUsesOf(tasks[0], tasks[0].shared)| + j;
    }
  }

  /** In an accepted application all users of a lock-free resource run at one priority, and none is async. */
  lemma LockFreeUsersAgree(tasks: seq<Task>, r: Name, j: nat, k: nat)
    requires LockFreeSafe(tasks, r)
    requires j < |tasks| && k < |tasks| && Declares(tasks[j], r) && Declares(tasks[k], r)
    ensures tasks[j].Priority() == tasks[k].Priority() && !tasks[j].kind.Software?
  {
    var a := UseOfTask(tasks, j, r);
    var b := UseOfTask(tasks, k, r);
  }
}
