/** The rule for `#[local]` resources: one user each, and no second definition of the name. */
module LocalResources {
  import opened Analysis

  ghost function LocalUses(app: App): seq<(Name, bool)> {
    app.initLocals + LocalUsesOf(Tasks(app))
  }

  function LocalUsesOf(tasks: seq<Task>): seq<(Name, bool)> {
    if tasks == [] then [] else tasks[0].locals + LocalUsesOf(tasks[1..])
  }

  ghost predicate Named(uses: seq<(Name, bool)>, r: Name) {
    exists b :: (r, b) in uses
  }

  /** A `#[local]` resource clashes if two uses name it, or one declares its name anew. */
  ghost predicate Clashes(uses: seq<(Name, bool)>, r: Name) {
    || (exists i :: 0 <= i < |uses| && uses[i].0 == r && !uses[i].1)
    || (exists i, j :: 0 <= i < j < |uses| && uses[i].0 == r && uses[j].0 == r)
  }

  lemma NamedConcat(a: seq<(Name, bool)>, b: seq<(Name, bool)>, r: Name)
    ensures Named(a + b, r) <==> Named(a, r) || Named(b, r)
  {
    assert forall x :: x in a + b <==> x in a || x in b;
  }

  ghost predicate NamedAt(uses: seq<(Name, bool)>, i: nat, r: Name) { i < |uses| && uses[i].0 == r }

  lemma NamedSomewhere(uses: seq<(Name, bool)>, r: Name)
    ensures Named(uses, r) <==> exists i: nat :: NamedAt(uses, i, r)
  {
    if b :| (r, b) in uses {
      var i: nat :| i < |uses| && uses[i] == (r, b);
      assert NamedAt(uses, i, r);
    }
    if i: nat :| NamedAt(uses, i, r) {
      var b := uses[i].1;
      assert uses[i] == (r, b) && (r, b) in uses;
    }
  }

  /** One list after another: a clash within either, or between them. */
  lemma ClashConcat(a: seq<(Name, bool)>, b: seq<(Name, bool)>, r: Name)
    ensures Clashes(a + b, r) <==> Clashes(a, r) || Clashes(b, r) || (Named(a, r) && Named(b, r))
  {
    ClashIn(a, a + b, 0, r);
    ClashIn(b, a + b, |a|, r);
    if Named(a, r) && Named(b, r) { ClashAcross(a, b, r); }
    if Clashes(a + b, r) { ClashSplit(a, b, r); }
  }

  lemma ClashAcross(a: seq<(Name, bool)>, b: seq<(Name, bool)>, r: Name)
    requires Named(a, r) && Named(b, r)
    ensures Clashes(a + b, r)
  {
    NamedSomewhere(a, r);
    NamedSomewhere(b, r);
    var i: nat :| NamedAt(a, i, r);
    var j: nat :| NamedAt(b, j, r);
    assert (a + b)[i] == a[i] && (a + b)[|a| + j] == b[j];
  }

  lemma ClashSplit(a: seq<(Name, bool)>, b: seq<(Name, bool)>, r: Name)
    requires Clashes(a + b, r)
    ensures Clashes(a, r) || Clashes(b, r) || (Named(a, r) && Named(b, r))
  {
    var all := a + b;
    NamedSomewhere(a, r);
    NamedSomewhere(b, r);
    if i :| 0 <= i < |all| && all[i].0 == r && !all[i].1 {
      if i < |a| { assert a[i] == all[i]; } else { assert b[i - |a|] == all[i]; }
    } else {
      var i, j :| 0 <= i < j < |all| && all[i].0 == r && all[j].0 == r;
      if j < |a| {
        assert a[i] == all[i] && a[j] == all[j];
      } else if i >= |a| {
        assert b[i - |a|] == all[i] && b[j - |a|] == all[j];
      } else {
        assert NamedAt(a, i, r) && NamedAt(b, j - |a|, r);
      }
    }
  }

  lemma ClashIn(part: seq<(Name, bool)>, all: seq<(Name, bool)>, from: nat, r: Name)
    requires from + |part| <= |all| && forall i :: 0 <= i < |part| ==> all[from + i] == part[i]
    ensures Clashes(part, r) ==> Clashes(all, r)
  {
    if i :| 0 <= i < |part| && part[i].0 == r && !part[i].1 { assert all[from + i] == part[i]; }
    if i, j :| 0 <= i < j < |part| && part[i].0 == r && part[j].0 == r {
      assert all[from + i] == part[i] && all[from + j] == part[j];
    }
  }

  ghost predicate NamedBy(tasks: seq<Task>, k: nat, r: Name) { k < |tasks| && Named(tasks[k].locals, r) }

  ghost predicate ClashWithin(tasks: seq<Task>, k: nat, r: Name) { k < |tasks| && Clashes(tasks[k].locals, r) }

  ghost predicate ClashBetween(tasks: seq<Task>, r: Name) {
    exists j: nat, k: nat :: NamedBy(tasks, j, r) && NamedBy(tasks, k, r) && j < k
  }

  /** Which uses of local resources the rule sees: those of every task. */
  lemma {:induction false} LocalUsesOfTasks(tasks: seq<Task>, r: Name)
    ensures Named(LocalUsesOf(tasks), r) <==> exists k: nat :: NamedBy(tasks, k, r)
    ensures Clashes(LocalUsesOf(tasks), r) <==> ClashBetween(tasks, r) || exists k: nat :: ClashWithin(tasks, k, r)
  {
    if tasks == [] {
    } else {
      var rest := tasks[1..];
      LocalUsesOfTasks(rest, r);
      NamedConcat(tasks[0].locals, LocalUsesOf(rest), r);
      ClashConcat(tasks[0].locals, LocalUsesOf(rest), r);
      forall k: nat ensures NamedBy(rest, k, r) <==> NamedBy(tasks, k + 1, r) { }
      forall k: nat ensures ClashWithin(rest, k, r) <==> ClashWithin(tasks, k + 1, r) { }
      ShiftedTasks(tasks, r);
    }
  }

  /** The first task, or one of the others. */
  lemma ShiftedTasks(tasks: seq<Task>, r: Name)
    requires tasks != []
    ensures var rest := tasks[1..];
            && ((exists k: nat :: NamedBy(tasks, k, r)) <==>
                  Named(tasks[0].locals, r) || exists k: nat :: NamedBy(rest, k, r))
            && ((exists k: nat :: ClashWithin(tasks, k, r)) <==>
                  Clashes(tasks[0].locals, r) || exists k: nat :: ClashWithin(rest, k, r))
            && (ClashBetween(tasks, r) <==>
                  ClashBetween(rest, r) || (Named(tasks[0].locals, r) && exists k: nat :: NamedBy(rest, k, r)))
  {
    var rest := tasks[1..];
    if Named(tasks[0].locals, r) { assert NamedBy(tasks, 0, r); }
    if Clashes(tasks[0].locals, r) { assert ClashWithin(tasks, 0, r); }
    if k: nat :| NamedBy(rest, k, r) {
      assert NamedBy(tasks, k + 1, r);
      if Named(tasks[0].locals, r) { assert NamedBy(tasks, 0, r) && 0 < k + 1; }
    }
    if k: nat :| ClashWithin(rest, k, r) { assert ClashWithin(tasks, k + 1, r); }
    if j: nat, k: nat :| NamedBy(rest, j, r) && NamedBy(rest, k, r) && j < k {
      assert NamedBy(tasks, j + 1, r) && NamedBy(tasks, k + 1, r) && j + 1 < k + 1;
    }
    if k: nat :| NamedBy(tasks, k, r) { assert k > 0 ==> NamedBy(rest, k - 1, r); }
    if k: nat :| ClashWithin(tasks, k, r) { assert k > 0 ==> ClashWithin(rest, k - 1, r); }
    if j: nat, k: nat :| NamedBy(tasks, j, r) && NamedBy(tasks, k, r) && j < k {
      assert NamedBy(rest, k - 1, r);
      if j > 0 { assert NamedBy(rest, j - 1, r) && j - 1 < k - 1; }
    }
  }

  /**
  In the application: a local resource is named in two places, or one place names it twice or
  declares its name anew.
  */
  ghost predicate LocalClashIn(app: App, r: Name) {
    || (exists p: Place :: (r, false) in LocalsAt(app, p))
    || (exists p: Place, q: Place :: p != q && Named(LocalsAt(app, p), r) && Named(LocalsAt(app, q), r))
    || (exists p: Place :: Repeats(LocalsAt(app, p), r))
  }

  /** The same name twice in one list. */
  ghost predicate Repeats(uses: seq<(Name, bool)>, r: Name) {
    exists i: nat, j: nat :: NamedAt(uses, i, r) && NamedAt(uses, j, r) && i < j
  }

  lemma ClashesMeans(uses: seq<(Name, bool)>, r: Name)
    ensures Clashes(uses, r) <==> (r, false) in uses || Repeats(uses, r)
  {
    if i :| 0 <= i < |uses| && uses[i].0 == r && !uses[i].1 { assert uses[i] == (r, false); }
    if i, j :| 0 <= i < j < |uses| && uses[i].0 == r && uses[j].0 == r {
      assert NamedAt(uses, i, r) && NamedAt(uses, j, r);
    }
  }

  lemma ClashFoundIn(app: App, r: Name)
    requires Clashes(LocalUses(app), r)
    ensures LocalClashIn(app, r)
  {
    PlacesAreTasks(app);
    var tasks := Tasks(app);
    LocalUsesOfTasks(tasks, r);
    ClashConcat(app.initLocals, LocalUsesOf(tasks), r);
    assert LocalsAt(app, InInit) == app.initLocals;
    ClashesMeans(app.initLocals, r);
    if ClashBetween(tasks, r) {
      var j: nat, k: nat :| NamedBy(tasks, j, r) && NamedBy(tasks, k, r) && j < k;
      var p, q := PlaceOf(app, j), PlaceOf(app, k);
      assert p != q && Named(LocalsAt(app, p), r) && Named(LocalsAt(app, q), r);
    } else if k: nat :| ClashWithin(tasks, k, r) {
      ClashesMeans(tasks[k].locals, r);
      assert LocalsAt(app, PlaceOf(app, k)) == tasks[k].locals;
    } else if Named(app.initLocals, r) && Named(LocalUsesOf(tasks), r) {
      var k: nat :| NamedBy(tasks, k, r);
      var p, q := InInit, PlaceOf(app, k);
      assert p != q && Named(LocalsAt(app, p), r) && Named(LocalsAt(app, q), r);
    }
  }

  /** The task at a place that names a local resource. */
  lemma TaskNaming(app: App, p: Place, r: Name) returns (k: nat)
    requires !p.InInit? && Named(LocalsAt(app, p), r)
    ensures k < |Tasks(app)| && PlaceOf(app, k) == p && Tasks(app)[k].locals == LocalsAt(app, p)
  {
    PlacesAreTasks(app);
    assert TaskAt(app, p).Some?;
    k :| k < |Tasks(app)| && PlaceOf(app, k) == p;
  }

  lemma ClashAtIsFound(app: App, p: Place, r: Name)
    requires Clashes(LocalsAt(app, p), r)
    ensures Clashes(LocalUses(app), r)
  {
    ClashConcat(app.initLocals, LocalUsesOf(Tasks(app)), r);
    if !p.InInit? {
      ClashesMeans(LocalsAt(app, p), r);
      if i: nat, j: nat :| NamedAt(LocalsAt(app, p), i, r) && NamedAt(LocalsAt(app, p), j, r) && i < j {
        NamedSomewhere(LocalsAt(app, p), r);
      }
      var k := TaskNaming(app, p, r);
      LocalUsesOfTasks(Tasks(app), r);
      assert ClashWithin(Tasks(app), k, r);
    }
  }

  lemma ClashBetweenIsFound(app: App, p: Place, q: Place, r: Name)
    requires p != q && Named(LocalsAt(app, p), r) && Named(LocalsAt(app, q), r)
    ensures Clashes(LocalUses(app), r)
  {
    ClashConcat(app.initLocals, LocalUsesOf(Tasks(app)), r);
    LocalUsesOfTasks(Tasks(app), r);
    if p.InInit? || q.InInit? {
      var k := TaskNaming(app, if p.InInit? then q else p, r);
      assert NamedBy(Tasks(app), k, r);
    } else {
      var j := TaskNaming(app, p, r);
      var k := TaskNaming(app, q, r);
      assert NamedBy(Tasks(app), j, r) && NamedBy(Tasks(app), k, r) && j != k;
    }
  }

  /** The rule on the list of all uses is the rule on the places of the application. */
  lemma ClashIffInApp(app: App, r: Name)
    ensures Clashes(LocalUses(app), r) <==> LocalClashIn(app, r)
  {
    if Clashes(LocalUses(app), r) { ClashFoundIn(app, r); }
    if p: Place :| (r, false) in LocalsAt(app, p) {
      ClashesMeans(LocalsAt(app, p), r);
      ClashAtIsFound(app, p, r);
    }
    if p: Place, q: Place :| p != q && Named(LocalsAt(app, p), r) && Named(LocalsAt(app, q), r) {
      ClashBetweenIsFound(app, p, q, r);
    }
    if p: Place :| Repeats(LocalsAt(app, p), r) {
      ClashesMeans(LocalsAt(app, p), r);
      ClashAtIsFound(app, p, r);
    }
  }

  method CheckLocal(r: Name, uses: seq<(Name, bool)>) returns (bad: bool)
    ensures bad <==> Clashes(uses, r)
  {
    bad := false;
    var inserted := false;
    for i := 0 to |uses|
      invariant bad ==> Clashes(uses, r)
      invariant inserted ==> exists k :: 0 <= k < i && uses[k].0 == r
      invariant !bad ==> (forall k :: 0 <= k < i && uses[k].0 == r ==> inserted && uses[k].1)
      invariant !bad ==> forall j, k :: 0 <= j < k < i && uses[j].0 == r ==> uses[k].0 != r
    {
      if uses[i].0 == r {
        if uses[i].1 {
          if inserted {
            bad := true;
          }
          inserted := true;
        } else {
          bad := true;
        }
      }
    }
  }
}
