/** The fold of the accesses of an application into ownerships, ceilings and `Sync` requirements. */
module Ownership {
  import opened Options
  import opened Sequences
  import opened Analysis

  datatype Ownership = Owned(priority: nat) | CoOwned(priority: nat) | Contended(ceiling: nat) {
    function Ceiling(): nat {
      match this
      case Owned(p) => p
      case CoOwned(p) => p
      case Contended(c) => c
    }
  }

  function Max(a: nat, b: nat): nat {
    if a >= b then a else b
  }

  function MaxOf(ps: seq<nat>): (m: nat)
    ensures forall p :: p in ps ==> p <= m
    ensures ps != [] ==> m in ps
  {
    if ps == [] then 0 else
      var m := MaxOf(ps[..|ps| - 1]);
      assert ps == ps[..|ps| - 1] + [ps[|ps| - 1]];
      Max(m, ps[|ps| - 1])
  }

  ghost predicate AllEqual(ps: seq<nat>) {
    forall i, j :: 0 <= i < |ps| && 0 <= j < |ps| ==> ps[i] == ps[j]
  }

  /** What the priorities of all accesses to a resource say about its owner, in any order. */
  ghost function OwnershipOf(ps: seq<nat>): Option<Ownership> {
    if ps == [] then None
    else if !AllEqual(ps) then Some(Contended(MaxOf(ps)))
    else if |ps| == 1 then Some(Owned(ps[0]))
    else Some(CoOwned(ps[0]))
  }

  /** The priorities at which the accesses touch resource `r`. */
  ghost function Prios(uses: seq<Use>, r: Name): seq<nat> {
    if uses == [] then []
    else
      var u := uses[|uses| - 1];
      Prios(uses[..|uses| - 1], r) + if u.name == r && u.priority.Some? then [u.priority.value] else []
  }

  /** One iteration of the analysis loop. */
  function Fold(o: Option<Ownership>, p: nat): Ownership {
    match o
    case None => Owned(p)
    case Some(own) =>
      if p != own.Ceiling() then Contended(Max(own.Ceiling(), p))
      else if own.Owned? then CoOwned(p)
      else own
  }

  lemma FoldIsOwnershipOf(ps: seq<nat>, p: nat)
    ensures OwnershipOf(ps + [p]) == Some(Fold(OwnershipOf(ps), p))
  {
    var qs := ps + [p];
    assert qs[..|qs| - 1] == ps;
    if ps != [] {
      assert qs[0] == ps[0] && qs[|ps|] == p;
      if AllEqual(ps) {
        assert MaxOf(ps) == ps[0];
        if p == ps[0] { assert AllEqual(qs); }
      } else {
        var i, j :| 0 <= i < |ps| && 0 <= j < |ps| && ps[i] != ps[j];
        assert qs[i] == ps[i] && qs[j] == ps[j];
        assert Max(MaxOf(ps), p) == MaxOf(qs);
      }
    }
  }

  /** The ownership of a resource that an application's accesses determine. */
  ghost function OwnershipIn(uses: seq<Use>, r: Name): Option<Ownership> {
    OwnershipOf(Prios(uses, r))
  }

  /** The ceiling that the generated lock of `r` uses: 0 if nobody accesses it. */
  ghost function CeilingIn(uses: seq<Use>, r: Name): nat {
    var o := OwnershipIn(uses, r);
    if o.Some? then o.value.Ceiling() else 0
  }

  ghost predicate OnlyShared(uses: seq<Use>, r: Name) {
    forall u :: u in uses && u.name == r ==> u.access.Shared?
  }

  /** A resource that must be `Sync`: contended, and some access to it is shared. */
  ghost predicate NeedsSync(uses: seq<Use>, r: Name) {
    && OwnershipIn(uses, r).Some? && OwnershipIn(uses, r).value.Contended?
    && exists u :: u in uses && u.name == r && u.access.Shared?
  }

  /** The table lists exactly the accessed resources, each with the ownership its accesses determine. */
  ghost predicate TableIs(uses: seq<Use>, table: map<Name, Ownership>) {
    forall r :: OwnershipIn(uses, r) == if r in table then Some(table[r]) else None
  }

  /** Only types of contended resources with a shared access are required to be `Sync`. */
  ghost predicate SyncSound(uses: seq<Use>, types: map<Name, TypeName>, sync: set<TypeName>) {
    forall ty :: ty in sync ==> exists r :: r in types && types[r] == ty && NeedsSync(uses, r)
  }

  /** Without mixed accesses, all of them are. */
  ghost predicate SyncComplete(uses: seq<Use>, types: map<Name, TypeName>, sync: set<TypeName>) {
    forall r :: r in types && NeedsSync(uses, r) && OnlyShared(uses, r) ==> types[r] in sync
  }

  /** What one access does to the table and to the `Sync` requirements. */
  function FoldUse(table: map<Name, Ownership>, sync: set<TypeName>, u: Use, ty: TypeName)
    : (map<Name, Ownership>, set<TypeName>)
  {
    if u.priority.None? then (table, sync)
    else
      var prior := if u.name in table then Some(table[u.name]) else None;
      var differs := prior.Some? && u.priority.value != prior.value.Ceiling();
      (table[u.name := Fold(prior, u.priority.value)], if differs && u.access.Shared? then sync + {ty} else sync)
  }

  ghost function FoldUses(uses: seq<Use>, types: map<Name, TypeName>): (map<Name, Ownership>, set<TypeName>)
    requires forall u :: u in uses ==> u.name in types
  {
    if uses == [] then (map[], {})
    else
      var u := uses[|uses| - 1];
      var (table, sync) := FoldUses(uses[..|uses| - 1], types);
      FoldUse(table, sync, u, types[u.name])
  }

  // What the table and the types mean, in terms of single accesses.

  ghost predicate AccessOf(uses: seq<Use>, u: Use, r: Name) { u in uses && u.name == r && u.priority.Some? }

  /** Two accesses to `r` at different priorities. */
  ghost predicate Differ(uses: seq<Use>, r: Name) {
    exists u, w :: AccessOf(uses, u, r) && AccessOf(uses, w, r) && u.priority != w.priority
  }

  /** Several accesses to `r`, wherever they are listed. */
  ghost predicate Several(uses: seq<Use>, r: Name) {
    exists j: nat, k: nat :: AccessAt(uses, j, r) && AccessAt(uses, k, r) && j < k
  }

  ghost predicate AccessAt(uses: seq<Use>, k: nat, r: Name) {
    k < |uses| && uses[k].name == r && uses[k].priority.Some?
  }

  /** The ownership of `r` is decided by the priorities of its accesses. */
  ghost predicate Owns(uses: seq<Use>, r: Name, o: Ownership) {
    && (exists u :: AccessOf(uses, u, r) && u.priority == Some(o.Ceiling()))
    && (forall u :: AccessOf(uses, u, r) ==> u.priority.value <= o.Ceiling())
    && (o.Contended? <==> Differ(uses, r))
    && (o.Owned? <==> !Several(uses, r))
  }

  lemma {:induction false} PriosCount(uses: seq<Use>, r: Name)
    ensures |Prios(uses, r)| > 0 <==> exists k: nat :: AccessAt(uses, k, r)
    ensures |Prios(uses, r)| > 1 <==> Several(uses, r)
  {
    if uses == [] {
    } else {
      var last := |uses| - 1;
      PriosCount(uses[..last], r);
      assert forall k: nat :: k < last ==> (AccessAt(uses, k, r) <==> AccessAt(uses[..last], k, r));
      if AccessAt(uses, last, r) {
        if k: nat :| AccessAt(uses[..last], k, r) { assert AccessAt(uses, k, r); }
      }
      if j: nat, k: nat :| AccessAt(uses[..last], j, r) && AccessAt(uses[..last], k, r) && j < k {
        assert AccessAt(uses, j, r) && AccessAt(uses, k, r);
      }
      if j: nat, k: nat :| AccessAt(uses, j, r) && AccessAt(uses, k, r) && j < k {
        assert AccessAt(uses[..last], j, r);
        assert k < last ==> AccessAt(uses[..last], k, r);
      }
    }
  }

  lemma OwnershipMeans(uses: seq<Use>, r: Name)
    ensures var o := OwnershipIn(uses, r);
            && (o.Some? <==> exists u :: AccessOf(uses, u, r))
            && (o.Some? ==> Owns(uses, r, o.value))
  {
    OwnershipKinds(uses, r);
    PriosCount(uses, r);
    if OwnershipIn(uses, r).Some? {
      var u := AnyUse(uses, r);
      assert AccessOf(uses, u, r);
    }
    if u :| AccessOf(uses, u, r) {
      CeilingIsTheMaximum(uses, r);
      var w :| w in uses && w.name == r && w.priority == Some(CeilingIn(uses, r));
      assert AccessOf(uses, w, r);
    }
    if OwnershipIn(uses, r).Some? && OwnershipIn(uses, r).value.Contended? {
      var u, w :| u in uses && w in uses && u.name == r && w.name == r
                  && u.priority.Some? && w.priority.Some? && u.priority != w.priority;
      assert AccessOf(uses, u, r) && AccessOf(uses, w, r);
    }
  }

  /** Some access to `r` is shared. */
  ghost predicate SharedSomewhere(uses: seq<Use>, r: Name) { exists u :: u in uses && u.name == r && u.access.Shared? }

  ghost predicate OneKindEach(uses: seq<Use>) {
    forall u, w :: u in uses && w in uses && u.name == w.name ==> u.access == w.access
  }

  ghost predicate SharedAcrossPriorities(uses: seq<Use>, types: map<Name, TypeName>, r: Name, ty: TypeName) {
    r in types && types[r] == ty && Differ(uses, r) && SharedSomewhere(uses, r)
  }

  /** Without mixed accesses a type must be `Sync` iff one of its resources is shared across priorities. */
  lemma SyncMeans(uses: seq<Use>, types: map<Name, TypeName>, sync: set<TypeName>, ty: TypeName)
    requires OneKindEach(uses) && SyncSound(uses, types, sync) && SyncComplete(uses, types, sync)
    requires forall u :: u in uses ==> u.name in types
    ensures ty in sync <==> exists r :: SharedAcrossPriorities(uses, types, r, ty)
  {
    if ty in sync {
      var r :| r in types && types[r] == ty && NeedsSync(uses, r);
      OwnershipMeans(uses, r);
      assert SharedAcrossPriorities(uses, types, r, ty);
    }
    if r :| SharedAcrossPriorities(uses, types, r, ty) {
      OwnershipMeans(uses, r);
      assert NeedsSync(uses, r) && OnlyShared(uses, r);
    }
  }

  /** The loop of the analysis over all shared resource accesses. */
  method Analyze(uses: seq<Use>, types: map<Name, TypeName>)
    returns (used: set<Name>, ownerships: map<Name, Ownership>, syncTypes: set<TypeName>)
    requires forall u :: u in uses ==> u.name in types
    ensures forall r :: r in used <==> exists u :: u in uses && u.name == r
    ensures TableIs(uses, ownerships)
    ensures SyncExact(uses, types, syncTypes)
    ensures SyncSound(uses, types, syncTypes)
    ensures SyncComplete(uses, types, syncTypes)
    ensures TableFits(uses, ownerships)
    ensures SyncFits(uses, types, syncTypes)
  {
    used, ownerships, syncTypes := FoldAll(uses, types);
    FoldUsesMeaning(uses, types);
    FoldUsesSync(uses, types);
    TableMeans(uses, ownerships);
    AllSyncMean(uses, types, syncTypes);
  }

  method FoldAll(uses: seq<Use>, types: map<Name, TypeName>)
    returns (used: set<Name>, ownerships: map<Name, Ownership>, syncTypes: set<TypeName>)
    requires forall u :: u in uses ==> u.name in types
    ensures forall r :: r in used <==> exists u :: u in uses && u.name == r
    ensures (ownerships, syncTypes) == FoldUses(uses, types)
  {
    used, ownerships, syncTypes := {}, map[], {};
    for i := 0 to |uses|
      invariant forall r :: r in used <==> exists k :: 0 <= k < i && uses[k].name == r
      invariant (ownerships, syncTypes) == FoldUses(uses[..i], types)
    {
      var u := uses[i];
      assert uses[..i + 1][..i] == uses[..i];
      used := used + {u.name};
      if u.priority.Some? {
        var p := u.priority.value;
        if u.name in ownerships {
          var own := ownerships[u.name];
          if p != own.Ceiling() {
            ownerships := ownerships[u.name := Contended(Max(own.Ceiling(), p))];
            if u.access.Shared? {
              syncTypes := syncTypes + {types[u.name]};
            }
          } else if own.Owned? {
            ownerships := ownerships[u.name := CoOwned(p)];
          } else {
            assert ownerships[u.name := own] == ownerships;
          }
        } else {
          ownerships := ownerships[u.name := Owned(p)];
        }
      }
    }
    assert uses[..|uses|] == uses;
  }

  /** The table lists exactly the resources accessed, each with the ownership that its accesses call for. */
  ghost predicate TableFits(uses: seq<Use>, table: map<Name, Ownership>) {
    && (forall r :: r in table <==> exists u :: AccessOf(uses, u, r))
    && (forall r :: r in table ==> Owns(uses, r, table[r]))
  }

  /** Without mixed accesses a type is listed iff some resource of it is shared across priorities. */
  ghost predicate SyncFits(uses: seq<Use>, types: map<Name, TypeName>, sync: set<TypeName>) {
    OneKindEach(uses) ==> forall ty :: ty in sync <==> exists r :: SharedAcrossPriorities(uses, types, r, ty)
  }

  lemma TableMeans(uses: seq<Use>, table: map<Name, Ownership>)
    requires TableIs(uses, table)
    ensures TableFits(uses, table)
  {
    forall r ensures r in table <==> exists u :: AccessOf(uses, u, r) { OwnershipMeans(uses, r); }
    forall r | r in table ensures Owns(uses, r, table[r]) { OwnershipMeans(uses, r); }
  }

  lemma AllSyncMean(uses: seq<Use>, types: map<Name, TypeName>, sync: set<TypeName>)
    requires SyncSound(uses, types, sync) && SyncComplete(uses, types, sync)
    requires forall u :: u in uses ==> u.name in types
    ensures SyncFits(uses, types, sync)
  {
    if OneKindEach(uses) {
      forall ty ensures ty in sync <==> exists r :: SharedAcrossPriorities(uses, types, r, ty) {
        SyncMeans(uses, types, sync, ty);
      }
    }
  }

  lemma {:induction false} FoldUsesMeaning(uses: seq<Use>, types: map<Name, TypeName>)
    requires forall u :: u in uses ==> u.name in types
    ensures var (table, sync) := FoldUses(uses, types);
            TableIs(uses, table) && SyncSound(uses, types, sync) && SyncComplete(uses, types, sync)
  {
    if uses == [] {
    } else {
      var before, u := uses[..|uses| - 1], uses[|uses| - 1];
      assert uses == before + [u];
      FoldUsesMeaning(before, types);
      var (table, sync) := FoldUses(before, types);
      TableGrows(before, u, table);
      SyncTypesGrow(before, u, table, types, sync);
    }
  }

  lemma TableGrows(uses: seq<Use>, u: Use, table: map<Name, Ownership>)
    requires TableIs(uses, table)
    ensures u.priority.None? ==> TableIs(uses + [u], table)
    ensures u.priority.Some? ==>
              var prior := if u.name in table then Some(table[u.name]) else None;
              TableIs(uses + [u], table[u.name := Fold(prior, u.priority.value)])
  {
    forall r ensures OwnershipIn(uses + [u], r) ==
                     if u.name == r && u.priority.Some? then Some(Fold(OwnershipIn(uses, r), u.priority.value))
                     else OwnershipIn(uses, r)
    {
      OwnershipStep(uses, u, r);
    }
  }

  lemma OwnershipStep(uses: seq<Use>, u: Use, r: Name)
    ensures OwnershipIn(uses + [u], r) ==
            if u.name == r && u.priority.Some? then Some(Fold(OwnershipIn(uses, r), u.priority.value))
            else OwnershipIn(uses, r)
  {
    PriosStep(uses, u);
    if u.name == r && u.priority.Some? { FoldIsOwnershipOf(Prios(uses, r), u.priority.value); }
    assert Prios(uses, r) + [] == Prios(uses, r);
  }

  /** Access `k` is shared, and its priority is not the ceiling of the accesses before it. */
  ghost predicate Raises(uses: seq<Use>, k: nat) {
    k < |uses| && NewlyContended(uses[..k], uses[k], uses[k].name)
  }

  /** A type is recorded exactly for such an access, also when accesses are mixed. */
  ghost predicate SyncExact(uses: seq<Use>, types: map<Name, TypeName>, sync: set<TypeName>) {
    forall ty :: ty in sync <==> exists k: nat :: RaisesFor(uses, types, k, ty)
  }

  ghost predicate RaisesFor(uses: seq<Use>, types: map<Name, TypeName>, k: nat, ty: TypeName) {
    Raises(uses, k) && uses[k].name in types && types[uses[k].name] == ty
  }

  lemma RaisesPrefix(uses: seq<Use>, u: Use, k: nat)
    ensures Raises(uses + [u], k) <==> if k == |uses| then NewlyContended(uses, u, u.name) else Raises(uses, k)
  {
    var all := uses + [u];
    if k < |uses| {
      assert all[..k] == uses[..k] && all[k] == uses[k];
    } else if k == |uses| {
      assert all[..k] == uses && all[k] == u;
    }
  }

  lemma SyncExactGrows(uses: seq<Use>, u: Use, types: map<Name, TypeName>, sync: set<TypeName>)
    requires u.name in types && SyncExact(uses, types, sync)
    ensures SyncExact(uses + [u], types, if NewlyContended(uses, u, u.name) then sync + {types[u.name]} else sync)
  {
    var all := uses + [u];
    var sync' := if NewlyContended(uses, u, u.name) then sync + {types[u.name]} else sync;
    forall ty ensures ty in sync' <==> exists k: nat :: RaisesFor(all, types, k, ty) {
      forall k: nat ensures RaisesFor(all, types, k, ty)
           <==> RaisesFor(uses, types, k, ty)
                || (k == |uses| && NewlyContended(uses, u, u.name) && types[u.name] == ty) {
        RaisesPrefix(uses, u, k);
        assert k < |uses| ==> all[k] == uses[k];
      }
      if ty in sync {
        var k: nat :| RaisesFor(uses, types, k, ty);
        assert RaisesFor(all, types, k, ty);
      } else if ty in sync' {
        assert RaisesFor(all, types, |uses|, ty);
      }
    }
  }

  lemma {:induction false} FoldUsesSync(uses: seq<Use>, types: map<Name, TypeName>)
    requires forall u :: u in uses ==> u.name in types
    ensures SyncExact(uses, types, FoldUses(uses, types).1)
  {
    if uses == [] {
    } else {
      var before, u := uses[..|uses| - 1], uses[|uses| - 1];
      assert uses == before + [u];
      FoldUsesSync(before, types);
      FoldUsesMeaning(before, types);
      SyncExactGrows(before, u, types, FoldUses(before, types).1);
    }
  }

  /** The `Sync` insertion of the loop keeps the requirement sound and complete. */
  lemma SyncTypesGrow(uses: seq<Use>, u: Use, table: map<Name, Ownership>,
                      types: map<Name, TypeName>, sync: set<TypeName>)
    requires u.name in types && TableIs(uses, table)
    requires SyncSound(uses, types, sync) && SyncComplete(uses, types, sync)
    ensures var sync' := if u.priority.Some? && u.name in table && u.priority.value != table[u.name].Ceiling()
                            && u.access.Shared? then sync + {types[u.name]} else sync;
            SyncSound(uses + [u], types, sync') && SyncComplete(uses + [u], types, sync')
  {
    SyncGrows(uses, u);
    OwnershipStep(uses, u, u.name);
    assert u in uses + [u];
  }

  lemma PriosStep(uses: seq<Use>, u: Use)
    ensures forall r :: Prios(uses + [u], r)
                     == Prios(uses, r) + if u.name == r && u.priority.Some? then [u.priority.value] else []
  {
    assert (uses + [u])[..|uses|] == uses;
  }

  /** One more access never withdraws a `Sync` requirement, and adds at most one for its own resource. */
  lemma SyncGrows(uses: seq<Use>, u: Use)
    ensures forall r :: NeedsSync(uses, r) ==> NeedsSync(uses + [u], r)
    ensures forall r :: OnlyShared(uses + [u], r) ==> OnlyShared(uses, r)
    ensures forall r :: NeedsSync(uses + [u], r) && OnlyShared(uses + [u], r) && !NeedsSync(uses, r) ==>
              NewlyContended(uses, u, r)
  {
    var all := uses + [u];
    assert forall x :: x in all <==> x in uses || x == u;
    forall r ensures NeedsSync(uses, r) ==> NeedsSync(all, r) {
      OwnershipStep(uses, u, r);
    }
    forall r | NeedsSync(all, r) && OnlyShared(all, r) && !NeedsSync(uses, r)
      ensures NewlyContended(uses, u, r)
    {
      OwnershipStep(uses, u, r);
      if OwnershipIn(uses, r).Some? {
        var w := AnyUse(uses, r);
        assert w in all;
      }
    }
  }

  /** Access `u` is the shared one that makes `r` contended. */
  ghost predicate NewlyContended(uses: seq<Use>, u: Use, r: Name) {
    && r == u.name && u.access.Shared? && u.priority.Some?
    && OwnershipIn(uses, r).Some? && u.priority.value != OwnershipIn(uses, r).value.Ceiling()
  }

  lemma {:induction false} PriosMembers(uses: seq<Use>, r: Name, p: nat)
    ensures p in Prios(uses, r) <==> exists u :: u in uses && u.name == r && u.priority == Some(p)
  {
    if uses == [] {
    } else {
      var last := |uses| - 1;
      PriosMembers(uses[..last], r, p);
      assert uses == uses[..last] + [uses[last]];
    }
  }

  lemma AnyUse(uses: seq<Use>, r: Name) returns (u: Use)
    requires Prios(uses, r) != []
    ensures u in uses && u.name == r && u.priority == Some(Prios(uses, r)[0])
  {
    PriosMembers(uses, r, Prios(uses, r)[0]);
    u :| u in uses && u.name == r && u.priority == Some(Prios(uses, r)[0]);
  }

  // ----- what the fold determines

  /** The ceiling is the highest priority that accesses the resource. */
  lemma CeilingIsTheMaximum(uses: seq<Use>, r: Name)
    requires exists u :: u in uses && u.name == r && u.priority.Some?
    ensures exists u :: u in uses && u.name == r && u.priority == Some(CeilingIn(uses, r))
    ensures forall u :: u in uses && u.name == r && u.priority.Some? ==> u.priority.value <= CeilingIn(uses, r)
  {
    var ps := Prios(uses, r);
    forall u | u in uses && u.name == r && u.priority.Some? ensures u.priority.value in ps {
      PriosMembers(uses, r, u.priority.value);
    }
    assert ps != [];
    assert CeilingIn(uses, r) == MaxOf(ps);
    PriosMembers(uses, r, MaxOf(ps));
  }

  lemma ContendedIffDiffering(uses: seq<Use>, r: Name)
    ensures !AllEqual(Prios(uses, r))
       <==> exists u, w :: u in uses && w in uses && u.name == r && w.name == r
                           && u.priority.Some? && w.priority.Some? && u.priority != w.priority
  {
    var ps := Prios(uses, r);
    if !AllEqual(ps) {
      var i, j :| 0 <= i < |ps| && 0 <= j < |ps| && ps[i] != ps[j];
      PriosMembers(uses, r, ps[i]);
      PriosMembers(uses, r, ps[j]);
      var u :| u in uses && u.name == r && u.priority == Some(ps[i]);
      var w :| w in uses && w.name == r && w.priority == Some(ps[j]);
      assert u.priority != w.priority;
    }
    if u, w :| u in uses && w in uses && u.name == r && w.name == r
               && u.priority.Some? && w.priority.Some? && u.priority != w.priority {
      PriosMembers(uses, r, u.priority.value);
      PriosMembers(uses, r, w.priority.value);
    }
  }

  /** Contended exactly when two accesses differ in priority; co-owned exactly when several agree. */
  lemma OwnershipKinds(uses: seq<Use>, r: Name)
    ensures var o := OwnershipIn(uses, r);
            && (o.None? <==> forall u :: u in uses && u.name == r ==> u.priority.None?)
            && (o.Some? && o.value.Contended? <==>
                  exists u, w :: u in uses && w in uses && u.name == r && w.name == r
                                 && u.priority.Some? && w.priority.Some? && u.priority != w.priority)
            && (o.Some? && o.value.CoOwned? <==> |Prios(uses, r)| > 1 && AllEqual(Prios(uses, r)))
            && (o.Some? && o.value.Owned? <==> |Prios(uses, r)| == 1)
  {
    ContendedIffDiffering(uses, r);
    forall u | u in uses && u.name == r && u.priority.Some? ensures u.priority.value in Prios(uses, r) {
      PriosMembers(uses, r, u.priority.value);
    }
    if Prios(uses, r) != [] { var u := AnyUse(uses, r); }
  }

  ghost function Contribution(u: Use, r: Name): seq<nat> {
    if u.name == r && u.priority.Some? then [u.priority.value] else []
  }

  lemma PriosRemove(uses: seq<Use>, k: nat, r: Name)
    requires k < |uses|
    ensures multiset(Prios(uses, r))
         == multiset(Prios(uses[..k] + uses[k + 1..], r)) + multiset(Contribution(uses[k], r))
  {
    var a, u, b := uses[..k], uses[k], uses[k + 1..];
    assert uses == (a + [u]) + b;
    PriosConcat(a + [u], b, r);
    PriosConcat(a, b, r);
    PriosStep(a, u);
  }

  /** How many accesses to `r` have priority `p`. */
  ghost function Tally(uses: seq<Use>, r: Name, p: nat): nat {
    multiset(Prios(uses, r))[p]
  }

  lemma TallyRemove(uses: seq<Use>, k: nat, rest: seq<Use>, r: Name, p: nat)
    requires k < |uses| && rest == uses[..k] + uses[k + 1..]
    ensures Tally(uses, r, p) == Tally(rest, r, p) + if uses[k].name == r && uses[k].priority == Some(p) then 1 else 0
  {
    PriosRemove(uses, k, r);
  }

  lemma {:induction false} TallyOfPermutation(uses: seq<Use>, others: seq<Use>, r: Name, p: nat)
    requires multiset(uses) == multiset(others)
    ensures Tally(uses, r, p) == Tally(others, r, p)
    decreases |uses|
  {
    if uses == [] {
      NoneFromEmpty(others);
    } else {
      var k := DropFromBoth(uses, others);
      var rest := others[..k] + others[k + 1..];
      assert uses[1..] == uses[..0] + uses[1..];
      TallyOfPermutation(uses[1..], rest, r, p);
      TallyRemove(uses, 0, uses[1..], r, p);
      TallyRemove(others, k, rest, r, p);
    }
  }

  lemma PriosOfPermutation(uses: seq<Use>, others: seq<Use>, r: Name)
    requires multiset(uses) == multiset(others)
    ensures multiset(Prios(uses, r)) == multiset(Prios(others, r))
  {
    var ps: multiset<nat> := multiset(Prios(uses, r));
    var qs: multiset<nat> := multiset(Prios(others, r));
    forall p: nat ensures ps[p] == qs[p] {
      TallyOfPermutation(uses, others, r, p);
    }
  }

  lemma {:induction false} PriosConcat(a: seq<Use>, b: seq<Use>, r: Name)
    ensures Prios(a + b, r) == Prios(a, r) + Prios(b, r)
  {
    if b == [] {
      assert a + b == a;
    } else {
      var rest, u := b[..|b| - 1], b[|b| - 1];
      PriosConcat(a, rest, r);
      PriosStep(rest, u);
      PriosStep(a + rest, u);
      assert b == rest + [u] && a + b == (a + rest) + [u];
    }
  }

  lemma OwnershipOfPermutation(ps: seq<nat>, qs: seq<nat>)
    requires multiset(ps) == multiset(qs)
    ensures OwnershipOf(ps) == OwnershipOf(qs)
  {
    assert |ps| == |multiset(ps)| == |multiset(qs)| == |qs|;
    assert forall p :: p in ps <==> p in multiset(ps);
    assert forall p :: p in qs <==> p in multiset(qs);
    assert forall i :: 0 <= i < |ps| ==> ps[i] in qs;
    assert forall i :: 0 <= i < |qs| ==> qs[i] in ps;
  }

  /** The order in which the tasks are listed does not matter. */
  lemma FoldIgnoresOrder(uses: seq<Use>, others: seq<Use>, r: Name)
    requires multiset(uses) == multiset(others)
    ensures OwnershipIn(uses, r) == OwnershipIn(others, r)
  {
    PriosOfPermutation(uses, others, r);
    OwnershipOfPermutation(Prios(uses, r), Prios(others, r));
  }

  /** In a checked application the type of every contended resource that is accessed by sharing must be `Sync`. */
  lemma ContendedSharedNeedsSync(app: App, u: Use, types: map<Name, TypeName>, sync: set<TypeName>)
    requires Unmixed(app) && u in Accesses(app) && u.access.Shared? && u.name in types
    requires OwnershipIn(Accesses(app), u.name).Some? && OwnershipIn(Accesses(app), u.name).value.Contended?
    requires SyncComplete(Accesses(app), types, sync)
    ensures types[u.name] in sync
  {
    forall w | w in Accesses(app) ensures w.priority.Some? {
      UsesOfAllMembers(Tasks(app), w);
    }
    assert !Mixed(Accesses(app), u.name);
    assert NeedsSync(Accesses(app), u.name) && OnlyShared(Accesses(app), u.name);
  }
}
