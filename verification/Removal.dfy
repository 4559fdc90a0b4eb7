// Removal of the sets an invalidation selected, with its three-way account.
module Removal {
  import opened Disk
  import opened Directory
  import opened Publish
  import opened Reconcile

  datatype Account = Account(report: Report, ledger: set<string>)

  predicate Removable(n: Node) {
    n.File? || SafeTree(n)
  }

  // `_remove_entry`: a plain file or a whole tree, never through a link.
  method RemoveEntry(dir: Parent, n: Name) returns (st: Status, removed: bool)
    requires dir.Valid() && n in dir.disk.entries
    modifies dir`clock, dir`disk, dir`history, dir`log
    ensures dir.Valid() && Elsewhere(old(dir.disk), dir.disk, {n})
    ensures st == Done || (st == Interrupted && !removed)
    ensures removed ==> n !in dir.disk.entries
    ensures old(dir.Calm()) ==>
              dir.Calm() && st == Done && removed == Removable(old(dir.disk.inodes)[old(dir.disk.entries)[n]].node)
  {
    var node := dir.disk.inodes[dir.disk.entries[n]].node;
    if node.Folder? {
      ghost var before := dir.disk;
      st, removed := dir.RemoveTree(n);
      ShrunkIsElsewhere(before, dir.disk, n);
    } else if node.Special? {
      return Done, false;
    } else {
      var answer: bool;
      st, answer := dir.Live();
      if !answer { return st, false; }
      st, removed := dir.Unhook(n);
    }
  }

  ghost function Finals(ids: set<string>): set<Name> {
    set id | id in ids :: Final(id)
  }

  function Kept(ids: set<string>): set<Place> {
    set id | id in ids :: Entry(Final(id))
  }

  // The account so far: `visited` splits into what was unlinked, what is
  // residual and what was not there.
  ghost predicate Accounted(first: State, d: State, visited: set<string>, unlinked: set<string>,
                            residual: set<string>)
  {
    && unlinked <= visited && residual <= visited && unlinked !! residual
    && (forall id | id in visited && id !in unlinked && id !in residual :: Final(id) !in first.entries)
    && (forall id | id in unlinked :: Final(id) in first.entries && Final(id) !in d.entries)
    && Elsewhere(first, d, Finals(visited))
  }

  datatype Visit = Unlinked | Left | Missing | Gone | Cut

  // One turn of the loop: `Gone` means the binding no longer holds, `Cut` an interrupt.
  method VisitOne(dir: Parent, id: string) returns (v: Visit)
    requires dir.Valid()
    modifies dir`clock, dir`disk, dir`history, dir`log
    ensures dir.Valid() && Elsewhere(old(dir.disk), dir.disk, {Final(id)})
    ensures v.Unlinked? ==> Final(id) in old(dir.disk.entries) && Final(id) !in dir.disk.entries
    ensures v.Missing? ==> Final(id) !in old(dir.disk.entries)
    ensures v.Gone? ==> dir.disk == old(dir.disk)
    ensures old(dir.Calm()) ==> dir.Calm() && v == Expected(old(dir.disk), id)
  {
    var st, answer := dir.Live();
    if st != Done { return Cut; }
    if !answer { return Gone; }
    var present, removed: bool;
    st, present := dir.Present(Final(id));
    if st != Done { return if st == Interrupted then Cut else Left; }
    if !present {
      st, answer := dir.Live();
      return if st != Done then Cut else if answer then Missing else Left;
    }
    st, removed := RemoveEntry(dir, Final(id));
    return if st != Done then Cut else if removed then Unlinked else Left;
  }

  ghost function Expected(d: State, id: string): Visit {
    if Final(id) !in d.entries then Missing
    else if Removable(d.inodes[d.entries[Final(id)]].node) then Unlinked else Left
  }

  lemma AccountStep(first: State, a: State, b: State, id: string, v: Visit, visited: set<string>,
                    unlinked: set<string>, residual: set<string>)
    requires Accounted(first, a, visited, unlinked, residual) && id !in visited
    requires Elsewhere(a, b, {Final(id)}) && (v.Unlinked? || v.Left? || v.Missing?)
    requires v.Unlinked? ==> Final(id) in a.entries && Final(id) !in b.entries
    requires v.Missing? ==> Final(id) !in a.entries
    ensures Accounted(first, b, visited + {id}, if v.Unlinked? then unlinked + {id} else unlinked,
                      if v.Left? then residual + {id} else residual)
  {
    assert Finals(visited + {id}) == Finals(visited) + {Final(id)};
    assert Final(id) !in Finals(visited);
    ElsewhereJoin(first, a, b, Finals(visited), {Final(id)});
    assert Same(first, a, Final(id));
    forall x | x in unlinked ensures Final(x) !in b.entries {
      assert Same(a, b, Final(x));
    }
  }

  /** `_remove_managed_sets`, once the roots resolve. Every selected ID is
      exactly one of: in the ledger, reported residual, or absent when the pass
      began. The ledger holds only removals no crash can undo, nothing that was
      not selected is touched, and after the binding fails for good nothing is
      unlinked. */
  method RemoveManagedSets(dir: Parent, ids: set<string>) returns (account: Account)
    requires dir.Valid()
    modifies dir`clock, dir`disk, dir`history, dir`log
    ensures dir.Valid() && Elsewhere(old(dir.disk), dir.disk, Finals(ids))
    ensures account.ledger <= ids && (account.report.Escaped? ==> account.ledger == {})
    ensures forall id | id in account.ledger ::
              Final(id) in old(dir.disk.entries) && forall m | m in dir.disk.survivors :: Final(id) !in m
    ensures account.report.Residual? ==> forall id | id in ids ::
              && !(id in account.ledger && Entry(Final(id)) in account.report.places)
              && (id !in account.ledger && Entry(Final(id)) !in account.report.places ==>
                    Final(id) !in old(dir.disk.entries))
    ensures old(dir.Calm()) ==> account.report.Residual?
    ensures old(dir.Calm()) ==> forall id | id in ids ::
              && (id in account.ledger <==> Expected(old(dir.disk), id) == Unlinked)
              && (Entry(Final(id)) in account.report.places <==> Expected(old(dir.disk), id) == Left)
  {
    if ids == {} { return Account(Residual({}), {}); }
    var st, answer := dir.Live();
    if st != Done { return Account(Escaped(Raised(Interrupted)), {}); }
    if !answer { return Account(Residual(Kept(ids)), {}); }
    var cut, unlinked, residual := VisitAll(dir, ids);
    if cut { return Account(Escaped(Raised(Interrupted)), {}); }
    if unlinked == {} { return Account(Residual(Kept(residual)), {}); }
    st := dir.FsyncParent();
    if st == Interrupted { return Account(Escaped(Raised(Interrupted)), {}); }
    if st == Done {
      st, answer := dir.Live();
      if st != Done { return Account(Escaped(Raised(Interrupted)), {}); }
      if answer { return Account(Residual(Kept(residual)), unlinked); }
    }
    return Account(Residual(Kept(residual + unlinked) + {WholeParent}), {});
  }

  // The account of a pass without faults.
  ghost predicate AsExpected(first: State, visited: set<string>, unlinked: set<string>, residual: set<string>) {
    forall id | id in visited ::
      && (id in unlinked <==> Expected(first, id) == Unlinked)
      && (id in residual <==> Expected(first, id) == Left)
  }

  // One turn with its bookkeeping.
  method VisitNext(dir: Parent, id: string, ghost first: State, ghost visited: set<string>, ghost unlinked: set<string>,
                   ghost residual: set<string>, ghost calm: bool)
    returns (v: Visit)
    requires dir.Valid() && id !in visited && Accounted(first, dir.disk, visited, unlinked, residual)
    requires calm ==> dir.Calm() && AsExpected(first, visited, unlinked, residual)
    modifies dir`clock, dir`disk, dir`history, dir`log
    ensures dir.Valid() && Elsewhere(first, dir.disk, Finals(visited) + {Final(id)})
    ensures v.Gone? ==> Accounted(first, dir.disk, visited, unlinked, residual)
    ensures v.Unlinked? || v.Left? || v.Missing? ==>
      Accounted(first, dir.disk, visited + {id}, if v.Unlinked? then unlinked + {id} else unlinked,
        if v.Left? then residual + {id} else residual)
    ensures calm ==> dir.Calm() && (v.Unlinked? || v.Left? || v.Missing?)
    ensures calm ==>
      AsExpected(first, visited + {id}, if v.Unlinked? then unlinked + {id} else unlinked,
        if v.Left? then residual + {id} else residual)
  {
    ghost var before: State := dir.disk;
    assert Final(id) !in Finals(visited);
    v := VisitOne(dir, id);
    ElsewhereJoin(first, before, dir.disk, Finals(visited), {Final(id)});
    if v.Unlinked? || v.Left? || v.Missing? {
      AccountStep(first, before, dir.disk, id, v, visited, unlinked, residual);
    }
  }

  // What is not visited once the binding no longer holds is residual as it stands.
  lemma RestIsResidual(first: State, d: State, ids: set<string>, visited: set<string>, todo: set<string>,
                       unlinked: set<string>, residual: set<string>)
    requires visited !! todo && visited + todo == ids && Accounted(first, d, visited, unlinked, residual)
    ensures Accounted(first, d, ids, unlinked, residual + todo)
  {
    assert Finals(visited) <= Finals(ids);
  }

  lemma FinalsGrow(ids: set<string>, visited: set<string>, id: string)
    requires visited <= ids && id in ids
    ensures Finals(visited) + {Final(id)} <= Finals(ids)
  {
  }

  method VisitAll(dir: Parent, ids: set<string>) returns (cut: bool, unlinked: set<string>, residual: set<string>)
    requires dir.Valid()
    modifies dir`clock, dir`disk, dir`history, dir`log
    ensures dir.Valid() && Elsewhere(old(dir.disk), dir.disk, Finals(ids))
    ensures !cut ==> Accounted(old(dir.disk), dir.disk, ids, unlinked, residual)
    ensures old(dir.Calm()) ==> dir.Calm() && !cut && AsExpected(old(dir.disk), ids, unlinked, residual)
  {
    ghost var first: State := dir.disk;
    unlinked, residual, cut := {}, {}, false;
    var todo := ids;
    ghost var visited := {};
    while todo != {}
      invariant dir.Valid() && visited !! todo && visited + todo == ids
      invariant Accounted(first, dir.disk, visited, unlinked, residual)
      invariant old(dir.Calm()) ==> dir.Calm() && AsExpected(first, visited, unlinked, residual)
      decreases |todo|
    {
      var id :| id in todo;
      FinalsGrow(ids, visited, id);
      var v := VisitNext(dir, id, first, visited, unlinked, residual, old(dir.Calm()));
      if v.Cut? { return true, unlinked, residual; }
      if v.Gone? {
        RestIsResidual(first, dir.disk, ids, visited, todo, unlinked, residual);
        return false, unlinked, residual + todo;
      }
      MoveOver(visited, todo, id);
      todo, visited := todo - {id}, visited + {id};
      if v.Unlinked? { unlinked := unlinked + {id}; }
      if v.Left? { residual := residual + {id}; }
    }
    assert visited == ids;
  }
}
