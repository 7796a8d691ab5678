/** Reconciliation of the local record against the broker: `daemon/src/recovery.rs`. */
module Recovery {
  import opened Domain

  datatype Report = Report(orphaned: seq<Position>, unknown: seq<Position>, confirmed: seq<Position>) {
    predicate Clean() { orphaned == [] && unknown == [] }
  }

  function Ids(positions: seq<Position>): set<int> {
    set p | p in positions :: p.id
  }

  predicate DistinctIds(positions: seq<Position>) {
    forall i, j :: 0 <= i < j < |positions| ==> positions[i].id != positions[j].id
  }

  /** The positions whose id is in the set, or those whose id is not, in order and with duplicates. */
  function Filter(positions: seq<Position>, ids: set<int>, inside: bool): seq<Position> {
    if positions == [] then []
    else
      var p := positions[|positions| - 1];
      Filter(positions[..|positions| - 1], ids, inside) + if (p.id in ids) == inside then [p] else []
  }

  function Reconcile(broker: seq<Position>, local: seq<Position>): Report {
    Report(Filter(local, Ids(broker), false), Filter(broker, Ids(local), false), Filter(local, Ids(broker), true))
  }

  function ApplyReconciliation(report: Report): seq<Position> {
    report.confirmed + report.unknown
  }

  function Reconciled(broker: seq<Position>, local: seq<Position>): seq<Position> {
    ApplyReconciliation(Reconcile(broker, local))
  }

  // ---------- Filtering ----------

  lemma {:induction false} FilterMembers(positions: seq<Position>, ids: set<int>, inside: bool, p: Position)
    ensures p in Filter(positions, ids, inside) <==> p in positions && (p.id in ids) == inside
  {
    if positions != [] {
      FilterMembers(positions[..|positions| - 1], ids, inside, p);
      assert positions == positions[..|positions| - 1] + [positions[|positions| - 1]];
    }
  }

  /** The two filters share out the list: nothing is lost and nothing is in both. */
  lemma {:induction false} FiltersShareOut(positions: seq<Position>, ids: set<int>)
    ensures multiset(positions) == multiset(Filter(positions, ids, true)) + multiset(Filter(positions, ids, false))
  {
    if positions != [] {
      var rest, p := positions[..|positions| - 1], positions[|positions| - 1];
      FiltersShareOut(rest, ids);
      assert positions == rest + [p];
      assert Filter(positions, ids, true) == Filter(rest, ids, true) + if p.id in ids then [p] else [];
      assert Filter(positions, ids, false) == Filter(rest, ids, false) + if p.id in ids then [] else [p];
      hide Filter;
    }
  }

  lemma {:induction false} FilterAll(positions: seq<Position>, ids: set<int>, inside: bool)
    requires forall p :: p in positions ==> (p.id in ids) == inside
    ensures Filter(positions, ids, inside) == positions
    ensures Filter(positions, ids, !inside) == []
  {
    if positions != [] {
      var rest, p := positions[..|positions| - 1], positions[|positions| - 1];
      assert positions == rest + [p];
      assert (p.id in ids) == inside;
      assert Filter(positions, ids, inside) == Filter(rest, ids, inside) + [p];
      assert Filter(positions, ids, !inside) == Filter(rest, ids, !inside) + [];
      hide Filter;
      FilterAll(rest, ids, inside);
    }
  }

  // ---------- What reconciliation does ----------

  /** A reconciled position is the local record of something the broker has open, or the broker's own record
      of something the local side had never heard of. */
  lemma ReconciledMembers(broker: seq<Position>, local: seq<Position>, p: Position)
    ensures p in Reconciled(broker, local) <==>
            if p.id in Ids(local) then p in local && p.id in Ids(broker) else p in broker
  {
    FilterMembers(local, Ids(broker), true, p);
    FilterMembers(broker, Ids(local), false, p);
  }

  /** The broker's view wins: whatever the local side believed, duplicates and all, exactly the broker's ids
      are left. */
  lemma ReconciledIds(broker: seq<Position>, local: seq<Position>)
    ensures Ids(Reconciled(broker, local)) == Ids(broker)
  {
    hide Reconciled;
    forall p | p in broker
      ensures p.id in Ids(Reconciled(broker, local))
    {
      if p.id in Ids(local) {
        var q :| q in local && q.id == p.id;
        ReconciledMembers(broker, local, q);
      } else {
        ReconciledMembers(broker, local, p);
      }
    }
    forall p | p in Reconciled(broker, local)
      ensures p.id in Ids(broker)
    {
      ReconciledMembers(broker, local, p);
    }
  }

  /** Every local record is confirmed or orphaned, once for each time it was known. */
  lemma LocalAccountedFor(broker: seq<Position>, local: seq<Position>)
    ensures var r := Reconcile(broker, local);
            && multiset(local) == multiset(r.confirmed) + multiset(r.orphaned)
            && Ids(r.orphaned) == Ids(local) - Ids(broker)
            && Ids(r.confirmed) == Ids(local) * Ids(broker)
            && Ids(r.unknown) == Ids(broker) - Ids(local)
  {
    FiltersShareOut(local, Ids(broker));
    FilterIds(local, Ids(broker), true);
    FilterIds(local, Ids(broker), false);
    FilterIds(broker, Ids(local), false);
  }

  lemma FilterIds(positions: seq<Position>, ids: set<int>, inside: bool)
    ensures Ids(Filter(positions, ids, inside)) == if inside then Ids(positions) * ids else Ids(positions) - ids
  {
    forall p
      ensures p in Filter(positions, ids, inside) <==> p in positions && (p.id in ids) == inside
    {
      FilterMembers(positions, ids, inside, p);
    }
  }

  lemma NoIds(positions: seq<Position>)
    ensures Ids(positions) == {} <==> positions == []
  {
    if positions != [] {
      assert positions[0].id in Ids(positions);
    }
  }

  /** The report is clean exactly when both sides know the same ids. */
  lemma CleanIffSameIds(broker: seq<Position>, local: seq<Position>)
    ensures Reconcile(broker, local).Clean() <==> Ids(broker) == Ids(local)
  {
    hide Ids, Filter;
    LocalAccountedFor(broker, local);
    NoIds(Reconcile(broker, local).orphaned);
    NoIds(Reconcile(broker, local).unknown);
  }

  lemma SameIdsSettled(broker: seq<Position>, known: seq<Position>)
    requires Ids(known) == Ids(broker)
    ensures Reconcile(broker, known) == Report([], [], known)
  {
    hide Filter;
    FilterAll(known, Ids(broker), true);
    FilterAll(broker, Ids(known), true);
  }

  /** Reconciling again against an unchanged broker finds nothing and changes nothing. */
  lemma ReconcileSettles(broker: seq<Position>, local: seq<Position>)
    ensures Reconcile(broker, Reconciled(broker, local)).Clean()
    ensures Reconciled(broker, Reconciled(broker, local)) == Reconciled(broker, local)
  {
    hide Filter, Ids, Reconciled;
    ReconciledIds(broker, local);
    SameIdsSettled(broker, Reconciled(broker, local));
    ReconciledUnfolds(broker, Reconciled(broker, local));
  }

  lemma ReconciledUnfolds(broker: seq<Position>, local: seq<Position>)
    ensures Reconciled(broker, local) == Reconcile(broker, local).confirmed + Reconcile(broker, local).unknown
  {
    hide Reconcile;
  }

  lemma {:induction false} IdsCount(positions: seq<Position>)
    ensures |Ids(positions)| <= |positions|
    ensures DistinctIds(positions) <==> |Ids(positions)| == |positions|
  {
    if positions != [] {
      var rest, p := positions[..|positions| - 1], positions[|positions| - 1];
      IdsCount(rest);
      assert positions == rest + [p];
      assert Ids(positions) == Ids(rest) + {p.id};
      assert p.id in Ids(rest) <==> exists i :: 0 <= i < |rest| && rest[i].id == p.id;
    }
  }

  /** A count of reconciled positions never understates what the broker has open, and is exact unless the
      local side knew an open position twice. */
  lemma ReconciledCount(broker: seq<Position>, local: seq<Position>)
    requires DistinctIds(broker)
    ensures |Reconciled(broker, local)| >= |broker|
    ensures |Reconciled(broker, local)| == |broker| <==> DistinctIds(Reconciled(broker, local))
  {
    ReconciledIds(broker, local);
    IdsCount(broker);
    IdsCount(Reconciled(broker, local));
  }
}
