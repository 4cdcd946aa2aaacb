/** `AutoAssignSystem` of auto_assign_module.py: a plain index round-robin over the active
    configuration whose `assign_lead_to_cre` re-reads the CRE count on every call, the count
    reset, the pass over every configured source, and the health score. */
module ModuleAssign {
  import opened PyStr
  import opened Tables
  import opened RoundRobin

  // ---------------------------------------------------------------------------------------------
  // assign_lead_to_cre

  /** The writes of `assign_lead_to_cre`: the lead row (lead_status untouched), the count read at
      entry + 1, and the history row with before = that count and after = before + 1. They happen
      whether or not a row has the uid. */
  function AssignWrites(db: Db, uid: string, creId: int, name: string, source: string, now: string): Db {
    var current := CurrentCount(db.cres, creId);
    db.(leads := MarkAssigned(db.leads, uid, false, name, now, None),
        cres := WithCount(db.cres, creId, current + 1),
        history := db.history + [FairHistory(uid, source, creId, name, current)])
  }

  /** The closing check: the first row with the uid reads assigned = 'Yes'. */
  predicate ShowsAssigned(leads: seq<Lead>, uid: string) {
    var k := FirstLead(leads, uid);
    k.Some? && leads[k.value].assignedFlag == "Yes"
  }

  datatype Assignment = Assignment(db: Db, ok: bool)

  function AssignResult(db: Db, uid: string, creId: int, name: string, source: string, now: string): Assignment {
    var r := AssignWrites(db, uid, creId, name, source, now);
    Assignment(r, ShowsAssigned(r.leads, uid))
  }

  method AssignLeadToCre(crm: Crm, uid: string, creId: int, name: string, source: string, now: string)
    returns (ok: bool)
    modifies crm
    ensures Assignment(crm.State(), ok) == AssignResult(old(crm.State()), uid, creId, name, source, now)
  {
    var k := FirstCre(crm.cres, creId);
    var current := if k.Some? then crm.cres[k.value].count else 0;
    assert current == CurrentCount(crm.cres, creId);
    ghost var db := crm.State();
    var matched := crm.UpdateLeads(uid, false, name, now, None);
    crm.SetCount(creId, current + 1);
    crm.InsertHistory(FairHistory(uid, source, creId, name, current));
    assert crm.State() == AssignWrites(db, uid, creId, name, source, now);
    var v := FirstLead(crm.leads, uid);
    ok := v.Some? && crm.leads[v.value].assignedFlag == "Yes";
  }

  /** lead_master has a row with the uid. */
  predicate Present(rows: seq<Lead>, uid: string) {
    exists j :: 0 <= j < |rows| && rows[j].uid == uid
  }

  /** The call reports success exactly when lead_master has a row with the uid. */
  lemma AssignOkIff(db: Db, uid: string, creId: int, name: string, source: string, now: string)
    ensures AssignResult(db, uid, creId, name, source, now).ok <==> Present(db.leads, uid)
  {
    var leads := AssignWrites(db, uid, creId, name, source, now).leads;
    forall j | 0 <= j < |db.leads|
      ensures leads[j] == if db.leads[j].uid == uid then Bound(db.leads[j], name, now, None) else db.leads[j]
    {
      MarkAssignedAt(db.leads, uid, false, name, now, None, j);
    }
    FirstLeadIsFirst(leads, uid);
    if Present(db.leads, uid) {
      var j :| 0 <= j < |db.leads| && db.leads[j].uid == uid;
      assert leads[j].uid == uid;
    }
  }

  /** With distinct ids the CRE's count goes up by exactly one from its current value and no other
      row changes; the history row logs that current value. */
  lemma AssignCounts(db: Db, uid: string, creId: int, name: string, source: string, now: string)
    requires DistinctIds(db.cres)
    ensures var r := AssignWrites(db, uid, creId, name, source, now);
      |r.cres| == |db.cres| &&
      (forall j :: 0 <= j < |db.cres| ==>
         r.cres[j] == if db.cres[j].id == creId then db.cres[j].(count := db.cres[j].count + 1) else db.cres[j]) &&
      (forall j :: 0 <= j < |db.cres| && db.cres[j].id == creId ==>
         r.history == db.history + [FairHistory(uid, source, creId, name, db.cres[j].count)])
  {
    var r := AssignWrites(db, uid, creId, name, source, now);
    FirstCreIsFirst(db.cres, creId);
    forall j | 0 <= j < |db.cres|
      ensures r.cres[j] == if db.cres[j].id == creId then db.cres[j].(count := db.cres[j].count + 1) else db.cres[j]
    {
      WithCountAt(db.cres, creId, CurrentCount(db.cres, creId) + 1, j);
    }
  }

  // ---------------------------------------------------------------------------------------------
  // auto_assign_new_leads_for_source

  /** The name the loop passes: that of the first CRE with the id, or `CRE_<id>`. */
  function CreName(cres: seq<Cre>, id: int): string {
    match FirstCre(cres, id)
    case None => "CRE_" + IntToString(id)
    case Some(k) => cres[k].name
  }

  /** The database, `assigned_count` and `failed_assignments` so far. */
  datatype ModPass = ModPass(db: Db, assignedCount: nat, failed: seq<string>)

  /** cre_ids[i % len(cre_ids)]: the CRE whose turn iteration i is. */
  function Turn(ids: seq<int>, i: nat): (id: int)
    requires |ids| > 0
    ensures id in ids
  {
    ids[i % |ids|]
  }

  /** Iteration i: the lead goes to cre_ids[i mod n] under the name `nameOf` looks up (CreName in
      the source's loop); a failed call records the uid. */
  function ModStep(source: string, ids: seq<int>, leads: seq<Lead>,
                   nameOf: (seq<Cre>, int) -> string, s: ModPass, i: nat, now: string): ModPass
    requires |ids| > 0 && i < |leads|
  {
    var id := Turn(ids, i);
    var a := AssignResult(s.db, leads[i].uid, id, nameOf(s.db.cres, id), source, now);
    ModPass(a.db, s.assignedCount + (if a.ok then 1 else 0), s.failed + (if a.ok then [] else [leads[i].uid]))
  }

  function ModRun(source: string, ids: seq<int>, leads: seq<Lead>,
                  nameOf: (seq<Cre>, int) -> string, db: Db, k: nat, now: string): ModPass
    requires |ids| > 0 && k <= |leads|
    decreases k
  {
    if k == 0 then ModPass(db, 0, [])
    else ModStep(source, ids, leads, nameOf, ModRun(source, ids, leads, nameOf, db, k - 1, now), k - 1, now)
  }

  /** The returned dictionary (failed_count is |failedLeads|) and the database after the call. */
  datatype ModOutcome = ModOutcome(success: bool, assignedCount: nat, totalProcessed: nat,
                                   failedLeads: seq<string>, db: Db)

  function ModAssignOutcome(db: Db, source: string, now: string): ModOutcome {
    var ids := ConfiguredCreIds(db.configs, source, true);
    var leads := Unassigned(db.leads, source);
    if ids == [] then ModOutcome(false, 0, 0, [], db)
    else if leads == [] then ModOutcome(true, 0, 0, [], db)
    else
      var r := ModRun(source, ids, leads, CreName, db, |leads|, now);
      ModOutcome(true, r.assignedCount, |leads|, r.failed, r.db)
  }

  method AutoAssignNewLeadsForSource(crm: Crm, source: string, now: string)
    returns (success: bool, assignedCount: nat, totalProcessed: nat, failedLeads: seq<string>)
    modifies crm
    ensures ModOutcome(success, assignedCount, totalProcessed, failedLeads, crm.State()) ==
            ModAssignOutcome(old(crm.State()), source, now)
  {
    var ids := ConfiguredCreIds(crm.configs, source, true);
    if ids == [] {
      return false, 0, 0, [];
    }
    var leads := Unassigned(crm.leads, source);
    if leads == [] {
      return true, 0, 0, [];
    }
    ghost var db0 := crm.State();
    assignedCount, failedLeads := 0, [];
    for i := 0 to |leads|
      invariant ModPass(crm.State(), assignedCount, failedLeads) == ModRun(source, ids, leads, CreName, db0, i, now)
    {
      assignedCount, failedLeads := ModAssignOne(crm, source, ids, leads, i, assignedCount, failedLeads, now);
    }
    success, totalProcessed := true, |leads|;
  }

  method ModAssignOne(crm: Crm, source: string, ids: seq<int>, leads: seq<Lead>, i: nat,
                      assignedCount: nat, failed: seq<string>, now: string)
    returns (count: nat, failed': seq<string>)
    requires |ids| > 0 && i < |leads|
    modifies crm
    ensures ModPass(crm.State(), count, failed') ==
            ModStep(source, ids, leads, CreName, ModPass(old(crm.State()), assignedCount, failed), i, now)
  {
    var id := Turn(ids, i);
    var k := FirstCre(crm.cres, id);
    var name := if k.Some? then crm.cres[k.value].name else "CRE_" + IntToString(id);
    assert name == CreName(crm.cres, id);
    var ok := AssignLeadToCre(crm, leads[i].uid, id, name, source, now);
    if ok {
      count, failed' := assignedCount + 1, failed;
      assert failed' == failed + [];
    } else {
      count, failed' := assignedCount, failed + [leads[i].uid];
    }
  }

  /** One iteration makes the writes of `assign_lead_to_cre` and counts the lead exactly once,
      as assigned or as failed. */
  lemma ModStepCounters(source: string, ids: seq<int>, leads: seq<Lead>,
                        nameOf: (seq<Cre>, int) -> string, s: ModPass, i: nat, now: string)
    requires |ids| > 0 && i < |leads|
    ensures var r := ModStep(source, ids, leads, nameOf, s, i, now);
      var id := Turn(ids, i);
      r.db == AssignWrites(s.db, leads[i].uid, id, nameOf(s.db.cres, id), source, now) &&
      r.assignedCount + |r.failed| == s.assignedCount + |s.failed| + 1
  {
  }

  /** What k iterations have done to the counters and the shapes of the tables. */
  predicate ModShape(db: Db, r: ModPass, k: nat) {
    r.assignedCount + |r.failed| == k && |r.db.history| == |db.history| + k &&
    r.db.configs == db.configs && |r.db.leads| == |db.leads| && |r.db.cres| == |db.cres| &&
    (forall j :: 0 <= j < |db.leads| ==> r.db.leads[j].uid == db.leads[j].uid) &&
    (forall j :: 0 <= j < |db.cres| ==> r.db.cres[j].id == db.cres[j].id)
  }

  /** Every lead is either assigned or failed (assigned_count + failed_count = total_processed),
      each adds one history row, and no row changes its key. */
  lemma {:induction false} ModRunShape(source: string, ids: seq<int>, leads: seq<Lead>,
                                       nameOf: (seq<Cre>, int) -> string, db: Db, k: nat, now: string)
    requires |ids| > 0 && k <= |leads|
    ensures ModShape(db, ModRun(source, ids, leads, nameOf, db, k, now), k)
    decreases k
  {
    if k > 0 {
      var i := k - 1;
      ModRunShape(source, ids, leads, nameOf, db, i, now);
      var s := ModRun(source, ids, leads, nameOf, db, i, now);
      var id := Turn(ids, i);
      var uid := leads[i].uid;
      var name := nameOf(s.db.cres, id);
      var r := ModRun(source, ids, leads, nameOf, db, k, now);
      ModStepCounters(source, ids, leads, nameOf, s, i, now);
      var c := CurrentCount(s.db.cres, id) + 1;
      forall j | 0 <= j < |db.leads|
        ensures r.db.leads[j].uid == db.leads[j].uid
      {
        MarkAssignedAt(s.db.leads, uid, false, name, now, None, j);
      }
      forall j | 0 <= j < |db.cres|
        ensures r.db.cres[j].id == db.cres[j].id
      {
        WithCountAt(s.db.cres, id, c, j);
      }
    }
  }

  /** The history rows of the first k leads: the t-th sends the t-th lead to cre_ids[t mod n]. */
  predicate ModTargets(source: string, ids: seq<int>, leads: seq<Lead>, db: Db, r: ModPass, k: nat)
    requires |ids| > 0 && k <= |leads|
  {
    |r.db.history| == |db.history| + k &&
    forall t :: 0 <= t < k ==>
      r.db.history[|db.history| + t].leadUid == leads[t].uid &&
      r.db.history[|db.history| + t].creId == Turn(ids, t) &&
      r.db.history[|db.history| + t].source == source
  }

  /** The i-th fetched lead is sent to cre_ids[i mod n]. */
  lemma {:induction false} ModRunTargets(source: string, ids: seq<int>, leads: seq<Lead>,
                                         nameOf: (seq<Cre>, int) -> string, db: Db, k: nat, now: string)
    requires |ids| > 0 && k <= |leads|
    ensures ModTargets(source, ids, leads, db, ModRun(source, ids, leads, nameOf, db, k, now), k)
    decreases k
  {
    if k > 0 {
      var i := k - 1;
      ModRunTargets(source, ids, leads, nameOf, db, i, now);
      var s := ModRun(source, ids, leads, nameOf, db, i, now);
      var id := Turn(ids, i);
      var r := ModRun(source, ids, leads, nameOf, db, k, now);
      assert r.db.history ==
             s.db.history + [FairHistory(leads[i].uid, source, id, nameOf(s.db.cres, id), CurrentCount(s.db.cres, id))];
      forall t | 0 <= t < k
        ensures r.db.history[|db.history| + t].leadUid == leads[t].uid &&
                r.db.history[|db.history| + t].creId == Turn(ids, t) &&
                r.db.history[|db.history| + t].source == source
      {
        if t < i {
          assert r.db.history[|db.history| + t] == s.db.history[|db.history| + t];
        }
      }
    }
  }

  /** A lead whose uid is in lead_master is counted as assigned. */
  lemma ModStepOk(source: string, ids: seq<int>, leads: seq<Lead>, nameOf: (seq<Cre>, int) -> string,
                  db: Db, i: nat, now: string)
    requires |ids| > 0 && i < |leads|
    requires Present(ModRun(source, ids, leads, nameOf, db, i, now).db.leads, leads[i].uid)
    ensures var s := ModRun(source, ids, leads, nameOf, db, i, now);
      var r := ModRun(source, ids, leads, nameOf, db, i + 1, now);
      r.assignedCount == s.assignedCount + 1 && r.failed == s.failed
  {
    var s := ModRun(source, ids, leads, nameOf, db, i, now);
    var id := Turn(ids, i);
    AssignOkIff(s.db, leads[i].uid, id, nameOf(s.db.cres, id), source, now);
    assert ModRun(source, ids, leads, nameOf, db, i + 1, now) == ModStep(source, ids, leads, nameOf, s, i, now);
  }

  /** Every fetched lead's uid has a row in lead_master. */
  predicate AllPresent(rows: seq<Lead>, leads: seq<Lead>) {
    forall n :: 0 <= n < |leads| ==> Present(rows, leads[n].uid)
  }

  /** A uid present at the start is still present after i iterations. */
  lemma ModRunPresent(source: string, ids: seq<int>, leads: seq<Lead>, nameOf: (seq<Cre>, int) -> string,
                      db: Db, i: nat, now: string)
    requires |ids| > 0 && i < |leads| && AllPresent(db.leads, leads)
    ensures Present(ModRun(source, ids, leads, nameOf, db, i, now).db.leads, leads[i].uid)
  {
    var s := ModRun(source, ids, leads, nameOf, db, i, now);
    ModRunShape(source, ids, leads, nameOf, db, i, now);
    assert Present(db.leads, leads[i].uid);
    var j :| 0 <= j < |db.leads| && db.leads[j].uid == leads[i].uid;
    assert s.db.leads[j].uid == leads[i].uid;
  }

  /** All k leads so far were counted as assigned. */
  predicate NoneFailed(p: ModPass, k: nat) {
    p.assignedCount == k && p.failed == []
  }

  /** When every fetched uid is present (as it is for leads fetched from this table), no call
      fails: every lead is counted as assigned. */
  lemma {:induction false} ModRunNoFailures(source: string, ids: seq<int>, leads: seq<Lead>,
                                            nameOf: (seq<Cre>, int) -> string, db: Db, k: nat, now: string)
    requires |ids| > 0 && k <= |leads|
    requires AllPresent(db.leads, leads)
    ensures NoneFailed(ModRun(source, ids, leads, nameOf, db, k, now), k)
    decreases k
  {
    if k > 0 {
      ModRunNoFailures(source, ids, leads, nameOf, db, k - 1, now);
      ModRunPresent(source, ids, leads, nameOf, db, k - 1, now);
      ModStepOk(source, ids, leads, nameOf, db, k - 1, now);
    }
  }

  /** The number of the first k leads that the round-robin sends to `id`. */
  function Hits(ids: seq<int>, k: nat, id: int): nat
    requires |ids| > 0
  {
    if k == 0 then 0 else Hits(ids, k - 1, id) + (if Turn(ids, k - 1) == id then 1 else 0)
  }

  /** `r` is `s` with one added to the count of the row(s) with the id. */
  predicate BumpedAt(s: seq<Cre>, r: seq<Cre>, id: int) {
    |r| == |s| && forall j :: 0 <= j < |s| ==> r[j] == if s[j].id == id then s[j].(count := s[j].count + 1) else s[j]
  }

  /** One iteration adds one to the count of the CRE whose turn it is and changes no other row. */
  lemma ModStepCounts(source: string, ids: seq<int>, leads: seq<Lead>, nameOf: (seq<Cre>, int) -> string,
                      db: Db, i: nat, now: string)
    requires |ids| > 0 && i < |leads| && DistinctIds(ModRun(source, ids, leads, nameOf, db, i, now).db.cres)
    ensures BumpedAt(ModRun(source, ids, leads, nameOf, db, i, now).db.cres,
                     ModRun(source, ids, leads, nameOf, db, i + 1, now).db.cres, Turn(ids, i))
  {
    var s := ModRun(source, ids, leads, nameOf, db, i, now);
    var id := Turn(ids, i);
    AssignCounts(s.db, leads[i].uid, id, nameOf(s.db.cres, id), source, now);
    ModStepCounters(source, ids, leads, nameOf, s, i, now);
    assert ModRun(source, ids, leads, nameOf, db, i + 1, now) == ModStep(source, ids, leads, nameOf, s, i, now);
  }

  /** Every CRE row has its initial count plus the number of the first k leads sent to it. */
  predicate CountsAfter(cres0: seq<Cre>, cres: seq<Cre>, ids: seq<int>, k: nat)
    requires |ids| > 0
  {
    |cres| == |cres0| &&
    forall j :: 0 <= j < |cres0| ==> cres[j] == cres0[j].(count := cres0[j].count + Hits(ids, k, cres0[j].id))
  }

  /** Counting keeps the ids, so it keeps them distinct. */
  lemma CountsAfterDistinct(cres0: seq<Cre>, cres: seq<Cre>, ids: seq<int>, k: nat)
    requires |ids| > 0 && DistinctIds(cres0) && CountsAfter(cres0, cres, ids, k)
    ensures DistinctIds(cres)
  {
    assert forall j :: 0 <= j < |cres0| ==> cres[j].id == cres0[j].id;
  }

  /** A bump of the k-th turn's CRE extends the count by the k-th lead. */
  lemma CountsAfterBump(cres0: seq<Cre>, s: seq<Cre>, r: seq<Cre>, ids: seq<int>, k: nat)
    requires |ids| > 0 && k > 0 && CountsAfter(cres0, s, ids, k - 1) && BumpedAt(s, r, Turn(ids, k - 1))
    ensures CountsAfter(cres0, r, ids, k)
  {
    forall j | 0 <= j < |cres0|
      ensures r[j] == cres0[j].(count := cres0[j].count + Hits(ids, k, cres0[j].id))
    {
      assert s[j].id == cres0[j].id;
    }
  }

  /** Unlike the snapshot-writing distributors, this one re-reads the count on every call: a CRE
      ends with its initial count plus the number of leads sent to it. */
  lemma {:induction false} ModRunCounts(source: string, ids: seq<int>, leads: seq<Lead>,
                                        nameOf: (seq<Cre>, int) -> string, db: Db, k: nat, now: string)
    requires |ids| > 0 && k <= |leads| && DistinctIds(db.cres)
    ensures CountsAfter(db.cres, ModRun(source, ids, leads, nameOf, db, k, now).db.cres, ids, k)
    decreases k
  {
    if k > 0 {
      ModRunCounts(source, ids, leads, nameOf, db, k - 1, now);
      ModCountsStep(source, ids, leads, nameOf, db, k - 1, now);
    }
  }

  lemma ModCountsStep(source: string, ids: seq<int>, leads: seq<Lead>, nameOf: (seq<Cre>, int) -> string,
                      db: Db, i: nat, now: string)
    requires |ids| > 0 && i < |leads| && DistinctIds(db.cres)
    requires CountsAfter(db.cres, ModRun(source, ids, leads, nameOf, db, i, now).db.cres, ids, i)
    ensures CountsAfter(db.cres, ModRun(source, ids, leads, nameOf, db, i + 1, now).db.cres, ids, i + 1)
  {
    var s := ModRun(source, ids, leads, nameOf, db, i, now).db.cres;
    CountsAfterDistinct(db.cres, s, ids, i);
    ModStepCounts(source, ids, leads, nameOf, db, i, now);
    CountsAfterBump(db.cres, s, ModRun(source, ids, leads, nameOf, db, i + 1, now).db.cres, ids, i + 1);
  }

  /** The early returns, and a run past them that assigns every fetched lead. */
  lemma ModOutcomeMeaning(db: Db, source: string, now: string)
    ensures var o := ModAssignOutcome(db, source, now);
      var ids := ConfiguredCreIds(db.configs, source, true);
      (ids == [] ==> o == ModOutcome(false, 0, 0, [], db)) &&
      (o.success <==> ids != []) &&
      (Unassigned(db.leads, source) == [] ==> o.assignedCount == 0 && o.db == db) &&
      (o.success ==> o.assignedCount == o.totalProcessed == |Unassigned(db.leads, source)| && o.failedLeads == []) &&
      o.db.configs == db.configs
  {
    var ids := ConfiguredCreIds(db.configs, source, true);
    var leads := Unassigned(db.leads, source);
    if ids != [] && leads != [] {
      forall i | 0 <= i < |leads|
        ensures exists j :: 0 <= j < |db.leads| && db.leads[j].uid == leads[i].uid
      {
        assert leads[i] in leads;
      }
      assert AllPresent(db.leads, leads);
      ModRunNoFailures(source, ids, leads, CreName, db, |leads|, now);
      ModRunShape(source, ids, leads, CreName, db, |leads|, now);
    }
  }

  // ---------------------------------------------------------------------------------------------
  // reset_cre_auto_assign_counts

  /** cre_users after `update({auto_assign_count: 0}).eq('id', id)` for each listed id in turn. */
  function Reset(cres: seq<Cre>, ids: seq<int>): (r: seq<Cre>)
    ensures |r| == |cres|
    decreases |ids|
  {
    if ids == [] then cres else WithCount(Reset(cres, ids[..|ids| - 1]), ids[|ids| - 1], 0)
  }

  /** Every listed CRE's count becomes 0 and every other row is untouched; with no ids nothing
      changes. */
  lemma {:induction false} ResetAt(cres: seq<Cre>, ids: seq<int>, j: nat)
    requires j < |cres|
    ensures Reset(cres, ids)[j] == if cres[j].id in ids then cres[j].(count := 0) else cres[j]
    decreases |ids|
  {
    if ids != [] {
      var init := ids[..|ids| - 1];
      ResetAt(cres, init, j);
      WithCountAt(Reset(cres, init), ids[|ids| - 1], 0, j);
      assert ids == init + [ids[|ids| - 1]];
    }
  }

  /** Always True: an empty list returns at once; the per-CRE reads and the verification pass only
      log. */
  method ResetCreAutoAssignCounts(crm: Crm, creIds: seq<int>) returns (ok: bool)
    modifies crm
    ensures ok && crm.State() == old(crm.State()).(cres := Reset(old(crm.cres), creIds))
  {
    if creIds == [] {
      return true;
    }
    ghost var db0 := crm.State();
    for i := 0 to |creIds|
      invariant crm.State() == db0.(cres := Reset(db0.cres, creIds[..i]))
    {
      assert creIds[..i + 1][..i] == creIds[..i];
      crm.SetCount(creIds[i], 0);
    }
    assert creIds[..|creIds|] == creIds;
    ok := true;
  }

  // ---------------------------------------------------------------------------------------------
  // check_and_assign_new_leads

  /** One entry of `results`. */
  datatype SourceResult = SourceResult(source: string, success: bool, assignedCount: nat)

  datatype CheckPass = CheckPass(db: Db, results: seq<SourceResult>, total: nat)

  /** The per-source call of the loop: `auto_assign_new_leads_for_source` at time `now`. */
  function Assigner(now: string): (Db, string) -> ModOutcome {
    (d: Db, source: string) => ModAssignOutcome(d, source, now)
  }

  /** One source: its outcome joins `results` and, when successful, its count joins the total. */
  function CheckStep(p: CheckPass, source: string, assign: (Db, string) -> ModOutcome): CheckPass {
    var o := assign(p.db, source);
    CheckPass(o.db, p.results + [SourceResult(source, o.success, o.assignedCount)],
              if o.success then p.total + o.assignedCount else p.total)
  }

  /** The first k sources, each handed to `assign` in turn. */
  function CheckRun(db: Db, sources: seq<string>, k: nat, assign: (Db, string) -> ModOutcome): CheckPass
    requires k <= |sources|
    decreases k
  {
    if k == 0 then CheckPass(db, [], 0) else CheckStep(CheckRun(db, sources, k - 1, assign), sources[k - 1], assign)
  }

  /** A source with an active configuration row. */
  predicate ActiveSource(configs: seq<Config>, source: string) {
    exists c :: c in configs && c.isActive && c.source == source
  }

  /** `sources` is `list(set(...))` of the active configurations' sources; Python's set order is
      not modelled, so any duplicate-free listing of that set is accepted. */
  method CheckAndAssignNewLeads(crm: Crm, sources: seq<string>, now: string)
    returns (success: bool, totalAssigned: nat, results: seq<SourceResult>)
    requires forall s :: s in sources <==> ActiveSource(crm.configs, s)
    requires forall i, j :: 0 <= i < j < |sources| ==> sources[i] != sources[j]
    modifies crm
    ensures success &&
            CheckPass(crm.State(), results, totalAssigned) ==
            CheckRun(old(crm.State()), sources, |sources|, Assigner(now))
  {
    ghost var db0 := crm.State();
    totalAssigned, results := 0, [];
    for i := 0 to |sources|
      invariant CheckPass(crm.State(), results, totalAssigned) == CheckRun(db0, sources, i, Assigner(now))
    {
      totalAssigned, results := CheckOne(crm, sources[i], totalAssigned, results, now);
    }
    success := true;
  }

  method CheckOne(crm: Crm, source: string, total: nat, results: seq<SourceResult>, now: string)
    returns (total': nat, results': seq<SourceResult>)
    modifies crm
    ensures CheckPass(crm.State(), results', total') ==
            CheckStep(CheckPass(old(crm.State()), results, total), source, Assigner(now))
  {
    var ok, count, processed, failed := AutoAssignNewLeadsForSource(crm, source, now);
    total' := if ok then total + count else total;
    results' := results + [SourceResult(source, ok, count)];
  }

  /** The sum of assigned_count over the successful results. */
  function SumAssigned(results: seq<SourceResult>): nat {
    if results == [] then 0
    else SumAssigned(results[..|results| - 1]) +
         (if results[|results| - 1].success then results[|results| - 1].assignedCount else 0)
  }

  /** What the loop relies on from the per-source call: it succeeds on a source with an active
      configuration and leaves the configuration table alone. */
  ghost predicate KeepsActive(assign: (Db, string) -> ModOutcome) {
    forall d: Db, source: string :: ActiveSource(d.configs, source) ==>
      assign(d, source).success && assign(d, source).db.configs == d.configs
  }

  /** `auto_assign_new_leads_for_source` is such a call. */
  lemma AssignerKeepsActive(now: string)
    ensures KeepsActive(Assigner(now))
  {
    forall d: Db, source: string | ActiveSource(d.configs, source)
      ensures Assigner(now)(d, source).success && Assigner(now)(d, source).db.configs == d.configs
    {
      ModOutcomeMeaning(d, source, now);
      var c :| c in d.configs && c.isActive && c.source == source;
      assert c.creId in ConfiguredCreIds(d.configs, source, true);
    }
  }

  /** The t-th result is a success for the t-th listed source. */
  predicate AllSucceeded(results: seq<SourceResult>, sources: seq<string>)
    requires |results| <= |sources|
  {
    forall t :: 0 <= t < |results| ==> results[t].source == sources[t] && results[t].success
  }

  /** Each listed source is processed once, in order, `total_assigned` is the sum of the successful
      results' counts, and since every listed source has an active configuration every result is a
      success. */
  lemma {:induction false} CheckRunMeaning(db: Db, sources: seq<string>, k: nat, assign: (Db, string) -> ModOutcome)
    requires k <= |sources| && KeepsActive(assign)
    requires forall s :: s in sources ==> ActiveSource(db.configs, s)
    ensures var p := CheckRun(db, sources, k, assign);
      |p.results| == k && p.total == SumAssigned(p.results) && p.db.configs == db.configs &&
      AllSucceeded(p.results, sources)
    decreases k
  {
    if k > 0 {
      CheckRunMeaning(db, sources, k - 1, assign);
      var p := CheckRun(db, sources, k - 1, assign);
      assert sources[k - 1] in sources;
      var r := CheckRun(db, sources, k, assign).results;
      assert r == p.results + [r[k - 1]];
      assert r[..k - 1] == p.results;
      forall t | 0 <= t < k
        ensures r[t].source == sources[t] && r[t].success
      {
        if t < k - 1 {
          assert r[t] == p.results[t];
        }
      }
    }
  }

  /** The same for the pass `check_and_assign_new_leads` makes. */
  lemma CheckAndAssignMeaning(db: Db, sources: seq<string>, now: string)
    requires forall s :: s in sources ==> ActiveSource(db.configs, s)
    ensures var p := CheckRun(db, sources, |sources|, Assigner(now));
      |p.results| == |sources| && p.total == SumAssigned(p.results) && p.db.configs == db.configs &&
      AllSucceeded(p.results, sources)
  {
    AssignerKeepsActive(now);
    CheckRunMeaning(db, sources, |sources|, Assigner(now));
  }

  // ---------------------------------------------------------------------------------------------
  // get_system_health

  datatype HealthStatus = Healthy | Warning | Critical

  /** The score, status and issues of the returned dictionary. */
  datatype Health = Health(score: int, status: HealthStatus, issues: seq<string>)

  /** The score loses 30 when the system is stopped, 20 when the thread is dead and 10 when there
      are recent errors, so it stays in 40..100 and the clamp at 0 never applies; the system is
      Healthy exactly when it runs and has either a live thread or no errors, Critical exactly when
      all three checks fail, and there is one issue per failed check. */
  function SystemHealth(isRunning: bool, threadAlive: bool, errorCount: nat): (h: Health)
    ensures 40 <= h.score <= 100
    ensures h.score == 100 <==> isRunning && threadAlive && errorCount == 0
    ensures h.status == Healthy <==> isRunning && (threadAlive || errorCount == 0)
    ensures h.status == Critical <==> !isRunning && !threadAlive && errorCount > 0
    ensures |h.issues| ==
            (if isRunning then 0 else 1) + (if threadAlive then 0 else 1) + (if errorCount > 0 then 1 else 0)
  {
    var score := 100 - (if isRunning then 0 else 30) - (if threadAlive then 0 else 20) -
                 (if errorCount > 0 then 10 else 0);
    var issues := (if isRunning then [] else ["System not running"]) +
                  (if threadAlive then [] else ["Background thread not alive"]) +
                  (if errorCount > 0 then [IntToString(errorCount) + " recent errors"] else []);
    Health(if score < 0 then 0 else score,
           if score >= 80 then Healthy else if score >= 50 then Warning else Critical,
           issues)
  }
}
