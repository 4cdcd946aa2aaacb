/** `auto_assign_new_leads_for_source` of the Flask application: a round-robin that resumes
    after the CRE who received the source's last lead, binds each lead with an update guarded by
    assigned = 'No', and writes each CRE's count from the snapshot read once per run. */
module AppAssign {
  import opened PyStr
  import opened Tables
  import opened RoundRobin

  /** The database and the `assigned_count` accumulated so far. */
  datatype Pass = Pass(db: Db, bound: nat)

  datatype Outcome = Outcome(success: bool, assignedCount: nat, db: Db)

  /** The re-read before the update: a row with the uid exists and its first row is not 'Yes'. */
  predicate Unclaimed(leads: seq<Lead>, uid: string) {
    var k := FirstLead(leads, uid);
    k.Some? && leads[k.value].assignedFlag != "Yes"
  }

  function AppAttempt(source: string, uid: string, name: string): CallAttempt {
    CallAttempt(uid, name, "Pending", Some("first"), Some("Auto-assigned to " + name + " from " + source))
  }

  function AppHistory(source: string, uid: string, cre: Cre): History {
    History(uid, source, cre.id, cre.name, Some(cre.count), Some(cre.count + 1), "fair_distribution")
  }

  /** The writes for a lead whose guarded update changed a row: the lead row, the call attempt,
      the snapshot count + 1 and the history row. */
  function Bind(p: Plan, db: Db, i: nat, now: string): Db
    requires |p.cres| > 0 && i < |p.leads|
  {
    var uid := p.leads[i].uid;
    var cre := Target(p, i);
    db.(leads := MarkAssigned(db.leads, uid, true, cre.name, now, Some("Pending")),
        attempts := db.attempts + [AppAttempt(p.source, uid, cre.name)],
        cres := WithCount(db.cres, cre.id, cre.count + 1),
        history := db.history + [AppHistory(p.source, uid, cre)])
  }

  /** One iteration of the loop over the fetched leads. An update that matches no row leaves
      lead_master as it was (see `MarkAssignedNoMatch`), so both skips keep the pass. */
  function AppStep(p: Plan, s: Pass, i: nat, now: string): Pass
    requires |p.cres| > 0 && i < |p.leads|
  {
    var uid := p.leads[i].uid;
    if Unclaimed(s.db.leads, uid) && MatchCount(s.db.leads, uid, true) > 0 then
      Pass(Bind(p, s.db, i, now), s.bound + 1)
    else s
  }

  /** The loop after its first k iterations. */
  function AppRun(p: Plan, db: Db, k: nat, now: string): Pass
    requires |p.cres| > 0 && k <= |p.leads|
    decreases k
  {
    if k == 0 then Pass(db, 0) else AppStep(p, AppRun(p, db, k - 1, now), k - 1, now)
  }

  /** The whole function, from the configuration query to the returned dictionary.
      `lastCreName` is the cre_name of the source's most recently assigned lead. */
  function AppOutcome(db: Db, source: string, lastCreName: Option<string>, now: string): Outcome {
    var ids := ConfiguredCreIds(db.configs, source, false);
    var cres := CresWithIds(db.cres, ids);
    var leads := Unassigned(db.leads, source);
    if ids == [] || cres == [] then Outcome(false, 0, db)
    else if leads == [] then Outcome(true, 0, db)
    else
      var r := AppRun(Plan(source, cres, leads, StartIndex(cres, lastCreName)), db, |leads|, now);
      Outcome(true, r.bound, r.db)
  }

  method AutoAssignNewLeadsForSource(crm: Crm, source: string, lastCreName: Option<string>, now: string)
    returns (success: bool, assignedCount: nat)
    modifies crm
    ensures Outcome(success, assignedCount, crm.State()) == AppOutcome(old(crm.State()), source, lastCreName, now)
  {
    var ids := ConfiguredCreIds(crm.configs, source, false);
    if ids == [] {
      return false, 0;
    }
    var cres := CresWithIds(crm.cres, ids);
    if cres == [] {
      return false, 0;
    }
    var leads := Unassigned(crm.leads, source);
    if leads == [] {
      return true, 0;
    }
    var start := ResumeIndex(cres, lastCreName);
    var p := Plan(source, cres, leads, start);
    ghost var db0 := crm.State();
    assignedCount := 0;
    var i := 0;
    while i < |leads|
      invariant 0 <= i <= |leads|
      invariant Pass(crm.State(), assignedCount) == AppRun(p, db0, i, now)
    {
      assignedCount := AssignOne(crm, p, i, assignedCount, now);
      i := i + 1;
    }
    success := true;
  }

  /** The loop body for the i-th fetched lead: the re-read, the guarded update and, when it
      changed a row, the call attempt, the count and the history row. */
  method AssignOne(crm: Crm, p: Plan, i: nat, assignedCount: nat, now: string) returns (count: nat)
    requires |p.cres| > 0 && i < |p.leads|
    modifies crm
    ensures Pass(crm.State(), count) == AppStep(p, Pass(old(crm.State()), assignedCount), i, now)
  {
    ghost var s := Pass(crm.State(), assignedCount);
    count := assignedCount;
    var uid := p.leads[i].uid;
    var k := FirstLead(crm.leads, uid);
    if k.Some? && crm.leads[k.value].assignedFlag != "Yes" {
      var cre := p.cres[(p.start + i) % |p.cres|];
      assert cre == Target(p, i);
      var matched := crm.UpdateLeads(uid, true, cre.name, now, Some("Pending"));
      if matched != 0 {
        crm.InsertAttempt(AppAttempt(p.source, uid, cre.name));
        crm.SetCount(cre.id, cre.count + 1);
        crm.InsertHistory(AppHistory(p.source, uid, cre));
        count := count + 1;
        assert crm.State() == Bind(p, s.db, i, now);
      } else {
        MarkAssignedNoMatch(s.db.leads, uid, true, cre.name, now, Some("Pending"));
        assert crm.State() == s.db;
      }
    }
  }

  // ---------------------------------------------------------------------------------------------
  // Properties

  /** The three early returns. */
  lemma AppEarlyExits(db: Db, source: string, lastCreName: Option<string>, now: string)
    ensures var o := AppOutcome(db, source, lastCreName, now);
      (ConfiguredCreIds(db.configs, source, false) == [] ==> o == Outcome(false, 0, db)) &&
      (CresWithIds(db.cres, ConfiguredCreIds(db.configs, source, false)) == [] ==> o == Outcome(false, 0, db)) &&
      (o.success <==> CresWithIds(db.cres, ConfiguredCreIds(db.configs, source, false)) != []) &&
      (Unassigned(db.leads, source) == [] ==> o.assignedCount == 0 && o.db == db)
  {
    var cres := CresWithIds(db.cres, ConfiguredCreIds(db.configs, source, false));
    if cres != [] {
      assert cres[0] in cres;
    }
  }

  /** One step keeps the shape of every table, adds one history row and one call attempt
      exactly when it counts the lead, and changes nothing at all when it skips the lead. */
  lemma AppStepShape(p: Plan, s: Pass, i: nat, now: string)
    requires |p.cres| > 0 && i < |p.leads|
    ensures var r := AppStep(p, s, i, now);
      (r.bound == s.bound || r.bound == s.bound + 1) &&
      (r.bound == s.bound ==> r == s) &&
      |r.db.history| == |s.db.history| + (r.bound - s.bound) &&
      |r.db.attempts| == |s.db.attempts| + (r.bound - s.bound) &&
      |r.db.leads| == |s.db.leads| && |r.db.cres| == |s.db.cres| && r.db.configs == s.db.configs &&
      (forall j :: 0 <= j < |s.db.leads| ==> r.db.leads[j].uid == s.db.leads[j].uid) &&
      (forall j :: 0 <= j < |s.db.cres| ==> r.db.cres[j].id == s.db.cres[j].id) &&
      r.db.history[..|s.db.history|] == s.db.history
  {
    var r := AppStep(p, s, i, now);
    var cre := Target(p, i);
    if r != s {
      forall j | 0 <= j < |s.db.leads|
        ensures r.db.leads[j].uid == s.db.leads[j].uid
      {
        MarkAssignedAt(s.db.leads, p.leads[i].uid, true, cre.name, now, Some("Pending"), j);
      }
      forall j | 0 <= j < |s.db.cres|
        ensures r.db.cres[j].id == s.db.cres[j].id
      {
        WithCountAt(s.db.cres, cre.id, cre.count + 1, j);
      }
    }
  }

  /** Counting and table shapes: every counted lead adds one history row and one call attempt. */
  lemma {:induction false} AppRunAccounting(p: Plan, db: Db, k: nat, now: string)
    requires |p.cres| > 0 && k <= |p.leads|
    ensures var r := AppRun(p, db, k, now);
      r.bound <= k &&
      |r.db.history| == |db.history| + r.bound &&
      |r.db.attempts| == |db.attempts| + r.bound &&
      |r.db.leads| == |db.leads| && |r.db.cres| == |db.cres| && r.db.configs == db.configs &&
      (forall j :: 0 <= j < |db.leads| ==> r.db.leads[j].uid == db.leads[j].uid) &&
      (forall j :: 0 <= j < |db.cres| ==> r.db.cres[j].id == db.cres[j].id)
    decreases k
  {
    if k > 0 {
      AppRunAccounting(p, db, k - 1, now);
      AppStepShape(p, AppRun(p, db, k - 1, now), k - 1, now);
    }
  }

  /** The only change a guarded run makes to a lead row: from assigned 'No' to 'Yes' with a
      cre_name and lead_status 'Pending'. */
  predicate GuardedChange(before: Lead, after: Lead) {
    after == before ||
    (before.assignedFlag == "No" && after.assignedFlag == "Yes" && after.uid == before.uid &&
     after.source == before.source && after.creName.Some? && after.leadStatus == Some("Pending"))
  }

  /** A step keeps "every row has changed at most from 'No' to 'Yes' since db". */
  lemma AppStepGuard(p: Plan, db: Db, s: Pass, i: nat, now: string)
    requires |p.cres| > 0 && i < |p.leads| && |s.db.leads| == |db.leads|
    requires forall j :: 0 <= j < |db.leads| ==> GuardedChange(db.leads[j], s.db.leads[j])
    ensures var r := AppStep(p, s, i, now);
      |r.db.leads| == |db.leads| &&
      forall j :: 0 <= j < |db.leads| ==> GuardedChange(db.leads[j], r.db.leads[j])
  {
    var r := AppStep(p, s, i, now);
    forall j | 0 <= j < |db.leads|
      ensures GuardedChange(db.leads[j], r.db.leads[j])
    {
      MarkAssignedAt(s.db.leads, p.leads[i].uid, true, Target(p, i).name, now, Some("Pending"), j);
    }
  }

  /** Whatever the plan (even one fetched before another run bound some of its leads), a row that
      is not 'No' when the run starts is never touched. */
  lemma {:induction false} AppRunGuard(p: Plan, db: Db, k: nat, now: string)
    requires |p.cres| > 0 && k <= |p.leads|
    ensures var r := AppRun(p, db, k, now);
      |r.db.leads| == |db.leads| &&
      forall j :: 0 <= j < |db.leads| ==> GuardedChange(db.leads[j], r.db.leads[j])
    decreases k
  {
    if k > 0 {
      AppRunGuard(p, db, k - 1, now);
      AppStepGuard(p, db, AppRun(p, db, k - 1, now), k - 1, now);
    }
  }

  /** One step on any plan: a skipped lead changes nothing; a bound lead sets the count of its
      target's rows to the target's snapshot count + 1, leaves every other CRE row alone, and
      logs the snapshot count as before and snapshot + 1 as after. */
  lemma AppStepSnapshot(p: Plan, s: Pass, i: nat, now: string)
    requires |p.cres| > 0 && i < |p.leads|
    ensures var r := AppStep(p, s, i, now);
      var cre := Target(p, i);
      |r.db.cres| == |s.db.cres| &&
      (r.bound == s.bound ==> r == s) &&
      (r.bound != s.bound ==>
         (forall j :: 0 <= j < |s.db.cres| && s.db.cres[j].id == cre.id ==>
            r.db.cres[j] == s.db.cres[j].(count := cre.count + 1)) &&
         (forall j :: 0 <= j < |s.db.cres| && s.db.cres[j].id != cre.id ==> r.db.cres[j] == s.db.cres[j]) &&
         r.db.history == s.db.history + [History(p.leads[i].uid, p.source, cre.id, cre.name,
                                                 Some(cre.count), Some(cre.count + 1), "fair_distribution")])
  {
    var r := AppStep(p, s, i, now);
    var cre := Target(p, i);
    forall j | 0 <= j < |s.db.cres|
      ensures r.bound != s.bound ==>
        r.db.cres[j] == if s.db.cres[j].id == cre.id then s.db.cres[j].(count := cre.count + 1) else s.db.cres[j]
    {
      WithCountAt(s.db.cres, cre.id, cre.count + 1, j);
    }
  }

  /** The plan's leads have distinct uids, are all present, and all of their rows are still 'No':
      no other run has claimed them since the fetch. */
  predicate Fresh(p: Plan, db: Db) {
    DistinctUids(p) &&
    (forall a :: 0 <= a < |p.leads| ==> exists j :: 0 <= j < |db.leads| && db.leads[j].uid == p.leads[a].uid) &&
    (forall j, a :: 0 <= j < |db.leads| && 0 <= a < |p.leads| && db.leads[j].uid == p.leads[a].uid
                    ==> db.leads[j].assignedFlag == "No")
  }

  /** What a run over a fresh plan has achieved after i steps: i leads counted and logged in turn
      order, every row of the t-th lead (t < i) bound to the t-th turn's CRE with status
      'Pending', and the rows of the later leads as they were. */
  predicate FreshSoFar(p: Plan, db: Db, r: Pass, i: nat, now: string)
    requires |p.cres| > 0 && i <= |p.leads|
  {
    r.bound == i && |r.db.history| == |db.history| + i && |r.db.leads| == |db.leads| &&
    (forall j :: 0 <= j < |db.leads| ==> r.db.leads[j].uid == db.leads[j].uid) &&
    (forall t :: 0 <= t < i ==> r.db.history[|db.history| + t] == AppHistory(p.source, p.leads[t].uid, Target(p, t))) &&
    (forall j, t :: 0 <= j < |db.leads| && 0 <= t < i && db.leads[j].uid == p.leads[t].uid ==>
       r.db.leads[j] == Bound(db.leads[j], Target(p, t).name, now, Some("Pending"))) &&
    (forall j, a :: 0 <= j < |db.leads| && i <= a < |p.leads| && db.leads[j].uid == p.leads[a].uid
                    ==> r.db.leads[j] == db.leads[j])
  }

  /** Over a fresh plan the next lead is still unclaimed and its guarded update matches. */
  lemma AppStepFreshBinds(p: Plan, db: Db, s: Pass, i: nat, now: string)
    requires |p.cres| > 0 && i < |p.leads| && Fresh(p, db) && FreshSoFar(p, db, s, i, now)
    ensures Unclaimed(s.db.leads, p.leads[i].uid) && MatchCount(s.db.leads, p.leads[i].uid, true) > 0
  {
    var uid := p.leads[i].uid;
    var j0 :| 0 <= j0 < |db.leads| && db.leads[j0].uid == uid;
    assert s.db.leads[j0] == db.leads[j0];
    FirstLeadIsFirst(s.db.leads, uid);
    var f := FirstLead(s.db.leads, uid);
    assert f.Some?;
    assert s.db.leads[f.value] == db.leads[f.value];
    assert Selected(s.db.leads[j0], uid, true);
    MatchCountZero(s.db.leads, uid, true);
  }

  /** ... so it is bound to its target, and the rows of every other lead stay as they were. */
  lemma AppStepFresh(p: Plan, db: Db, s: Pass, i: nat, now: string)
    requires |p.cres| > 0 && i < |p.leads| && Fresh(p, db) && FreshSoFar(p, db, s, i, now)
    ensures FreshSoFar(p, db, AppStep(p, s, i, now), i + 1, now)
  {
    AppStepFreshBinds(p, db, s, i, now);
    NotAmongEarlier(p, i);
    var uid := p.leads[i].uid;
    var cre := Target(p, i);
    var leads := MarkAssigned(s.db.leads, uid, true, cre.name, now, Some("Pending"));
    var history := s.db.history + [AppHistory(p.source, uid, cre)];
    forall t | 0 <= t < i + 1
      ensures history[|db.history| + t] == AppHistory(p.source, p.leads[t].uid, Target(p, t))
    {
      if t < i {
        assert history[|db.history| + t] == s.db.history[|db.history| + t];
      }
    }
    forall j | 0 <= j < |db.leads|
      ensures leads[j].uid == db.leads[j].uid
      ensures forall t :: 0 <= t < i + 1 && db.leads[j].uid == p.leads[t].uid ==>
                leads[j] == Bound(db.leads[j], Target(p, t).name, now, Some("Pending"))
      ensures forall a :: i + 1 <= a < |p.leads| && db.leads[j].uid == p.leads[a].uid ==> leads[j] == db.leads[j]
    {
      AppStepFreshRow(p, db, s, i, now, j);
    }
  }

  /** The row-by-row part of `AppStepFresh`. */
  lemma AppStepFreshRow(p: Plan, db: Db, s: Pass, i: nat, now: string, j: nat)
    requires |p.cres| > 0 && i < |p.leads| && Fresh(p, db) && FreshSoFar(p, db, s, i, now) && j < |db.leads|
    ensures var leads := MarkAssigned(s.db.leads, p.leads[i].uid, true, Target(p, i).name, now, Some("Pending"));
      leads[j].uid == db.leads[j].uid &&
      (forall t :: 0 <= t < i + 1 && db.leads[j].uid == p.leads[t].uid ==>
         leads[j] == Bound(db.leads[j], Target(p, t).name, now, Some("Pending"))) &&
      (forall a :: i + 1 <= a < |p.leads| && db.leads[j].uid == p.leads[a].uid ==> leads[j] == db.leads[j])
  {
    var uid := p.leads[i].uid;
    var cre := Target(p, i);
    var leads := MarkAssigned(s.db.leads, uid, true, cre.name, now, Some("Pending"));
    MarkAssignedAt(s.db.leads, uid, true, cre.name, now, Some("Pending"), j);
    if db.leads[j].uid == uid {
      assert s.db.leads[j] == db.leads[j];
    } else {
      forall t | 0 <= t < i + 1 && db.leads[j].uid == p.leads[t].uid
        ensures leads[j] == Bound(db.leads[j], Target(p, t).name, now, Some("Pending"))
      {
        assert t < i;
      }
    }
  }

  /** On any plan, a row whose uid is not among the first k fetched leads is never touched. */
  lemma {:induction false} AppRunOthersUntouched(p: Plan, db: Db, k: nat, now: string)
    requires |p.cres| > 0 && k <= |p.leads|
    ensures var r := AppRun(p, db, k, now);
      |r.db.leads| == |db.leads| &&
      forall j :: 0 <= j < |db.leads| && !AmongFirst(p, k, db.leads[j].uid) ==> r.db.leads[j] == db.leads[j]
    decreases k
  {
    if k > 0 {
      AppRunOthersUntouched(p, db, k - 1, now);
      var s := AppRun(p, db, k - 1, now);
      var uid := p.leads[k - 1].uid;
      var cre := Target(p, k - 1);
      forall j | 0 <= j < |db.leads| && !AmongFirst(p, k, db.leads[j].uid)
        ensures AppRun(p, db, k, now).db.leads[j] == db.leads[j]
      {
        assert !AmongFirst(p, k - 1, db.leads[j].uid);
        assert db.leads[j].uid != uid;
        MarkAssignedAt(s.db.leads, uid, true, cre.name, now, Some("Pending"), j);
      }
    }
  }

  /** With a fresh plan every lead is bound, and the k-th history row sends the k-th lead to
      cres[(start + k) mod n]: the CREs take turns starting at the resume point. */
  lemma {:induction false} AppRunTargets(p: Plan, db: Db, k: nat, now: string)
    requires |p.cres| > 0 && k <= |p.leads| && Fresh(p, db)
    ensures var r := AppRun(p, db, k, now);
      r.bound == k && |r.db.history| == |db.history| + k &&
      forall i :: 0 <= i < k ==> r.db.history[|db.history| + i] == AppHistory(p.source, p.leads[i].uid, Target(p, i))
    decreases k
  {
    AppRunFresh(p, db, k, now);
  }

  lemma {:induction false} AppRunFresh(p: Plan, db: Db, k: nat, now: string)
    requires |p.cres| > 0 && k <= |p.leads| && Fresh(p, db)
    ensures FreshSoFar(p, db, AppRun(p, db, k, now), k, now)
    decreases k
  {
    if k > 0 {
      AppRunFresh(p, db, k - 1, now);
      AppRunFreshStep(p, db, k, now);
    }
  }

  /** `AppStepFresh` for the k-th step of the run. */
  lemma AppRunFreshStep(p: Plan, db: Db, k: nat, now: string)
    requires |p.cres| > 0 && 0 < k <= |p.leads| && Fresh(p, db)
    requires FreshSoFar(p, db, AppRun(p, db, k - 1, now), k - 1, now)
    ensures FreshSoFar(p, db, AppRun(p, db, k, now), k, now)
  {
    var s := AppRun(p, db, k - 1, now);
    AppRunUnfold(p, db, k, now);
    AppStepFresh(p, db, s, k - 1, now);
  }

  lemma AppRunUnfold(p: Plan, db: Db, k: nat, now: string)
    requires |p.cres| > 0 && 0 < k <= |p.leads|
    ensures AppRun(p, db, k, now) == AppStep(p, AppRun(p, db, k - 1, now), k - 1, now)
  {
  }

  /** On a fresh plan one more bound lead keeps the snapshot counts exact. */
  lemma AppStepKeepsSnapshot(p: Plan, db: Db, s: Pass, i: nat, now: string)
    requires |p.cres| > 0 && i < |p.leads| && Fresh(p, db) && DistinctIds(p.cres)
    requires FreshSoFar(p, db, s, i, now) && CountsFromSnapshot(p, i, db.cres, s.db.cres)
    ensures CountsFromSnapshot(p, i + 1, db.cres, AppStep(p, s, i, now).db.cres)
  {
    AppStepFreshBinds(p, db, s, i, now);
    AppStepBindsCres(p, s, i, now);
    SnapshotCountStep(p, i, db.cres, s.db.cres);
  }

  /** `AppStepKeepsSnapshot` for the k-th step of the run. */
  lemma AppRunKeepsSnapshot(p: Plan, db: Db, k: nat, now: string)
    requires |p.cres| > 0 && 0 < k <= |p.leads| && Fresh(p, db) && DistinctIds(p.cres)
    requires CountsFromSnapshot(p, k - 1, db.cres, AppRun(p, db, k - 1, now).db.cres)
    ensures CountsFromSnapshot(p, k, db.cres, AppRun(p, db, k, now).db.cres)
  {
    AppRunFresh(p, db, k - 1, now);
    AppStepKeepsSnapshot(p, db, AppRun(p, db, k - 1, now), k - 1, now);
  }

  /** A step whose guarded update matches writes the target's snapshot count + 1. */
  lemma AppStepBindsCres(p: Plan, s: Pass, i: nat, now: string)
    requires |p.cres| > 0 && i < |p.leads|
    requires Unclaimed(s.db.leads, p.leads[i].uid) && MatchCount(s.db.leads, p.leads[i].uid, true) > 0
    ensures AppStep(p, s, i, now).db.cres == WithCount(s.db.cres, Target(p, i).id, Target(p, i).count + 1)
  {
  }

  /** Counts are written from the snapshot, never from the row being updated: on a fresh plan,
      after k steps a CRE that had a turn holds exactly its snapshot count + 1, however many
      leads it received, and every other CRE row is unchanged. */
  lemma {:induction false} AppRunSnapshotCounts(p: Plan, db: Db, k: nat, now: string)
    requires |p.cres| > 0 && k <= |p.leads| && Fresh(p, db) && DistinctIds(p.cres)
    ensures CountsFromSnapshot(p, k, db.cres, AppRun(p, db, k, now).db.cres)
    decreases k
  {
    if k > 0 {
      AppRunSnapshotCounts(p, db, k - 1, now);
      AppRunKeepsSnapshot(p, db, k, now);
    }
  }

  /** A run over fresh leads binds every one of them to its turn's CRE and logs it, leaves all
      other lead rows alone, and, when cre_users ids are distinct, leaves each CRE that had a
      turn at exactly its snapshot count + 1. */
  lemma AppOutcomeFresh(db: Db, source: string, lastCreName: Option<string>, now: string)
    requires var cres := CresWithIds(db.cres, ConfiguredCreIds(db.configs, source, false));
             var leads := Unassigned(db.leads, source);
             cres != [] && leads != [] &&
             Fresh(Plan(source, cres, leads, StartIndex(cres, lastCreName)), db)
    ensures var cres := CresWithIds(db.cres, ConfiguredCreIds(db.configs, source, false));
      var leads := Unassigned(db.leads, source);
      var p := Plan(source, cres, leads, StartIndex(cres, lastCreName));
      var o := AppOutcome(db, source, lastCreName, now);
      o.success && o.assignedCount == |leads| &&
      FreshSoFar(p, db, Pass(o.db, o.assignedCount), |leads|, now) &&
      (forall j :: 0 <= j < |db.leads| && !AmongFirst(p, |leads|, db.leads[j].uid) ==> o.db.leads[j] == db.leads[j]) &&
      (DistinctIds(db.cres) ==> CountsFromSnapshot(p, |leads|, db.cres, o.db.cres))
  {
    var ids := ConfiguredCreIds(db.configs, source, false);
    var cres := CresWithIds(db.cres, ids);
    var leads := Unassigned(db.leads, source);
    var p := Plan(source, cres, leads, StartIndex(cres, lastCreName));
    AppRunFresh(p, db, |leads|, now);
    AppRunOthersUntouched(p, db, |leads|, now);
    if DistinctIds(db.cres) {
      CresWithIdsDistinct(db.cres, ids);
      AppRunSnapshotCounts(p, db, |leads|, now);
    }
  }
}
