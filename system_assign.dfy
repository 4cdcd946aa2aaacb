/** auto_assign_system.py: the module-level round-robin `auto_assign_new_leads_for_source`,
    which resumes after the last-assigned CRE but binds leads with an unguarded update, and
    the least-loaded distributor of `EnhancedAutoAssignTrigger`. */
module SystemAssign {
  import opened PyStr
  import opened Tables
  import opened RoundRobin

  // ---------------------------------------------------------------------------------------------
  // Round-robin with resume, no guard

  function SysAttempt(uid: string, name: string): CallAttempt {
    CallAttempt(uid, name, "Pending", None, Some("Auto-assigned to " + name))
  }

  /** This variant's history row carries no counts. */
  function SysHistory(source: string, uid: string, cre: Cre): History {
    History(uid, source, cre.id, cre.name, None, None, "auto_new_lead")
  }

  /** One iteration: the lead update filtered by uid alone, the call attempt, the snapshot
      count + 1 and the history row. Every iteration counts its lead. */
  function SysStep(p: Plan, db: Db, i: nat, now: string): Db
    requires |p.cres| > 0 && i < |p.leads|
  {
    var uid := p.leads[i].uid;
    var cre := Target(p, i);
    db.(leads := MarkAssigned(db.leads, uid, false, cre.name, now, Some("Pending")),
        attempts := db.attempts + [SysAttempt(uid, cre.name)],
        cres := WithCount(db.cres, cre.id, cre.count + 1),
        history := db.history + [SysHistory(p.source, uid, cre)])
  }

  /** The loop after its first k iterations. */
  function SysRun(p: Plan, db: Db, k: nat, now: string): Db
    requires |p.cres| > 0 && k <= |p.leads|
    decreases k
  {
    if k == 0 then db else SysStep(p, SysRun(p, db, k - 1, now), k - 1, now)
  }

  datatype Outcome = Outcome(success: bool, assignedCount: nat, db: Db)

  /** The whole function. `lastCreName` is the cre_name of the source's most recently
      assigned lead. */
  function SysOutcome(db: Db, source: string, lastCreName: Option<string>, now: string): Outcome {
    var ids := ConfiguredCreIds(db.configs, source, false);
    var cres := CresWithIds(db.cres, ids);
    var leads := Unassigned(db.leads, source);
    if ids == [] || cres == [] then Outcome(false, 0, db)
    else if leads == [] then Outcome(true, 0, db)
    else
      Outcome(true, |leads|, SysRun(Plan(source, cres, leads, StartIndex(cres, lastCreName)), db, |leads|, now))
  }

  method AutoAssignNewLeadsForSource(crm: Crm, source: string, lastCreName: Option<string>, now: string)
    returns (success: bool, assignedCount: nat)
    modifies crm
    ensures Outcome(success, assignedCount, crm.State()) == SysOutcome(old(crm.State()), source, lastCreName, now)
  {
    var ids := ConfiguredCreIds(crm.configs, source, false);
    if ids == [] {
      return false, 0;
    }
    var cres := CresWithIds(crm.cres, ids);
    if cres == [] {
      return false, 0;
    }
    var leads := Unassigned(crm.leads, source);
    if leads == [] {
      return true, 0;
    }
    var start := ResumeIndex(cres, lastCreName);
    var p := Plan(source, cres, leads, start);
    ghost var db0 := crm.State();
    assignedCount := 0;
    for i := 0 to |leads|
      invariant assignedCount == i
      invariant crm.State() == SysRun(p, db0, i, now)
    {
      SysAssignOne(crm, p, i, now);
      assignedCount := assignedCount + 1;
    }
    success := true;
  }

  /** The body of the loop for the i-th fetched lead. */
  method SysAssignOne(crm: Crm, p: Plan, i: nat, now: string)
    requires |p.cres| > 0 && i < |p.leads|
    modifies crm
    ensures crm.State() == SysStep(p, old(crm.State()), i, now)
  {
    var uid := p.leads[i].uid;
    var cre := p.cres[(p.start + i) % |p.cres|];
    assert cre == Target(p, i);
    var matched := crm.UpdateLeads(uid, false, cre.name, now, Some("Pending"));
    crm.InsertAttempt(SysAttempt(uid, cre.name));
    crm.SetCount(cre.id, cre.count + 1);
    crm.InsertHistory(SysHistory(p.source, uid, cre));
  }

  /** The three early returns, and a run that gets past them counts every fetched lead. */
  lemma SysEarlyExits(db: Db, source: string, lastCreName: Option<string>, now: string)
    ensures var o := SysOutcome(db, source, lastCreName, now);
      var cres := CresWithIds(db.cres, ConfiguredCreIds(db.configs, source, false));
      (ConfiguredCreIds(db.configs, source, false) == [] ==> o == Outcome(false, 0, db)) &&
      (cres == [] ==> o == Outcome(false, 0, db)) &&
      (o.success <==> cres != []) &&
      (o.success ==> o.assignedCount == |Unassigned(db.leads, source)|) &&
      (Unassigned(db.leads, source) == [] ==> o.db == db)
  {
    var cres := CresWithIds(db.cres, ConfiguredCreIds(db.configs, source, false));
    if cres != [] {
      assert cres[0] in cres;
    }
  }

  /** The history, call attempts and table shapes after k iterations. */
  predicate SysLogSoFar(p: Plan, db: Db, r: Db, k: nat)
    requires |p.cres| > 0 && k <= |p.leads|
  {
    |r.history| == |db.history| + k && |r.attempts| == |db.attempts| + k &&
    r.configs == db.configs && |r.cres| == |db.cres| && |r.leads| == |db.leads| &&
    forall t :: 0 <= t < k ==> r.history[|db.history| + t] == SysHistory(p.source, p.leads[t].uid, Target(p, t))
  }

  /** The lead rows after k iterations: rows of the first k fetched leads are bound, the others
      are as they were. */
  predicate SysLeadsSoFar(p: Plan, db: Db, r: Db, k: nat)
    requires k <= |p.leads|
  {
    |r.leads| == |db.leads| &&
    (forall j :: 0 <= j < |db.leads| ==> r.leads[j].uid == db.leads[j].uid && r.leads[j].source == db.leads[j].source) &&
    (forall j :: 0 <= j < |db.leads| && !AmongFirst(p, k, db.leads[j].uid) ==> r.leads[j] == db.leads[j]) &&
    (forall j :: 0 <= j < |db.leads| && AmongFirst(p, k, db.leads[j].uid) ==>
       r.leads[j].assignedFlag == "Yes" && r.leads[j].creName.Some? && r.leads[j].leadStatus == Some("Pending"))
  }

  lemma SysStepLog(p: Plan, db: Db, i: nat, now: string)
    requires |p.cres| > 0 && i < |p.leads| && SysLogSoFar(p, db, SysRun(p, db, i, now), i)
    ensures SysLogSoFar(p, db, SysRun(p, db, i + 1, now), i + 1)
  {
    var s := SysRun(p, db, i, now);
    var r := SysRun(p, db, i + 1, now);
    assert r == SysStep(p, s, i, now);
    forall t | 0 <= t < i + 1
      ensures r.history[|db.history| + t] == SysHistory(p.source, p.leads[t].uid, Target(p, t))
    {
      if t < i {
        assert r.history[|db.history| + t] == s.history[|db.history| + t];
      }
    }
  }

  lemma {:induction false} SysRunLog(p: Plan, db: Db, k: nat, now: string)
    requires |p.cres| > 0 && k <= |p.leads|
    ensures SysLogSoFar(p, db, SysRun(p, db, k, now), k)
    decreases k
  {
    if k > 0 {
      SysRunLog(p, db, k - 1, now);
      SysStepLog(p, db, k - 1, now);
    }
  }

  lemma {:induction false} SysRunLeads(p: Plan, db: Db, k: nat, now: string)
    requires |p.cres| > 0 && k <= |p.leads|
    ensures SysLeadsSoFar(p, db, SysRun(p, db, k, now), k)
    decreases k
  {
    if k > 0 {
      var i := k - 1;
      SysRunLeads(p, db, i, now);
      var uid := p.leads[i].uid;
      var cre := Target(p, i);
      var s := SysRun(p, db, i, now);
      var leads := SysRun(p, db, k, now).leads;
      assert leads == MarkAssigned(s.leads, uid, false, cre.name, now, Some("Pending"));
      forall j | 0 <= j < |db.leads|
        ensures leads[j].uid == db.leads[j].uid && leads[j].source == db.leads[j].source
        ensures !AmongFirst(p, k, db.leads[j].uid) ==> leads[j] == db.leads[j]
        ensures AmongFirst(p, k, db.leads[j].uid) ==>
                  leads[j].assignedFlag == "Yes" && leads[j].creName.Some? && leads[j].leadStatus == Some("Pending")
      {
        MarkAssignedAt(s.leads, uid, false, cre.name, now, Some("Pending"), j);
        if !AmongFirst(p, k, db.leads[j].uid) {
          assert !AmongFirst(p, i, db.leads[j].uid);
          assert db.leads[j].uid != uid;
        }
      }
    }
  }

  /** With distinct uids, every row of the t-th fetched lead (t < k) is bound to the t-th turn's CRE. */
  predicate SysBoundSoFar(p: Plan, db: Db, r: Db, k: nat, now: string)
    requires |p.cres| > 0 && k <= |p.leads|
  {
    |r.leads| == |db.leads| &&
    forall j, t :: 0 <= j < |db.leads| && 0 <= t < k && db.leads[j].uid == p.leads[t].uid ==>
      r.leads[j] == Bound(db.leads[j], Target(p, t).name, now, Some("Pending"))
  }

  lemma {:induction false} SysRunBound(p: Plan, db: Db, k: nat, now: string)
    requires |p.cres| > 0 && k <= |p.leads| && DistinctUids(p)
    ensures SysBoundSoFar(p, db, SysRun(p, db, k, now), k, now)
    decreases k
  {
    if k > 0 {
      var i := k - 1;
      SysRunBound(p, db, i, now);
      SysRunLeads(p, db, i, now);
      var uid := p.leads[i].uid;
      var cre := Target(p, i);
      var s := SysRun(p, db, i, now);
      var leads := SysRun(p, db, k, now).leads;
      assert leads == MarkAssigned(s.leads, uid, false, cre.name, now, Some("Pending"));
      NotAmongEarlier(p, i);
      forall j, t | 0 <= j < |db.leads| && 0 <= t < k && db.leads[j].uid == p.leads[t].uid
        ensures leads[j] == Bound(db.leads[j], Target(p, t).name, now, Some("Pending"))
      {
        MarkAssignedAt(s.leads, uid, false, cre.name, now, Some("Pending"), j);
        if t == i {
          assert s.leads[j] == db.leads[j];
        } else {
          assert p.leads[t].uid != uid;
        }
      }
    }
  }

  /** Without a guard every fetched lead is bound, even one another run bound in the meantime:
      the k-th history row sends the k-th lead to cres[(start + k) mod n], every row of a
      fetched lead ends 'Yes' with a cre_name and status 'Pending' (with distinct uids: the
      cre_name of that lead's turn), and no other row changes. */
  lemma SysRunTargets(p: Plan, db: Db, now: string)
    requires |p.cres| > 0
    ensures var r := SysRun(p, db, |p.leads|, now);
      |r.history| == |db.history| + |p.leads| &&
      (forall i :: 0 <= i < |p.leads| ==> r.history[|db.history| + i] == SysHistory(p.source, p.leads[i].uid, Target(p, i))) &&
      |r.leads| == |db.leads| &&
      (forall j :: 0 <= j < |db.leads| && !AmongFirst(p, |p.leads|, db.leads[j].uid) ==> r.leads[j] == db.leads[j]) &&
      (forall j :: 0 <= j < |db.leads| && AmongFirst(p, |p.leads|, db.leads[j].uid) ==>
         r.leads[j].assignedFlag == "Yes" && r.leads[j].creName.Some? && r.leads[j].leadStatus == Some("Pending")) &&
      (DistinctUids(p) ==> SysBoundSoFar(p, db, r, |p.leads|, now))
  {
    SysRunLog(p, db, |p.leads|, now);
    SysRunLeads(p, db, |p.leads|, now);
    if DistinctUids(p) {
      SysRunBound(p, db, |p.leads|, now);
    }
  }

  /** One iteration writes its target's snapshot count + 1, so the snapshot counts stay exact. */
  lemma SysStepKeepsSnapshot(p: Plan, db: Db, s: Db, k: nat, now: string)
    requires |p.cres| > 0 && 0 < k <= |p.leads| && DistinctIds(p.cres)
    requires CountsFromSnapshot(p, k - 1, db.cres, s.cres)
    ensures CountsFromSnapshot(p, k, db.cres, SysStep(p, s, k - 1, now).cres)
  {
    SnapshotCountStep(p, k - 1, db.cres, s.cres);
  }

  /** As in the Flask copy, counts come from the snapshot: after k iterations a CRE that had a
      turn holds exactly its snapshot count + 1, however many leads it received, and every
      other CRE row is unchanged. */
  lemma {:induction false} SysRunSnapshotCounts(p: Plan, db: Db, k: nat, now: string)
    requires |p.cres| > 0 && k <= |p.leads| && DistinctIds(p.cres)
    ensures CountsFromSnapshot(p, k, db.cres, SysRun(p, db, k, now).cres)
    decreases k
  {
    if k > 0 {
      SysRunSnapshotCounts(p, db, k - 1, now);
      SysStepKeepsSnapshot(p, db, SysRun(p, db, k - 1, now), k, now);
    }
  }

  // ---------------------------------------------------------------------------------------------
  // Least-loaded distributor of EnhancedAutoAssignTrigger

  /** `a` sorts strictly before `b` under the key (auto_assign_count, id). */
  predicate Before(a: Cre, b: Cre) {
    a.count < b.count || (a.count == b.count && a.id < b.id)
  }

  /** `get_fairest_cre_for_source` on the rows `cres` of cre_users and the configured ids: the
      first element of the configured rows stably sorted by (count, id), as a row position, or
      None when no row is configured. `FairestIsLeast` states what that means. */
  function Fairest(cres: seq<Cre>, ids: seq<int>): (k: Option<nat>)
    ensures k.Some? ==> k.value < |cres| && cres[k.value].id in ids
    decreases |cres|
  {
    if cres == [] then None
    else match Fairest(cres[1..], ids)
      case None => if cres[0].id in ids then Some(0) else None
      case Some(j) => if cres[0].id in ids && !Before(cres[j + 1], cres[0]) then Some(0) else Some(j + 1)
  }

  /** None exactly when no row is configured; otherwise no configured row sorts before the chosen
      one, and every configured row above it sorts strictly after it (the stable sort keeps the
      first of equal keys). */
  lemma {:induction false} FairestIsLeast(cres: seq<Cre>, ids: seq<int>)
    ensures var k := Fairest(cres, ids);
      (k.None? <==> forall i :: 0 <= i < |cres| ==> cres[i].id !in ids) &&
      (k.Some? ==> (forall i :: 0 <= i < |cres| && cres[i].id in ids ==> !Before(cres[i], cres[k.value])) &&
                   (forall i :: 0 <= i < k.value && cres[i].id in ids ==> Before(cres[k.value], cres[i])))
    decreases |cres|
  {
    if cres != [] {
      FairestIsLeast(cres[1..], ids);
      assert forall i :: 1 <= i < |cres| ==> cres[i] == cres[1..][i - 1];
    }
  }

  /** The first call attempt `log_auto_assignment` records (call_no 1). */
  function FairAttempt(uid: string, name: string): CallAttempt {
    CallAttempt(uid, name, "Pending", Some("1"), None)
  }

  /** The writes of `log_auto_assignment`: history with before = current and after = current + 1,
      the call attempt, the count current + 1, and the lead row marked 'Yes' / 'Pending'. */
  function Logged(db: Db, uid: string, source: string, id: int, name: string, now: string): Db {
    var current := CurrentCount(db.cres, id);
    db.(history := db.history + [FairHistory(uid, source, id, name, current)],
        attempts := db.attempts + [FairAttempt(uid, name)],
        cres := WithCount(db.cres, id, current + 1),
        leads := MarkAssigned(db.leads, uid, false, name, now, Some("Pending")))
  }

  method LogAutoAssignment(crm: Crm, uid: string, source: string, id: int, name: string, now: string)
    modifies crm
    ensures crm.State() == Logged(old(crm.State()), uid, source, id, name, now)
  {
    var k := FirstCre(crm.cres, id);
    var current := if k.Some? then crm.cres[k.value].count else 0;
    assert current == CurrentCount(crm.cres, id);
    ghost var db := crm.State();
    crm.InsertHistory(FairHistory(uid, source, id, name, current));
    crm.InsertAttempt(FairAttempt(uid, name));
    crm.SetCount(id, current + 1);
    var matched := crm.UpdateLeads(uid, false, name, now, Some("Pending"));
    assert crm.State() == Logged(db, uid, source, id, name, now);
  }

  /** One iteration of `_process_source_leads_fair`: None when no CRE is found (the loop stops),
      otherwise the lead update to the fairest CRE followed by `log_auto_assignment`. */
  function FairStep(db: Db, source: string, uid: string, now: string): Option<Db> {
    match Fairest(db.cres, ConfiguredCreIds(db.configs, source, false))
    case None => None
    case Some(k) =>
      var cre := db.cres[k];
      Some(Logged(db.(leads := MarkAssigned(db.leads, uid, false, cre.name, now, Some("Pending"))),
                  uid, source, cre.id, cre.name, now))
  }

  datatype FairPass = FairPass(db: Db, assignedCount: nat)

  /** The loop from the i-th fetched lead on; it counts at most the leads that are left. */
  function FairLoop(source: string, leads: seq<Lead>, db: Db, i: nat, now: string): (r: FairPass)
    requires i <= |leads|
    ensures r.assignedCount <= |leads| - i
    decreases |leads| - i
  {
    if i == |leads| then FairPass(db, 0)
    else match FairStep(db, source, leads[i].uid, now)
      case None => FairPass(db, 0)
      case Some(db1) =>
        var r := FairLoop(source, leads, db1, i + 1, now);
        FairPass(r.db, r.assignedCount + 1)
  }

  /** `_process_source_leads_fair(source, configs)`; its configs argument is not used. */
  function FairOutcome(db: Db, source: string, now: string): FairPass {
    var leads := Unassigned(db.leads, source);
    if leads == [] then FairPass(db, 0) else FairLoop(source, leads, db, 0, now)
  }

  method ProcessSourceLeadsFair(crm: Crm, source: string, now: string) returns (assignedCount: nat)
    modifies crm
    ensures FairPass(crm.State(), assignedCount) == FairOutcome(old(crm.State()), source, now)
  {
    var leads := Unassigned(crm.leads, source);
    if leads == [] {
      return 0;
    }
    ghost var total := FairLoop(source, leads, crm.State(), 0, now);
    assignedCount := 0;
    var i := 0;
    while i < |leads|
      invariant 0 <= i <= |leads|
      invariant var rest := FairLoop(source, leads, crm.State(), i, now);
        total == FairPass(rest.db, assignedCount + rest.assignedCount)
    {
      ghost var db := crm.State();
      var k := Fairest(crm.cres, ConfiguredCreIds(crm.configs, source, false));
      if k.None? {
        FairLoopStops(source, leads, db, i, now);
        break;
      }
      FairAssignOne(crm, source, leads[i].uid, k.value, now);
      FairLoopGoesOn(source, leads, db, i, now, crm.State());
      assignedCount := assignedCount + 1;
      i := i + 1;
    }
  }

  lemma FairLoopStops(source: string, leads: seq<Lead>, db: Db, i: nat, now: string)
    requires i < |leads| && Fairest(db.cres, ConfiguredCreIds(db.configs, source, false)).None?
    ensures FairLoop(source, leads, db, i, now) == FairPass(db, 0)
  {
  }

  lemma FairLoopGoesOn(source: string, leads: seq<Lead>, db: Db, i: nat, now: string, db1: Db)
    requires i < |leads| && FairStep(db, source, leads[i].uid, now) == Some(db1)
    ensures var r := FairLoop(source, leads, db1, i + 1, now);
      FairLoop(source, leads, db, i, now) == FairPass(r.db, r.assignedCount + 1)
  {
  }

  /** The body of the loop once a CRE was found. */
  method FairAssignOne(crm: Crm, source: string, uid: string, k: nat, now: string)
    requires Fairest(crm.cres, ConfiguredCreIds(crm.configs, source, false)) == Some(k)
    modifies crm
    ensures Some(crm.State()) == FairStep(old(crm.State()), source, uid, now)
  {
    var cre := crm.cres[k];
    var matched := crm.UpdateLeads(uid, false, cre.name, now, Some("Pending"));
    LogAutoAssignment(crm, uid, source, cre.id, cre.name, now);
  }

  /** A step writes the fairest CRE's count + 1 (the count `log_auto_assignment` reads is that
      row's own when ids are distinct), logs it, and changes no other cre_users row. */
  lemma FairStepWrites(db: Db, source: string, uid: string, now: string)
    requires DistinctIds(db.cres) && FairStep(db, source, uid, now).Some?
    ensures var k := Fairest(db.cres, ConfiguredCreIds(db.configs, source, false)).value;
      var r := FairStep(db, source, uid, now).value;
      var cre := db.cres[k];
      |r.cres| == |db.cres| && r.configs == db.configs &&
      r.cres[k] == cre.(count := cre.count + 1) &&
      (forall j :: 0 <= j < |db.cres| && j != k ==> r.cres[j] == db.cres[j]) &&
      r.history == db.history + [FairHistory(uid, source, cre.id, cre.name, cre.count)] &&
      |r.leads| == |db.leads| &&
      (forall j :: 0 <= j < |db.leads| ==>
         r.leads[j] == if db.leads[j].uid == uid then Bound(db.leads[j], cre.name, now, Some("Pending")) else db.leads[j])
  {
    var k := Fairest(db.cres, ConfiguredCreIds(db.configs, source, false)).value;
    var cre := db.cres[k];
    var r := FairStep(db, source, uid, now).value;
    FirstCreIsFirst(db.cres, cre.id);
    assert CurrentCount(db.cres, cre.id) == cre.count;
    assert r.cres == WithCount(db.cres, cre.id, cre.count + 1);
    forall j | 0 <= j < |db.cres|
      ensures r.cres[j] == if j == k then cre.(count := cre.count + 1) else db.cres[j]
    {
      WithCountAt(db.cres, cre.id, cre.count + 1, j);
    }
    var once := MarkAssigned(db.leads, uid, false, cre.name, now, Some("Pending"));
    assert r.leads == MarkAssigned(once, uid, false, cre.name, now, Some("Pending"));
    forall j | 0 <= j < |db.leads|
      ensures r.leads[j] == if db.leads[j].uid == uid then Bound(db.leads[j], cre.name, now, Some("Pending")) else db.leads[j]
    {
      MarkAssignedAt(db.leads, uid, false, cre.name, now, Some("Pending"), j);
      MarkAssignedAt(once, uid, false, cre.name, now, Some("Pending"), j);
    }
  }

  /** The counts of configured rows differ pairwise by at most d. */
  predicate SpreadWithin(cres: seq<Cre>, ids: seq<int>, d: int) {
    forall i, j :: 0 <= i < |cres| && 0 <= j < |cres| && cres[i].id in ids && cres[j].id in ids ==>
      cres[i].count - cres[j].count <= d
  }

  /** Raising a least-loaded configured CRE by one keeps any spread bound d >= 1. */
  lemma FairStepSpread(db: Db, source: string, uid: string, now: string, d: int)
    requires DistinctIds(db.cres) && d >= 1 && FairStep(db, source, uid, now).Some?
    requires SpreadWithin(db.cres, ConfiguredCreIds(db.configs, source, false), d)
    ensures var r := FairStep(db, source, uid, now).value;
      DistinctIds(r.cres) && r.configs == db.configs &&
      SpreadWithin(r.cres, ConfiguredCreIds(r.configs, source, false), d)
  {
    var ids := ConfiguredCreIds(db.configs, source, false);
    var k := Fairest(db.cres, ids).value;
    var r := FairStep(db, source, uid, now).value;
    FairStepWrites(db, source, uid, now);
    FairestIsLeast(db.cres, ids);
    assert forall j :: 0 <= j < |db.cres| ==> r.cres[j].id == db.cres[j].id;
    forall i, j | 0 <= i < |r.cres| && 0 <= j < |r.cres| && r.cres[i].id in ids && r.cres[j].id in ids
      ensures r.cres[i].count - r.cres[j].count <= d
    {
      assert !Before(db.cres[i], db.cres[k]) && !Before(db.cres[j], db.cres[k]);
    }
  }

  /** Over a whole pass the configured counts never spread further apart than
      max(initial spread, 1): each step raises a least-loaded configured CRE by one. */
  lemma {:induction false} FairLoopSpread(source: string, leads: seq<Lead>, db: Db, i: nat, now: string, d: int)
    requires i <= |leads| && DistinctIds(db.cres) && d >= 1
    requires SpreadWithin(db.cres, ConfiguredCreIds(db.configs, source, false), d)
    ensures var r := FairLoop(source, leads, db, i, now).db;
      DistinctIds(r.cres) && r.configs == db.configs &&
      SpreadWithin(r.cres, ConfiguredCreIds(r.configs, source, false), d) &&
      |r.cres| == |db.cres| && forall j :: 0 <= j < |db.cres| ==> r.cres[j].id == db.cres[j].id
    decreases |leads| - i
  {
    if i < |leads| && FairStep(db, source, leads[i].uid, now).Some? {
      var db1 := FairStep(db, source, leads[i].uid, now).value;
      FairStepSpread(db, source, leads[i].uid, now, d);
      FairStepKeepsIds(db, source, leads[i].uid, now);
      FairLoopSpread(source, leads, db1, i + 1, now, d);
    }
  }

  /** Steps keep the configuration and the id of every cre_users row, so whether a CRE is found
      never changes during a pass. */
  lemma FairStepKeepsIds(db: Db, source: string, uid: string, now: string)
    requires FairStep(db, source, uid, now).Some?
    ensures var r := FairStep(db, source, uid, now).value;
      r.configs == db.configs && |r.cres| == |db.cres| &&
      forall j :: 0 <= j < |db.cres| ==> r.cres[j].id == db.cres[j].id
  {
    var k := Fairest(db.cres, ConfiguredCreIds(db.configs, source, false)).value;
    var cre := db.cres[k];
    var r := FairStep(db, source, uid, now).value;
    forall j | 0 <= j < |db.cres|
      ensures r.cres[j].id == db.cres[j].id
    {
      WithCountAt(db.cres, cre.id, CurrentCount(db.cres, cre.id) + 1, j);
    }
  }

  /** A pass is all or nothing: with no configured CRE row it stops at the first lead and changes
      nothing; otherwise it assigns every remaining lead. */
  lemma {:induction false} FairLoopAllOrNothing(source: string, leads: seq<Lead>, db: Db, i: nat, now: string)
    requires i <= |leads|
    ensures var ids := ConfiguredCreIds(db.configs, source, false);
      var r := FairLoop(source, leads, db, i, now);
      ((forall j :: 0 <= j < |db.cres| ==> db.cres[j].id !in ids) ==> r == FairPass(db, 0)) &&
      ((exists j :: 0 <= j < |db.cres| && db.cres[j].id in ids) ==> r.assignedCount == |leads| - i)
    decreases |leads| - i
  {
    var ids := ConfiguredCreIds(db.configs, source, false);
    FairestIsLeast(db.cres, ids);
    if i < |leads| && FairStep(db, source, leads[i].uid, now).Some? {
      var db1 := FairStep(db, source, leads[i].uid, now).value;
      FairStepKeepsIds(db, source, leads[i].uid, now);
      FairLoopAllOrNothing(source, leads, db1, i + 1, now);
      if exists j :: 0 <= j < |db.cres| && db.cres[j].id in ids {
        var j :| 0 <= j < |db.cres| && db.cres[j].id in ids;
        assert db1.cres[j].id in ConfiguredCreIds(db1.configs, source, false);
      }
    }
  }
}

/** The statistics of `EnhancedAutoAssignMonitor` in auto_assign_system.py. */
module SystemMonitor {
  import opened PyStr
  import opened Tables
  import opened RoundRobin
  import opened SystemAssign

  predicate SortedByCount(s: seq<Cre>) {
    forall i, j :: 0 <= i < j < |s| ==> s[i].count <= s[j].count
  }

  /** Insert `c` before the first element whose count is at least its own. */
  function InsertByCount(c: Cre, s: seq<Cre>): (r: seq<Cre>)
    ensures |r| == |s| + 1 && multiset(r) == multiset(s) + multiset{c}
    ensures r[0] == c || (s != [] && r[0] == s[0])
  {
    if s == [] || c.count <= s[0].count then [c] + s
    else
      assert s == [s[0]] + s[1..];
      [s[0]] + InsertByCount(c, s[1..])
  }

  lemma {:induction false} InsertSorted(c: Cre, s: seq<Cre>)
    requires SortedByCount(s)
    ensures SortedByCount(InsertByCount(c, s))
    decreases |s|
  {
    if s != [] && c.count > s[0].count {
      var rest := InsertByCount(c, s[1..]);
      assert SortedByCount(s[1..]) by {
        forall i, j | 0 <= i < j < |s| - 1
          ensures s[1..][i].count <= s[1..][j].count
        {
          assert s[1..][i] == s[i + 1] && s[1..][j] == s[j + 1];
        }
      }
      InsertSorted(c, s[1..]);
      assert rest[0].count >= s[0].count by {
        if rest[0] != c {
          assert rest[0] == s[1];
        }
      }
      var r := [s[0]] + rest;
      forall i, j | 0 <= i < j < |r|
        ensures r[i].count <= r[j].count
      {
        if i == 0 {
          assert r[j] == rest[j - 1];
          if j > 1 {
            assert rest[0].count <= rest[j - 1].count;
          }
        } else {
          assert r[i] == rest[i - 1] && r[j] == rest[j - 1];
        }
      }
    }
  }

  /** `sorted(cres, key=auto_assign_count)`, an insertion sort that keeps equal counts in
      input order. */
  function SortByCount(cs: seq<Cre>): (r: seq<Cre>)
    ensures |r| == |cs| && multiset(r) == multiset(cs) && SortedByCount(r)
  {
    if cs == [] then []
    else
      assert cs == [cs[0]] + cs[1..];
      var rest := SortByCount(cs[1..]);
      InsertSorted(cs[0], rest);
      InsertByCount(cs[0], rest)
  }

  /** `min(counts)` */
  function MinCount(cs: seq<Cre>): (m: int)
    requires cs != []
    ensures (forall i :: 0 <= i < |cs| ==> m <= cs[i].count) && exists i :: 0 <= i < |cs| && cs[i].count == m
  {
    if |cs| == 1 then cs[0].count
    else
      var m := MinCount(cs[1..]);
      assert forall i :: 1 <= i < |cs| ==> cs[i] == cs[1..][i - 1];
      if cs[0].count < m then cs[0].count else m
  }

  /** `max(counts)` */
  function MaxCount(cs: seq<Cre>): (m: int)
    requires cs != []
    ensures (forall i :: 0 <= i < |cs| ==> cs[i].count <= m) && exists i :: 0 <= i < |cs| && cs[i].count == m
  {
    if |cs| == 1 then cs[0].count
    else
      var m := MaxCount(cs[1..]);
      assert forall i :: 1 <= i < |cs| ==> cs[i] == cs[1..][i - 1];
      if cs[0].count > m then cs[0].count else m
  }

  /** The integer part of the returned dictionary; avg_count is floating point. */
  datatype Distribution = Distribution(sortedCres: seq<Cre>, minCount: int, maxCount: int,
                                       variance: int, totalCres: nat)

  /** `analyze_fair_distribution`: None stands for the empty dictionary of an empty input. */
  function AnalyzeFairDistribution(cres: seq<Cre>): (r: Option<Distribution>)
    ensures r.None? <==> cres == []
  {
    if cres == [] then None
    else
      var lo := MinCount(cres);
      var hi := MaxCount(cres);
      Some(Distribution(SortByCount(cres), lo, hi, hi - lo, |cres|))
  }

  /** The statistics of a non-empty list: sorted_cres is an ascending permutation of the input led
      by a least-loaded CRE, and min and max are attained bounds of the counts. */
  lemma AnalyzeMeaning(cres: seq<Cre>)
    requires cres != []
    ensures var a := AnalyzeFairDistribution(cres).value;
      SortedByCount(a.sortedCres) && multiset(a.sortedCres) == multiset(cres) && a.totalCres == |cres| &&
      a.sortedCres[0].count == a.minCount && a.minCount <= a.maxCount &&
      (forall i :: 0 <= i < |cres| ==> a.minCount <= cres[i].count <= a.maxCount) &&
      (exists i :: 0 <= i < |cres| && cres[i].count == a.minCount) &&
      (exists i :: 0 <= i < |cres| && cres[i].count == a.maxCount)
  {
    var a := AnalyzeFairDistribution(cres).value;
    var s := a.sortedCres;
    assert s[0] in multiset(cres);
    var i0 :| 0 <= i0 < |cres| && cres[i0].count == a.minCount;
    assert cres[i0] in multiset(s);
  }

  /** No two CREs of the list have counts more than d apart. */
  predicate Pairwise(cs: seq<Cre>, d: int) {
    forall a, b :: a in cs && b in cs ==> a.count - b.count <= d
  }

  /** The variance is at most d exactly when no two counts differ by more than d. */
  lemma VarianceMeaning(cres: seq<Cre>, d: int)
    requires cres != []
    ensures AnalyzeFairDistribution(cres).value.variance <= d <==> Pairwise(cres, d)
  {
    var lo :| 0 <= lo < |cres| && cres[lo].count == MinCount(cres);
    var hi :| 0 <= hi < |cres| && cres[hi].count == MaxCount(cres);
    assert cres[lo] in cres && cres[hi] in cres;
  }

  datatype Rating = Excellent | Good | NeedsImprovement

  /** The verdict shown under the variance. */
  function VarianceRating(variance: int): (r: Rating)
    ensures r == Excellent <==> variance <= 1
    ensures r == Good <==> 1 < variance <= 3
    ensures r == NeedsImprovement <==> 3 < variance
  {
    if variance <= 1 then Excellent else if variance <= 3 then Good else NeedsImprovement
  }

  /** The configured rows of a source, as `_print_fair_distribution_stats` collects them. */
  function ConfiguredCres(db: Db, source: string): seq<Cre> {
    CresWithIds(db.cres, ConfiguredCreIds(db.configs, source, false))
  }

  /** `SpreadWithin` read on row values rather than positions. */
  lemma SpreadByValue(cres: seq<Cre>, ids: seq<int>, d: int)
    ensures SpreadWithin(cres, ids, d) <==>
      forall a, b :: a in cres && b in cres && a.id in ids && b.id in ids ==> a.count - b.count <= d
  {
    if SpreadWithin(cres, ids, d) {
      forall a, b | a in cres && b in cres && a.id in ids && b.id in ids
        ensures a.count - b.count <= d
      {
        var i :| 0 <= i < |cres| && cres[i] == a;
        var j :| 0 <= j < |cres| && cres[j] == b;
      }
    } else {
      var i, j :| 0 <= i < |cres| && 0 <= j < |cres| && cres[i].id in ids && cres[j].id in ids &&
                  cres[i].count - cres[j].count > d;
      assert cres[i] in cres && cres[j] in cres;
    }
  }

  /** The variance of the configured rows of a non-empty configuration is at most d exactly
      when their counts differ pairwise by at most d. */
  lemma ConfiguredVariance(cres: seq<Cre>, ids: seq<int>, d: int)
    requires CresWithIds(cres, ids) != []
    ensures AnalyzeFairDistribution(CresWithIds(cres, ids)).value.variance <= d <==> SpreadWithin(cres, ids, d)
  {
    VarianceMeaning(CresWithIds(cres, ids), d);
    SpreadByValue(cres, ids, d);
  }

  /** What the monitor reports after a least-loaded pass: the variance of the source's configured
      CREs is at most max(variance before, 1), so an "Excellent" source stays "Excellent". */
  lemma FairPassVariance(db: Db, source: string, leads: seq<Lead>, now: string)
    requires DistinctIds(db.cres) && ConfiguredCres(db, source) != []
    ensures var after := FairLoop(source, leads, db, 0, now).db;
      var v0 := AnalyzeFairDistribution(ConfiguredCres(db, source)).value.variance;
      AnalyzeFairDistribution(ConfiguredCres(after, source)).Some? &&
      AnalyzeFairDistribution(ConfiguredCres(after, source)).value.variance <= if v0 < 1 then 1 else v0
    ensures var after := FairLoop(source, leads, db, 0, now).db;
      VarianceRating(AnalyzeFairDistribution(ConfiguredCres(db, source)).value.variance) == Excellent ==>
      VarianceRating(AnalyzeFairDistribution(ConfiguredCres(after, source)).value.variance) == Excellent
  {
    var ids := ConfiguredCreIds(db.configs, source, false);
    var v0 := AnalyzeFairDistribution(ConfiguredCres(db, source)).value.variance;
    var d := if v0 < 1 then 1 else v0;
    ConfiguredVariance(db.cres, ids, d);
    FairLoopSpread(source, leads, db, 0, now, d);
    var after := FairLoop(source, leads, db, 0, now).db;
    ConfiguredNonEmpty(db.cres, after.cres, ids);
    ConfiguredVariance(after.cres, ids, d);
  }

  /** Rewriting counts keeps the configured rows non-empty. */
  lemma ConfiguredNonEmpty(before: seq<Cre>, after: seq<Cre>, ids: seq<int>)
    requires CresWithIds(before, ids) != [] && |after| == |before|
    requires forall j :: 0 <= j < |before| ==> after[j].id == before[j].id
    ensures CresWithIds(after, ids) != []
  {
    var c := CresWithIds(before, ids)[0];
    assert c in CresWithIds(before, ids);
    var a :| 0 <= a < |before| && before[a] == c;
    assert after[a] in after && after[a].id in ids;
    assert after[a] in CresWithIds(after, ids);
  }

  // ---------------------------------------------------------------------------------------------
  // get_source_distribution

  /** The CRE a config row contributes to its source's list: the first CRE with its id. */
  function Piece(c: Config, cres: seq<Cre>, source: string): seq<Cre> {
    if c.source != source then []
    else match FirstCre(cres, c.creId)
      case None => []
      case Some(k) => [cres[k]]
  }

  /** The reference list of a source: for each config row of that source in order, the CRE it
      names, dropping rows whose CRE is unknown. */
  function CresForSource(configs: seq<Config>, cres: seq<Cre>, source: string): seq<Cre> {
    if configs == [] then [] else Piece(configs[0], cres, source) + CresForSource(configs[1..], cres, source)
  }

  /** The dictionary after the loop has seen `configs`. */
  function SourceStats(configs: seq<Config>, cres: seq<Cre>): map<string, seq<Cre>>
    decreases |configs|
  {
    if configs == [] then map[]
    else
      var m := SourceStats(configs[..|configs| - 1], cres);
      var c := configs[|configs| - 1];
      match FirstCre(cres, c.creId)
      case None => m
      case Some(k) => m[c.source := (if c.source in m then m[c.source] else []) + [cres[k]]]
  }

  method GetSourceDistribution(configs: seq<Config>, cres: seq<Cre>) returns (stats: map<string, seq<Cre>>)
    ensures stats == SourceStats(configs, cres)
  {
    stats := map[];
    for i := 0 to |configs|
      invariant stats == SourceStats(configs[..i], cres)
    {
      assert configs[..i + 1][..i] == configs[..i];
      var c := configs[i];
      var k := FirstCre(cres, c.creId);
      if k.Some? {
        if c.source !in stats {
          stats := stats[c.source := []];
        }
        stats := stats[c.source := stats[c.source] + [cres[k.value]]];
      }
    }
    assert configs[..|configs|] == configs;
  }

  lemma {:induction false} CresForSourceSnoc(configs: seq<Config>, c: Config, cres: seq<Cre>, source: string)
    ensures CresForSource(configs + [c], cres, source) == CresForSource(configs, cres, source) + Piece(c, cres, source)
    decreases |configs|
  {
    if configs == [] {
      assert [c][1..] == [];
    } else {
      assert (configs + [c])[1..] == configs[1..] + [c];
      CresForSourceSnoc(configs[1..], c, cres, source);
    }
  }

  /** A source has an entry exactly when one of its config rows names a known CRE, and the entry
      lists those CREs in config order. */
  lemma {:induction false} SourceStatsMeaning(configs: seq<Config>, cres: seq<Cre>, source: string)
    ensures var m := SourceStats(configs, cres);
      (source in m <==> CresForSource(configs, cres, source) != []) &&
      (source in m ==> m[source] == CresForSource(configs, cres, source))
    decreases |configs|
  {
    if configs != [] {
      var init := configs[..|configs| - 1];
      var c := configs[|configs| - 1];
      SourceStatsMeaning(init, cres, source);
      assert configs == init + [c];
      CresForSourceSnoc(init, c, cres, source);
    }
  }
}
