/** The Supabase tables the auto-assign distributors read and write, held in memory.
    lead_master, cre_users and auto_assign_config are sequences of rows in table order;
    auto_assign_history and cre_call_attempt_history are append-only sequences.
    Each `update(...).eq(...)` call of the client becomes one method of `Crm` that rewrites
    every matching row, as PostgREST does. */
module Tables {
  import opened PyStr

  /** A lead_master row, restricted to the columns the distributors touch. */
  datatype Lead = Lead(uid: string, source: string, assignedFlag: string, creName: Option<string>,
                       creAssignedAt: Option<string>, leadStatus: Option<string>)

  /** A cre_users row. */
  datatype Cre = Cre(id: int, name: string, count: int, isActive: bool)

  /** An auto_assign_config row. */
  datatype Config = Config(source: string, creId: int, isActive: bool)

  /** An auto_assign_history row. The round-robin of auto_assign_system.py writes no counts. */
  datatype History = History(leadUid: string, source: string, creId: int, creName: string,
                             before: Option<int>, after: Option<int>, kind: string)

  /** A cre_call_attempt_history row. */
  datatype CallAttempt = CallAttempt(uid: string, creName: string, status: string,
                                     callNo: Option<string>, notes: Option<string>)

  datatype Db = Db(leads: seq<Lead>, cres: seq<Cre>, configs: seq<Config>,
                   history: seq<History>, attempts: seq<CallAttempt>)

  /** The row filter of an assignment update on lead_master: the uid, and, when guarded,
      also assigned = 'No'. */
  predicate Selected(l: Lead, uid: string, guarded: bool) {
    l.uid == uid && (!guarded || l.assignedFlag == "No")
  }

  /** A lead row after an assignment update; `status` None leaves lead_status alone. */
  function Bound(l: Lead, name: string, at: string, status: Option<string>): Lead {
    l.(assignedFlag := "Yes", creName := Some(name), creAssignedAt := Some(at),
       leadStatus := if status.Some? then status else l.leadStatus)
  }

  /** lead_master after `update({assigned: 'Yes', cre_name, cre_assigned_at[, lead_status]})`
      filtered by uid (and by assigned = 'No' when guarded). Row by row: `MarkAssignedAt`. */
  function MarkAssigned(leads: seq<Lead>, uid: string, guarded: bool, name: string, at: string,
                        status: Option<string>): (r: seq<Lead>)
    ensures |r| == |leads|
  {
    if leads == [] then []
    else [if Selected(leads[0], uid, guarded) then Bound(leads[0], name, at, status) else leads[0]]
         + MarkAssigned(leads[1..], uid, guarded, name, at, status)
  }

  /** The update rewrites exactly the selected rows, in place. */
  lemma {:induction false} MarkAssignedAt(leads: seq<Lead>, uid: string, guarded: bool, name: string,
                                          at: string, status: Option<string>, j: nat)
    requires j < |leads|
    ensures MarkAssigned(leads, uid, guarded, name, at, status)[j] ==
            if Selected(leads[j], uid, guarded) then Bound(leads[j], name, at, status) else leads[j]
    decreases j
  {
    if j > 0 {
      MarkAssignedAt(leads[1..], uid, guarded, name, at, status, j - 1);
    }
  }

  /** The number of rows such an update returns in `result.data`. */
  function MatchCount(leads: seq<Lead>, uid: string, guarded: bool): (n: nat)
    ensures n <= |leads|
  {
    if leads == [] then 0
    else (if Selected(leads[0], uid, guarded) then 1 else 0) + MatchCount(leads[1..], uid, guarded)
  }

  /** The update returns no row exactly when no row is selected. */
  lemma {:induction false} MatchCountZero(leads: seq<Lead>, uid: string, guarded: bool)
    ensures MatchCount(leads, uid, guarded) == 0 <==>
            forall i :: 0 <= i < |leads| ==> !Selected(leads[i], uid, guarded)
    decreases |leads|
  {
    if leads != [] {
      MatchCountZero(leads[1..], uid, guarded);
      assert forall i :: 1 <= i < |leads| ==> leads[i] == leads[1..][i - 1];
    }
  }

  /** The position of the first row with this uid, i.e. `select(...).eq('uid', uid)` then
      `data[0]`; `FirstLeadIsFirst` says it is the first. */
  function FirstLead(leads: seq<Lead>, uid: string): (k: Option<nat>)
    ensures k.Some? ==> k.value < |leads| && leads[k.value].uid == uid
  {
    if leads == [] then None
    else if leads[0].uid == uid then Some(0)
    else match FirstLead(leads[1..], uid)
      case None => None
      case Some(k) => Some(k + 1)
  }

  /** No row is found exactly when none has the uid, and a found row is the first. */
  lemma {:induction false} FirstLeadIsFirst(leads: seq<Lead>, uid: string)
    ensures var k := FirstLead(leads, uid);
      (k.None? <==> forall i :: 0 <= i < |leads| ==> leads[i].uid != uid) &&
      (k.Some? ==> forall i :: 0 <= i < k.value ==> leads[i].uid != uid)
    decreases |leads|
  {
    if leads != [] {
      FirstLeadIsFirst(leads[1..], uid);
      assert forall i :: 1 <= i < |leads| ==> leads[i] == leads[1..][i - 1];
    }
  }

  /** The position of the first cre_users row with this id. */
  function FirstCre(cres: seq<Cre>, id: int): (k: Option<nat>)
    ensures k.Some? ==> k.value < |cres| && cres[k.value].id == id
  {
    if cres == [] then None
    else if cres[0].id == id then Some(0)
    else match FirstCre(cres[1..], id)
      case None => None
      case Some(k) => Some(k + 1)
  }

  /** No row is found exactly when none has the id, and a found row is the first. */
  lemma {:induction false} FirstCreIsFirst(cres: seq<Cre>, id: int)
    ensures var k := FirstCre(cres, id);
      (k.None? <==> forall i :: 0 <= i < |cres| ==> cres[i].id != id) &&
      (k.Some? ==> forall i :: 0 <= i < k.value ==> cres[i].id != id)
    decreases |cres|
  {
    if cres != [] {
      FirstCreIsFirst(cres[1..], id);
      assert forall i :: 1 <= i < |cres| ==> cres[i] == cres[1..][i - 1];
    }
  }

  /** cre_users after `update({auto_assign_count: c}).eq('id', id)`. */
  function WithCount(cres: seq<Cre>, id: int, c: int): (r: seq<Cre>)
    ensures |r| == |cres|
  {
    if cres == [] then []
    else [if cres[0].id == id then cres[0].(count := c) else cres[0]] + WithCount(cres[1..], id, c)
  }

  /** The update rewrites the count of exactly the rows with the id. */
  lemma {:induction false} WithCountAt(cres: seq<Cre>, id: int, c: int, j: nat)
    requires j < |cres|
    ensures WithCount(cres, id, c)[j] == if cres[j].id == id then cres[j].(count := c) else cres[j]
    decreases j
  {
    if j > 0 {
      WithCountAt(cres[1..], id, c, j - 1);
    }
  }

  /** `select('auto_assign_count').eq('id', id)` then `data[0]`, or 0 when no row has the id. */
  function CurrentCount(cres: seq<Cre>, id: int): int {
    match FirstCre(cres, id)
    case None => 0
    case Some(j) => cres[j].count
  }

  /** The history row that logs the count read before an assignment and that count + 1. */
  function FairHistory(uid: string, source: string, id: int, name: string, current: int): History {
    History(uid, source, id, name, Some(current), Some(current + 1), "fair_distribution")
  }

  /** cre_users.id is the primary key. */
  predicate DistinctIds(cres: seq<Cre>) {
    forall i, j :: 0 <= i < |cres| && 0 <= j < |cres| && cres[i].id == cres[j].id ==> i == j
  }

  /** An update that matches no row leaves the table as it was. */
  lemma MarkAssignedNoMatch(leads: seq<Lead>, uid: string, guarded: bool, name: string, at: string,
                            status: Option<string>)
    requires MatchCount(leads, uid, guarded) == 0
    ensures MarkAssigned(leads, uid, guarded, name, at, status) == leads
  {
    MatchCountZero(leads, uid, guarded);
    var r := MarkAssigned(leads, uid, guarded, name, at, status);
    forall j | 0 <= j < |leads|
      ensures r[j] == leads[j]
    {
      MarkAssignedAt(leads, uid, guarded, name, at, status, j);
    }
  }

  /** The database as the distributors see it; each method is one client call. */
  class Crm {
    var leads: seq<Lead>
    var cres: seq<Cre>
    var configs: seq<Config>
    var history: seq<History>
    var attempts: seq<CallAttempt>

    function State(): Db
      reads this
    {
      Db(leads, cres, configs, history, attempts)
    }

    constructor (db: Db)
      ensures State() == db
    {
      leads := db.leads;
      cres := db.cres;
      configs := db.configs;
      history := db.history;
      attempts := db.attempts;
    }

    /** An assignment update on lead_master; returns the number of rows it changed. */
    method UpdateLeads(uid: string, guarded: bool, name: string, at: string, status: Option<string>)
      returns (matched: nat)
      modifies this
      ensures State() == old(State()).(leads := MarkAssigned(old(leads), uid, guarded, name, at, status))
      ensures matched == MatchCount(old(leads), uid, guarded)
    {
      matched := MatchCount(leads, uid, guarded);
      leads := MarkAssigned(leads, uid, guarded, name, at, status);
    }

    /** `cre_users.update({auto_assign_count: c}).eq('id', id)` */
    method SetCount(id: int, c: int)
      modifies this
      ensures State() == old(State()).(cres := WithCount(old(cres), id, c))
    {
      cres := WithCount(cres, id, c);
    }

    /** `auto_assign_history.insert(h)` */
    method InsertHistory(h: History)
      modifies this
      ensures State() == old(State()).(history := old(history) + [h])
    {
      history := history + [h];
    }

    /** `cre_call_attempt_history.insert(a)` */
    method InsertAttempt(a: CallAttempt)
      modifies this
      ensures State() == old(State()).(attempts := old(attempts) + [a])
    {
      attempts := attempts + [a];
    }
  }
}
