/** The queries every distributor starts from, and the resume point of the two
    round-robin distributors that continue after the last CRE who received a lead. */
module RoundRobin {
  import opened PyStr
  import opened Tables

  /** `[c['cre_id'] for c in auto_assign_config.eq('source', source)]`, optionally also
      filtered by is_active = true, in table order. */
  function ConfiguredCreIds(configs: seq<Config>, source: string, activeOnly: bool): (r: seq<int>)
    ensures |r| <= |configs|
    ensures forall id :: id in r <==>
      exists c :: c in configs && c.source == source && (!activeOnly || c.isActive) && c.creId == id
  {
    if configs == [] then []
    else
      var c := configs[0];
      var rest := ConfiguredCreIds(configs[1..], source, activeOnly);
      assert forall x :: x in configs <==> x == c || x in configs[1..];
      if c.source == source && (!activeOnly || c.isActive) then [c.creId] + rest else rest
  }

  /** `cre_users.in_('id', ids)`: the CRE rows whose id is listed, in table order. */
  function CresWithIds(cres: seq<Cre>, ids: seq<int>): (r: seq<Cre>)
    ensures |r| <= |cres|
    ensures forall c :: c in r <==> c in cres && c.id in ids
  {
    if cres == [] then []
    else (if cres[0].id in ids then [cres[0]] else []) + CresWithIds(cres[1..], ids)
  }

  /** `lead_master.eq('assigned', 'No').eq('source', source)`, in table order. */
  function Unassigned(leads: seq<Lead>, source: string): (r: seq<Lead>)
    ensures |r| <= |leads|
    ensures forall l :: l in r <==> l in leads && l.assignedFlag == "No" && l.source == source
  {
    if leads == [] then []
    else (if leads[0].assignedFlag == "No" && leads[0].source == source then [leads[0]] else [])
         + Unassigned(leads[1..], source)
  }

  /** The position of the first CRE with this name. */
  function FindName(cres: seq<Cre>, name: string): (k: Option<nat>)
    ensures k.None? <==> forall i :: 0 <= i < |cres| ==> cres[i].name != name
    ensures k.Some? ==> k.value < |cres| && cres[k.value].name == name &&
                        forall i :: 0 <= i < k.value ==> cres[i].name != name
  {
    if cres == [] then None
    else if cres[0].name == name then Some(0)
    else match FindName(cres[1..], name)
      case None => None
      case Some(k) => Some(k + 1)
  }

  /** Where the round-robin resumes: just after the CRE who received the last lead of the
      source, or at the front when that name is empty or matches nobody. */
  function StartIndex(cres: seq<Cre>, lastCreName: Option<string>): (start: nat)
    requires |cres| > 0
    ensures start < |cres|
  {
    if !Truthy(lastCreName) then 0
    else match FindName(cres, lastCreName.value)
      case None => 0
      case Some(i) => (i + 1) % |cres|
  }

  /** The resume point is one past the first CRE carrying the last name (wrapping round), and
      the front when the name is empty or matches nobody. */
  lemma StartIndexMeaning(cres: seq<Cre>, lastCreName: Option<string>, i: nat)
    requires |cres| > 0
    ensures (!Truthy(lastCreName) || forall j :: 0 <= j < |cres| ==> cres[j].name != lastCreName.value)
            ==> StartIndex(cres, lastCreName) == 0
    ensures i < |cres| && Truthy(lastCreName) && cres[i].name == lastCreName.value &&
            (forall j :: 0 <= j < i ==> cres[j].name != lastCreName.value)
            ==> StartIndex(cres, lastCreName) == (i + 1) % |cres|
  {
    if Truthy(lastCreName) && i < |cres| && cres[i].name == lastCreName.value {
      var k := FindName(cres, lastCreName.value);
      assert k.Some? && k.value <= i;
    }
  }

  /** The `for i, cre in enumerate(cres)` scan that computes the resume point. */
  method ResumeIndex(cres: seq<Cre>, lastCreName: Option<string>) returns (start: nat)
    requires |cres| > 0
    ensures start == StartIndex(cres, lastCreName)
  {
    start := 0;
    if Truthy(lastCreName) {
      var i := 0;
      while i < |cres|
        invariant 0 <= i <= |cres|
        invariant forall j :: 0 <= j < i ==> cres[j].name != lastCreName.value
      {
        if cres[i].name == lastCreName.value {
          start := (i + 1) % |cres|;
          return;
        }
        i := i + 1;
      }
    }
  }

  /** What the run fetched before its loop: the CREs, the unassigned leads and the resume point.
      `cres` doubles as the count snapshot. */
  datatype Plan = Plan(source: string, cres: seq<Cre>, leads: seq<Lead>, start: nat)

  /** The CRE that the i-th fetched lead is offered to: cres[(start + i) mod n]. */
  function Target(p: Plan, i: nat): Cre
    requires |p.cres| > 0
  {
    p.cres[(p.start + i) % |p.cres|]
  }

  /** The fetched leads have distinct uids, as lead_master.uid is unique. */
  predicate DistinctUids(p: Plan) {
    forall a, b :: 0 <= a < b < |p.leads| ==> p.leads[a].uid != p.leads[b].uid
  }

  /** `uid` is the uid of one of the first k fetched leads. */
  predicate AmongFirst(p: Plan, k: nat, uid: string) {
    exists i :: 0 <= i < k && i < |p.leads| && p.leads[i].uid == uid
  }

  /** With distinct uids, the i-th lead's uid is not among the first i. */
  lemma NotAmongEarlier(p: Plan, i: nat)
    requires i < |p.leads| && DistinctUids(p)
    ensures !AmongFirst(p, i, p.leads[i].uid)
  {
  }

  /** One of the first k turns goes to a CRE with this id. */
  predicate TurnTaken(p: Plan, k: nat, id: int)
    requires |p.cres| > 0
  {
    exists t :: 0 <= t < k && Target(p, t).id == id
  }

  /** The cre_users counts after k turns that each write `snapshot count + 1` for their target:
      a CRE that had a turn holds exactly its snapshot count + 1, however many turns it had, and
      every other row is as it was. */
  predicate CountsFromSnapshot(p: Plan, k: nat, before: seq<Cre>, after: seq<Cre>)
    requires |p.cres| > 0
  {
    |after| == |before| &&
    (forall j, t :: 0 <= j < |before| && 0 <= t < k && Target(p, t).id == before[j].id ==>
       after[j] == before[j].(count := Target(p, t).count + 1)) &&
    (forall j :: 0 <= j < |before| && !TurnTaken(p, k, before[j].id) ==> after[j] == before[j])
  }

  /** One more turn's write keeps `CountsFromSnapshot`, because with distinct snapshot ids all
      turns of one CRE write the same value. */
  lemma SnapshotCountStep(p: Plan, k: nat, before: seq<Cre>, s: seq<Cre>)
    requires |p.cres| > 0 && DistinctIds(p.cres) && CountsFromSnapshot(p, k, before, s)
    ensures CountsFromSnapshot(p, k + 1, before, WithCount(s, Target(p, k).id, Target(p, k).count + 1))
  {
    var cre := Target(p, k);
    var r := WithCount(s, cre.id, cre.count + 1);
    forall j | 0 <= j < |before|
      ensures forall t :: 0 <= t < k + 1 && Target(p, t).id == before[j].id ==>
                r[j] == before[j].(count := Target(p, t).count + 1)
      ensures !TurnTaken(p, k + 1, before[j].id) ==> r[j] == before[j]
    {
      WithCountAt(s, cre.id, cre.count + 1, j);
      if TurnTaken(p, k, before[j].id) {
        var t0 :| 0 <= t0 < k && Target(p, t0).id == before[j].id;
        assert s[j] == before[j].(count := Target(p, t0).count + 1);
      }
      assert s[j].id == before[j].id;
      forall t | 0 <= t < k + 1 && Target(p, t).id == before[j].id
        ensures r[j] == before[j].(count := Target(p, t).count + 1)
      {
        if cre.id == before[j].id {
          assert Target(p, t) == cre;
        }
      }
      if !TurnTaken(p, k + 1, before[j].id) {
        assert !TurnTaken(p, k, before[j].id);
        assert cre.id != before[j].id;
      }
    }
  }

  /** CresWithIds keeps the primary key of cre_users: the snapshot has distinct ids. */
  lemma {:induction false} CresWithIdsDistinct(cres: seq<Cre>, ids: seq<int>)
    requires DistinctIds(cres)
    ensures DistinctIds(CresWithIds(cres, ids))
    decreases |cres|
  {
    if cres != [] {
      var rest := CresWithIds(cres[1..], ids);
      assert DistinctIds(cres[1..]) by {
        forall a, b | 0 <= a < |cres[1..]| && 0 <= b < |cres[1..]| && cres[1..][a].id == cres[1..][b].id
          ensures a == b
        {
          assert cres[a + 1].id == cres[b + 1].id;
        }
      }
      CresWithIdsDistinct(cres[1..], ids);
      if cres[0].id in ids {
        var r := [cres[0]] + rest;
        forall a, b | 0 <= a < |r| && 0 <= b < |r| && r[a].id == r[b].id
          ensures a == b
        {
        }
      }
    }
  }
}
