/** Duplicate handling of the Salesforce sync: the ten-slot duplicate_leads
    record, the same-source test, the "does this row bring anything new" test,
    and the per-row decision over a batch of incoming leads, with the
    duplicate_leads table as an in-memory map from row id to record. */
module SfDuplicates {
  import opened PyStr

  const SlotCount := 10

  /** source{i}, sub_source{i}, date{i} of a duplicate_leads record. */
  datatype Slot = Slot(source: Option<string>, subSource: Option<string>, date: Option<int>)

  const EmptySlot := Slot(None, None, None)

  /** A duplicate_leads row, or the partial dictionary the sync keeps for one it
      has just inserted (no id, no uid, only the first two slots). A slot index
      past the end of `slots` reads as an absent key, like dict.get. */
  datatype DupRecord = DupRecord(
    id: Option<int>, uid: Option<string>, phone: string, name: Option<string>,
    originalLeadId: Option<int>, count: int, slots: seq<Slot>)

  /** The lead_master columns the duplicate handling reads. `fields` holds the
      seven remarks, the seven call dates and follow_up_date, in that order. */
  datatype MasterLead = MasterLead(
    id: int, uid: string, phone: string, name: string,
    source: Option<string>, subSource: Option<string>, date: Option<int>,
    fields: seq<Option<string>>)

  /** One transformed Salesforce lead: phone, mapped source and sub-source,
      creation date, owner CRE and the same fifteen tracked fields. */
  datatype IncomingRow = IncomingRow(
    phone: string, source: string, subSource: string, date: int,
    creName: Option<string>, fields: seq<Option<string>>)

  /** A row scheduled for update, carrying the existing lead's uid and id. */
  datatype PendingUpdate = PendingUpdate(row: IncomingRow, uid: string, id: int)

  function SlotAt(r: DupRecord, i: nat): Slot {
    if i < |r.slots| then r.slots[i] else EmptySlot
  }

  // ---------------------------------------------------------------------------
  // find_next_available_source_slot
  // ---------------------------------------------------------------------------

  /** The first slot number (1-based) from i + 1 on whose source is None. */
  function FreeSlotFrom(r: DupRecord, i: nat): (k: Option<nat>)
    requires i <= SlotCount
    ensures k.Some? ==> i < k.value <= SlotCount && SlotAt(r, k.value - 1).source.None?
    ensures k.Some? ==> forall j :: i <= j < k.value - 1 ==> SlotAt(r, j).source.Some?
    ensures k.None? ==> forall j :: i <= j < SlotCount ==> SlotAt(r, j).source.Some?
    decreases SlotCount - i, r
  {
    if i == SlotCount then None
    else if SlotAt(r, i).source.None? then Some(i + 1)
    else FreeSlotFrom(r, i + 1)
  }

  /** find_next_available_source_slot: the smallest slot number in 1..10 whose
      source is None, or None when all ten are taken. */
  function FindNextSlot(r: DupRecord): (k: Option<nat>)
    ensures k.Some? ==> 1 <= k.value <= SlotCount && SlotAt(r, k.value - 1).source.None?
    ensures k.Some? ==> forall j :: 0 <= j < k.value - 1 ==> SlotAt(r, j).source.Some?
    ensures k.None? <==> forall j :: 0 <= j < SlotCount ==> SlotAt(r, j).source.Some?
  {
    FreeSlotFrom(r, 0)
  }

  // ---------------------------------------------------------------------------
  // is_duplicate_source
  // ---------------------------------------------------------------------------

  /** The lead_master branch: the record's own source and sub_source. */
  predicate MasterHasSource(m: MasterLead, source: string, subSource: string) {
    m.source == Some(source) && m.subSource == Some(subSource)
  }

  predicate SlotMatches(r: DupRecord, i: nat, source: string, subSource: string) {
    SlotAt(r, i).source == Some(source) && SlotAt(r, i).subSource == Some(subSource)
  }

  /** The scan over source1..source10 from slot index i on, stopping at the first match. */
  function HasSourceFrom(r: DupRecord, source: string, subSource: string, i: nat): bool
    requires i <= SlotCount
    decreases SlotCount - i, r
  {
    if i == SlotCount then false
    else if SlotMatches(r, i, source, subSource) then true
    else HasSourceFrom(r, source, subSource, i + 1)
  }

  /** is_duplicate_source on a duplicate_leads record. */
  function RecordHasSource(r: DupRecord, source: string, subSource: string): bool {
    HasSourceFrom(r, source, subSource, 0)
  }

  lemma {:induction false} HasSourceFromIff(r: DupRecord, source: string, subSource: string, i: nat)
    requires i <= SlotCount
    ensures HasSourceFrom(r, source, subSource, i) <==>
      exists j :: i <= j < SlotCount && SlotMatches(r, j, source, subSource)
    decreases SlotCount - i
  {
    if i < SlotCount {
      HasSourceFromIff(r, source, subSource, i + 1);
      if SlotMatches(r, i, source, subSource) {
        assert exists j :: i <= j < SlotCount && SlotMatches(r, j, source, subSource);
      }
    }
  }

  /** A duplicate record "has" a source exactly when one of its ten slots holds
      that source and sub-source together. */
  lemma RecordHasSourceIff(r: DupRecord, source: string, subSource: string)
    ensures RecordHasSource(r, source, subSource) <==>
      exists j :: 0 <= j < SlotCount && SlotMatches(r, j, source, subSource)
  {
    HasSourceFromIff(r, source, subSource, 0);
  }

  // ---------------------------------------------------------------------------
  // should_update_lead
  // ---------------------------------------------------------------------------

  /** Seven remark fields followed by seven call dates and follow_up_date. */
  const TrackedFieldCount := 15

  function FieldAt(fields: seq<Option<string>>, i: nat): Option<string> {
    if i < |fields| then fields[i] else None
  }

  /** The field scan from position i on: the new value is truthy and the
      existing one is falsy or different. */
  function ShouldUpdateFrom(existing: seq<Option<string>>, incoming: seq<Option<string>>, i: nat): bool
    requires i <= TrackedFieldCount
    decreases TrackedFieldCount - i, incoming
  {
    if i == TrackedFieldCount then false
    else
      var e := FieldAt(existing, i);
      var n := FieldAt(incoming, i);
      if Truthy(n) && (!Truthy(e) || e != n) then true
      else ShouldUpdateFrom(existing, incoming, i + 1)
  }

  /** should_update_lead */
  function ShouldUpdate(existing: seq<Option<string>>, incoming: seq<Option<string>>): bool {
    ShouldUpdateFrom(existing, incoming, 0)
  }

  predicate FieldChanged(existing: seq<Option<string>>, incoming: seq<Option<string>>, i: nat) {
    Truthy(FieldAt(incoming, i)) && FieldAt(incoming, i) != FieldAt(existing, i)
  }

  lemma {:induction false} ShouldUpdateFromIff(existing: seq<Option<string>>, incoming: seq<Option<string>>, i: nat)
    requires i <= TrackedFieldCount
    ensures ShouldUpdateFrom(existing, incoming, i) <==>
      exists j :: i <= j < TrackedFieldCount && FieldChanged(existing, incoming, j)
    decreases TrackedFieldCount - i
  {
    if i < TrackedFieldCount {
      ShouldUpdateFromIff(existing, incoming, i + 1);
      if FieldChanged(existing, incoming, i) {
        assert exists j :: i <= j < TrackedFieldCount && FieldChanged(existing, incoming, j);
      }
    }
  }

  /** A lead is updated exactly when some remark or date in the new data is
      non-empty and differs from the stored value. */
  lemma ShouldUpdateIff(existing: seq<Option<string>>, incoming: seq<Option<string>>)
    ensures ShouldUpdate(existing, incoming) <==>
      exists j :: 0 <= j < TrackedFieldCount && FieldChanged(existing, incoming, j)
  {
    ShouldUpdateFromIff(existing, incoming, 0);
  }

  // ---------------------------------------------------------------------------
  // add_source_to_duplicate_record / create_duplicate_record
  // ---------------------------------------------------------------------------

  function WithSlot(r: DupRecord, i: nat, s: Slot): DupRecord {
    if i < |r.slots| then r.(slots := r.slots[i := s]) else r
  }

  /** add_source_to_duplicate_record against the table `db`: the slot is chosen
      from the record the caller holds, the count written is that record's
      count + 1, and the update goes to the stored row with the record's id.
      No free slot, or a record without an id (the KeyError path), gives False
      and leaves the table alone; an id that matches no row updates nothing. */
  function AddSourceEffect(db: map<int, DupRecord>, r: DupRecord, source: string, subSource: string, date: int): (res: (bool, map<int, DupRecord>))
    ensures FindNextSlot(r).None? || r.id.None? ==> res == (false, db)
    ensures res.1.Keys == db.Keys
    ensures FindNextSlot(r).Some? && r.id.Some? && r.id.value in db ==>
      res.0 && res.1 == db[r.id.value := WithSlot(db[r.id.value], FindNextSlot(r).value - 1,
        Slot(Some(source), Some(subSource), Some(date))).(count := r.count + 1)]
    ensures forall id :: id in db && (r.id.None? || id != r.id.value) ==> res.1[id] == db[id]
  {
    match FindNextSlot(r)
    case None => (false, db)
    case Some(slot) =>
      if r.id.None? then (false, db)
      else if r.id.value !in db then (true, db)
      else
        var row := db[r.id.value];
        var updated := WithSlot(row, slot - 1, Slot(Some(source), Some(subSource), Some(date))).(count := r.count + 1);
        (true, db[r.id.value := updated])
  }

  /** The row create_duplicate_record inserts: the master lead in slot 1, the new
      source in slot 2, count 2, slots 3..10 empty. */
  function NewDuplicateRecord(m: MasterLead, source: string, subSource: string, date: int, id: int): (r: DupRecord)
    ensures |r.slots| == SlotCount && r.count == 2 && r.id == Some(id)
    ensures r.slots[0] == Slot(m.source, m.subSource, m.date)
    ensures r.slots[1] == Slot(Some(source), Some(subSource), Some(date))
    ensures forall i :: 2 <= i < SlotCount ==> r.slots[i] == EmptySlot
    ensures r.uid == Some(m.uid) && r.phone == m.phone && r.originalLeadId == Some(m.id)
  {
    DupRecord(Some(id), Some(m.uid), m.phone, Some(m.name), Some(m.id), 2,
      [Slot(m.source, m.subSource, m.date), Slot(Some(source), Some(subSource), Some(date)),
       EmptySlot, EmptySlot, EmptySlot, EmptySlot, EmptySlot, EmptySlot, EmptySlot, EmptySlot])
  }

  /** The dictionary the sync keeps in its batch cache after inserting a record:
      phone, count 2 and the first two sources only. */
  function PartialRecord(m: MasterLead, phone: string, source: string, subSource: string): DupRecord {
    DupRecord(None, None, phone, None, None, 2,
      [Slot(m.source, m.subSource, None), Slot(Some(source), Some(subSource), None)])
  }

  /** The stored rows: keyed by id, every row carries its own id and ten slots,
      and every id is below the next one to hand out. */
  predicate DbValid(db: map<int, DupRecord>, nextId: int) {
    forall id :: id in db ==> db[id].id == Some(id) && |db[id].slots| == SlotCount && id < nextId
  }

  /** The duplicate_leads table. */
  class DuplicateTable {
    var rows: map<int, DupRecord>
    var nextId: int

    constructor(rows0: map<int, DupRecord>, nextId0: int)
      requires DbValid(rows0, nextId0)
      ensures rows == rows0 && nextId == nextId0 && Valid()
    {
      rows := rows0;
      nextId := nextId0;
    }

    predicate Valid()
      reads this
    {
      DbValid(rows, nextId)
    }

    /** add_source_to_duplicate_record */
    method AddSource(r: DupRecord, source: string, subSource: string, date: int) returns (ok: bool)
      modifies this
      ensures (ok, rows) == AddSourceEffect(old(rows), r, source, subSource, date)
      ensures nextId == old(nextId)
      ensures old(Valid()) ==> Valid()
    {
      var slot := FindNextSlot(r);
      if slot.None? {
        return false;
      }
      if r.id.None? {
        return false;
      }
      var id := r.id.value;
      if id in rows {
        var row := rows[id];
        var updated := WithSlot(row, slot.value - 1, Slot(Some(source), Some(subSource), Some(date))).(count := r.count + 1);
        rows := rows[id := updated];
      }
      ok := true;
    }

    /** create_duplicate_record: inserts the new record under a fresh id. */
    method Create(m: MasterLead, source: string, subSource: string, date: int) returns (ok: bool)
      modifies this
      ensures ok
      ensures rows == old(rows)[old(nextId) := NewDuplicateRecord(m, source, subSource, date, old(nextId))]
      ensures nextId == old(nextId) + 1
      ensures old(Valid()) ==> Valid()
    {
      rows := rows[nextId := NewDuplicateRecord(m, source, subSource, date, nextId)];
      nextId := nextId + 1;
      ok := true;
    }
  }

  // ---------------------------------------------------------------------------
  // process_leads_for_duplicates_and_updates
  // ---------------------------------------------------------------------------

  const CreQueueNames: seq<string> := [
    "CRE-Q-1154-CHE-RAAM ELECTRIC TWO WHEELER",
    "CRE-Q-1136-CHE-RAAM ELECTRIC TWO WHEELER"
  ]

  predicate IsQueueOwner(creName: Option<string>) {
    creName.Some? && creName.value in CreQueueNames
  }

  /** Everything the loop accumulates: the batch cache of duplicate records
      keyed by phone, the table, and the result lists and counters. */
  datatype Batch = Batch(
    cache: map<string, DupRecord>, db: map<int, DupRecord>, nextId: int,
    newLeads: seq<IncomingRow>, toUpdate: seq<PendingUpdate>,
    updatedDuplicates: nat, skippedDuplicates: nat, skippedQueue: nat,
    recordsCreated: nat, recordsUpdated: nat)

  function InitialBatch(fetched: map<string, DupRecord>, db: map<int, DupRecord>, nextId: int): Batch {
    Batch(fetched, db, nextId, [], [], 0, 0, 0, 0, 0)
  }

  /** One iteration of the loop, as written. After a successful add only the
      cached count is bumped; after an insert the cache gets the partial record. */
  function Step(master: map<string, MasterLead>, b: Batch, row: IncomingRow): (b': Batch)
    ensures |b'.newLeads| <= |b.newLeads| + 1 && |b'.toUpdate| <= |b.toUpdate| + 1
  {
    var phone := row.phone;
    if IsQueueOwner(row.creName) then b.(skippedQueue := b.skippedQueue + 1)
    else if phone !in master then b.(newLeads := b.newLeads + [row])
    else
      var m := master[phone];
      if MasterHasSource(m, row.source, row.subSource) then
        if ShouldUpdate(m.fields, row.fields) then
          b.(toUpdate := b.toUpdate + [PendingUpdate(row, m.uid, m.id)],
             updatedDuplicates := b.updatedDuplicates + 1)
        else b.(skippedDuplicates := b.skippedDuplicates + 1)
      else if phone in b.cache then
        var r := b.cache[phone];
        if RecordHasSource(r, row.source, row.subSource) then
          b.(skippedDuplicates := b.skippedDuplicates + 1)
        else
          var (ok, db') := AddSourceEffect(b.db, r, row.source, row.subSource, row.date);
          if ok then
            b.(db := db', cache := b.cache[phone := r.(count := r.count + 1)],
               recordsUpdated := b.recordsUpdated + 1, updatedDuplicates := b.updatedDuplicates + 1)
          else b.(db := db', updatedDuplicates := b.updatedDuplicates + 1)
      else
        b.(db := b.db[b.nextId := NewDuplicateRecord(m, row.source, row.subSource, row.date, b.nextId)],
           nextId := b.nextId + 1,
           cache := b.cache[phone := PartialRecord(m, phone, row.source, row.subSource)],
           recordsCreated := b.recordsCreated + 1, updatedDuplicates := b.updatedDuplicates + 1)
  }

  /** The loop over the first |rows| rows, one Step per row. */
  function Run(master: map<string, MasterLead>, b: Batch, rows: seq<IncomingRow>): Batch
    decreases |rows|
  {
    if rows == [] then b else Step(master, Run(master, b, rows[..|rows| - 1]), rows[|rows| - 1])
  }

  /** What process_leads_for_duplicates_and_updates returns. */
  datatype SyncResult = SyncResult(
    newLeads: seq<IncomingRow>, toUpdate: seq<PendingUpdate>,
    updatedDuplicates: nat, skippedDuplicates: nat, skippedQueue: nat,
    recordsCreated: nat, recordsUpdated: nat, cache: map<string, DupRecord>)

  function ResultOf(b: Batch): SyncResult {
    SyncResult(b.newLeads, b.toUpdate, b.updatedDuplicates, b.skippedDuplicates, b.skippedQueue,
      b.recordsCreated, b.recordsUpdated, b.cache)
  }

  const EmptyResult := SyncResult([], [], 0, 0, 0, 0, 0, map[])

  /** process_leads_for_duplicates_and_updates over a batch, with the lead_master
      rows and the duplicate_leads rows for the batch's phones already fetched. */
  method Process(table: DuplicateTable, master: map<string, MasterLead>, fetched: map<string, DupRecord>, rows: seq<IncomingRow>)
    returns (res: SyncResult)
    modifies table
    ensures rows == [] ==> res == EmptyResult && table.rows == old(table.rows) && table.nextId == old(table.nextId)
    ensures rows != [] ==>
      var b := Run(master, InitialBatch(fetched, old(table.rows), old(table.nextId)), rows);
      res == ResultOf(b) && table.rows == b.db && table.nextId == b.nextId
  {
    if rows == [] {
      return EmptyResult;
    }
    ghost var b0 := InitialBatch(fetched, table.rows, table.nextId);
    var b := InitialBatch(fetched, table.rows, table.nextId);
    var i := 0;
    while i < |rows|
      invariant 0 <= i <= |rows|
      invariant b == Run(master, b0, rows[..i])
      invariant b.db == table.rows && b.nextId == table.nextId
    {
      b := ProcessRow(table, master, b, rows[i]);
      assert rows[..i + 1][..i] == rows[..i];
      i := i + 1;
    }
    assert rows[..|rows|] == rows;
    res := ResultOf(b);
  }

  /** The loop body for one row. `b` holds the loop's local variables, together with the
      duplicate_leads rows and next id as the table holds them. */
  method ProcessRow(table: DuplicateTable, master: map<string, MasterLead>, b: Batch, row: IncomingRow)
    returns (b': Batch)
    requires b.db == table.rows && b.nextId == table.nextId
    modifies table
    ensures b' == Step(master, b, row) && b'.db == table.rows && b'.nextId == table.nextId
  {
    var phone := row.phone;
    if IsQueueOwner(row.creName) {
      b' := b.(skippedQueue := b.skippedQueue + 1);
      assert b' == Step(master, b, row);
    } else if phone !in master {
      b' := b.(newLeads := b.newLeads + [row]);
      assert b' == Step(master, b, row);
    } else {
      var m := master[phone];
      if MasterHasSource(m, row.source, row.subSource) {
        if ShouldUpdate(m.fields, row.fields) {
          b' := b.(toUpdate := b.toUpdate + [PendingUpdate(row, m.uid, m.id)],
                   updatedDuplicates := b.updatedDuplicates + 1);
          assert b' == Step(master, b, row);
        } else {
          b' := b.(skippedDuplicates := b.skippedDuplicates + 1);
          assert b' == Step(master, b, row);
        }
      } else if phone in b.cache {
        var r := b.cache[phone];
        if RecordHasSource(r, row.source, row.subSource) {
          b' := b.(skippedDuplicates := b.skippedDuplicates + 1);
          assert b' == Step(master, b, row);
        } else {
          var ok := table.AddSource(r, row.source, row.subSource, row.date);
          if ok {
            b' := b.(db := table.rows, cache := b.cache[phone := r.(count := r.count + 1)],
                     recordsUpdated := b.recordsUpdated + 1, updatedDuplicates := b.updatedDuplicates + 1);
            assert b' == Step(master, b, row);
          } else {
            b' := b.(db := table.rows, updatedDuplicates := b.updatedDuplicates + 1);
            assert b' == Step(master, b, row);
          }
        }
      } else {
        var ok := table.Create(m, row.source, row.subSource, row.date);
        b' := b.(db := table.rows, nextId := table.nextId,
                 cache := b.cache[phone := PartialRecord(m, phone, row.source, row.subSource)],
                 recordsCreated := b.recordsCreated + 1, updatedDuplicates := b.updatedDuplicates + 1);
        assert b' == Step(master, b, row);
      }
    }
  }

  // ---------------------------------------------------------------------------
  // Properties of a run
  // ---------------------------------------------------------------------------

  /** The rows that become new leads: not a queue owner, phone not in lead_master. */
  function NewLeadRows(master: map<string, MasterLead>, rows: seq<IncomingRow>): (r: seq<IncomingRow>)
    ensures |r| <= |rows|
    decreases |rows|
  {
    if rows == [] then []
    else
      var last := rows[|rows| - 1];
      NewLeadRows(master, rows[..|rows| - 1]) + (if !IsQueueOwner(last.creName) && last.phone !in master then [last] else [])
  }

  lemma StepAccounting(master: map<string, MasterLead>, b: Batch, row: IncomingRow)
    ensures var b' := Step(master, b, row);
      b'.skippedQueue + b'.skippedDuplicates + b'.updatedDuplicates + |b'.newLeads| ==
        b.skippedQueue + b.skippedDuplicates + b.updatedDuplicates + |b.newLeads| + 1 &&
      |b'.toUpdate| + b'.recordsCreated + b'.recordsUpdated - b'.updatedDuplicates <=
        |b.toUpdate| + b.recordsCreated + b.recordsUpdated - b.updatedDuplicates &&
      b'.newLeads == b.newLeads + (if !IsQueueOwner(row.creName) && row.phone !in master then [row] else [])
  {
  }

  /** Every row is counted exactly once: skipped as a queue row, skipped as a
      duplicate, handled as an update or duplicate, or passed on as a new lead;
      and the new leads are exactly the unknown phones, in batch order. */
  lemma {:induction false} RunAccounting(master: map<string, MasterLead>, fetched: map<string, DupRecord>,
      db: map<int, DupRecord>, nextId: int, rows: seq<IncomingRow>)
    ensures var b := Run(master, InitialBatch(fetched, db, nextId), rows);
      b.skippedQueue + b.skippedDuplicates + b.updatedDuplicates + |b.newLeads| == |rows| &&
      |b.toUpdate| + b.recordsCreated + b.recordsUpdated <= b.updatedDuplicates &&
      b.newLeads == NewLeadRows(master, rows)
    decreases |rows|
  {
    if rows != [] {
      var init := rows[..|rows| - 1];
      RunAccounting(master, fetched, db, nextId, init);
      StepAccounting(master, Run(master, InitialBatch(fetched, db, nextId), init), rows[|rows| - 1]);
    }
  }

  /** Every scheduled update is a row whose phone is in lead_master with the
      same source and sub-source and something new, and it carries that lead's
      uid and id. */
  lemma {:induction false} RunUpdatesKeepIdentity(master: map<string, MasterLead>, fetched: map<string, DupRecord>,
      db: map<int, DupRecord>, nextId: int, rows: seq<IncomingRow>)
    ensures var b := Run(master, InitialBatch(fetched, db, nextId), rows);
      forall u :: u in b.toUpdate ==>
        u.row in rows && u.row.phone in master && !IsQueueOwner(u.row.creName) &&
        MasterHasSource(master[u.row.phone], u.row.source, u.row.subSource) &&
        ShouldUpdate(master[u.row.phone].fields, u.row.fields) &&
        u.uid == master[u.row.phone].uid && u.id == master[u.row.phone].id
    decreases |rows|
  {
    if rows != [] {
      var init := rows[..|rows| - 1];
      RunUpdatesKeepIdentity(master, fetched, db, nextId, init);
      forall u | u in init
        ensures u in rows
      {
        var k :| 0 <= k < |init| && init[k] == u;
        assert rows[k] == u;
      }
    }
  }

  // ---------------------------------------------------------------------------
  // The batch cache does not mirror the table
  // ---------------------------------------------------------------------------

  /** The cache holds, for every phone, exactly the stored row it stands for. */
  predicate Mirrors(cache: map<string, DupRecord>, db: map<int, DupRecord>) {
    forall p :: p in cache ==>
      cache[p].phone == p && cache[p].id.Some? && cache[p].id.value in db && db[cache[p].id.value] == cache[p]
  }

  /** lead_master rows keyed by their own phone number. */
  predicate KeyedByPhone(master: map<string, MasterLead>) {
    forall p :: p in master ==> master[p].phone == p
  }

  /** The loop iteration with the cache kept equal to what was written: after an
      add the cache holds the updated row, after an insert the inserted row. */
  function StepFixed(master: map<string, MasterLead>, b: Batch, row: IncomingRow): Batch {
    var phone := row.phone;
    if IsQueueOwner(row.creName) then b.(skippedQueue := b.skippedQueue + 1)
    else if phone !in master then b.(newLeads := b.newLeads + [row])
    else
      var m := master[phone];
      if MasterHasSource(m, row.source, row.subSource) then
        if ShouldUpdate(m.fields, row.fields) then
          b.(toUpdate := b.toUpdate + [PendingUpdate(row, m.uid, m.id)],
             updatedDuplicates := b.updatedDuplicates + 1)
        else b.(skippedDuplicates := b.skippedDuplicates + 1)
      else if phone in b.cache then
        var r := b.cache[phone];
        if RecordHasSource(r, row.source, row.subSource) then
          b.(skippedDuplicates := b.skippedDuplicates + 1)
        else
          var (ok, db') := AddSourceEffect(b.db, r, row.source, row.subSource, row.date);
          if ok && r.id.value in db' then
            b.(db := db', cache := b.cache[phone := db'[r.id.value]],
               recordsUpdated := b.recordsUpdated + 1, updatedDuplicates := b.updatedDuplicates + 1)
          else b.(db := db', updatedDuplicates := b.updatedDuplicates + 1)
      else
        var inserted := NewDuplicateRecord(m, row.source, row.subSource, row.date, b.nextId);
        b.(db := b.db[b.nextId := inserted], nextId := b.nextId + 1,
           cache := b.cache[phone := inserted],
           recordsCreated := b.recordsCreated + 1, updatedDuplicates := b.updatedDuplicates + 1)
  }

  function RunFixed(master: map<string, MasterLead>, b: Batch, rows: seq<IncomingRow>): Batch
    decreases |rows|
  {
    if rows == [] then b else StepFixed(master, RunFixed(master, b, rows[..|rows| - 1]), rows[|rows| - 1])
  }

  /** Every stored row is still there, and every slot that held a source still
      holds the same source, sub-source and date. */
  predicate KeepsFilledSlots(db: map<int, DupRecord>, db': map<int, DupRecord>) {
    forall id :: id in db ==> id in db' && SlotsKept(db[id].slots, db'[id].slots)
  }

  predicate SlotsKept(slots: seq<Slot>, slots': seq<Slot>) {
    forall i :: 0 <= i < |slots| && slots[i].source.Some? ==> i < |slots'| && slots'[i] == slots[i]
  }

  /** The number of filled slots of a record. */
  function Filled(slots: seq<Slot>): (n: nat)
    ensures n <= |slots|
  {
    if slots == [] then 0 else Filled(slots[..|slots| - 1]) + (if slots[|slots| - 1].source.Some? then 1 else 0)
  }

  lemma {:induction false} FilledAfterFill(slots: seq<Slot>, i: nat, s: Slot)
    requires i < |slots| && slots[i].source.None? && s.source.Some?
    ensures Filled(slots[i := s]) == Filled(slots) + 1
    decreases |slots|
  {
    var t := slots[i := s];
    if i < |slots| - 1 {
      assert t[..|t| - 1] == slots[..|slots| - 1][i := s];
      FilledAfterFill(slots[..|slots| - 1], i, s);
    } else {
      assert t[..|t| - 1] == slots[..|slots| - 1];
    }
  }

  lemma FilledNew(m: MasterLead, source: string, subSource: string, date: int, id: int)
    ensures var r := NewDuplicateRecord(m, source, subSource, date, id);
      Filled(r.slots) + (if m.source.Some? then 0 else 1) == r.count
  {
    var r := NewDuplicateRecord(m, source, subSource, date, id);
    var k := 2;
    while k < SlotCount
      invariant 2 <= k <= SlotCount
      invariant Filled(r.slots[..k]) == Filled(r.slots[..2])
    {
      assert r.slots[..k + 1][..k] == r.slots[..k];
      k := k + 1;
    }
    assert r.slots[..SlotCount] == r.slots;
    assert r.slots[..2][..1] == r.slots[..1];
    assert r.slots[..1][..0] == [];
  }

  /** The corrected iteration keeps the cache equal to the table it stands for,
      never overwrites a filled slot, and keeps count − filled slots of every
      stored row unchanged (rows it inserts start with count = filled slots,
      plus one when the master lead has no source). */
  lemma StepFixedKeepsTable(master: map<string, MasterLead>, b: Batch, row: IncomingRow)
    requires KeyedByPhone(master) && DbValid(b.db, b.nextId) && Mirrors(b.cache, b.db)
    ensures var b' := StepFixed(master, b, row);
      DbValid(b'.db, b'.nextId) && Mirrors(b'.cache, b'.db) && KeepsFilledSlots(b.db, b'.db) &&
      forall id :: id in b.db ==> b'.db[id].count - Filled(b'.db[id].slots) == b.db[id].count - Filled(b.db[id].slots)
  {
    var phone := row.phone;
    if !IsQueueOwner(row.creName) && phone in master && !MasterHasSource(master[phone], row.source, row.subSource) {
      if phone in b.cache {
        if !RecordHasSource(b.cache[phone], row.source, row.subSource) {
          AddFixedKeepsTable(b.cache, b.db, b.nextId, b.cache[phone], phone, row.source, row.subSource, row.date);
        }
      } else {
        InsertFixedKeepsTable(b.cache, b.db, b.nextId, master[phone], phone, row.source, row.subSource, row.date);
      }
    }
  }

  /** The add branch of the corrected step. */
  lemma AddFixedKeepsTable(cache: map<string, DupRecord>, db: map<int, DupRecord>, nextId: int, r: DupRecord,
      phone: string, source: string, subSource: string, date: int)
    requires DbValid(db, nextId) && Mirrors(cache, db) && phone in cache && cache[phone] == r
    ensures var (ok, db') := AddSourceEffect(db, r, source, subSource, date);
      var cache' := if ok && r.id.value in db' then cache[phone := db'[r.id.value]] else cache;
      DbValid(db', nextId) && Mirrors(cache', db') && KeepsFilledSlots(db, db') &&
      forall id :: id in db ==> db'[id].count - Filled(db'[id].slots) == db[id].count - Filled(db[id].slots)
  {
    var (ok, db') := AddSourceEffect(db, r, source, subSource, date);
    if FindNextSlot(r).Some? {
      var id := r.id.value;
      var k := FindNextSlot(r).value - 1;
      var s := Slot(Some(source), Some(subSource), Some(date));
      assert db[id] == r;
      FilledAfterFill(r.slots, k, s);
      assert db' == db[id := r.(slots := r.slots[k := s], count := r.count + 1)];
    }
  }

  /** The insert branch of the corrected step. */
  lemma InsertFixedKeepsTable(cache: map<string, DupRecord>, db: map<int, DupRecord>, nextId: int, m: MasterLead,
      phone: string, source: string, subSource: string, date: int)
    requires DbValid(db, nextId) && Mirrors(cache, db) && m.phone == phone
    ensures var inserted := NewDuplicateRecord(m, source, subSource, date, nextId);
      var db' := db[nextId := inserted];
      DbValid(db', nextId + 1) && Mirrors(cache[phone := inserted], db') && KeepsFilledSlots(db, db') &&
      forall id :: id in db ==> db'[id] == db[id]
  {
    assert nextId !in db;
  }

  /** Over a whole batch, starting from a cache fetched from the table, the
      corrected loop never loses a stored source. */
  lemma {:induction false} RunFixedKeepsTable(master: map<string, MasterLead>, b: Batch, rows: seq<IncomingRow>)
    requires KeyedByPhone(master) && DbValid(b.db, b.nextId) && Mirrors(b.cache, b.db)
    ensures var b' := RunFixed(master, b, rows);
      DbValid(b'.db, b'.nextId) && Mirrors(b'.cache, b'.db) && KeepsFilledSlots(b.db, b'.db)
    decreases |rows|
  {
    if rows != [] {
      var init := rows[..|rows| - 1];
      RunFixedKeepsTable(master, b, init);
      var mid := RunFixed(master, b, init);
      StepFixedKeepsTable(master, mid, rows[|rows| - 1]);
    }
  }
}

/** The in-batch duplicate cache of the sync, on two rows for the same phone that each bring
    a new source: as written the cache is not told about the slot a row filled (or, for a
    record inserted in the batch, about the record's id), and with the corrected cache. */
module SfCacheFinding {
  import opened PyStr
  import opened SfDuplicates

  /** The slot a row's source goes into. */
  function RowSlot(row: IncomingRow): Slot {
    Slot(Some(row.source), Some(row.subSource), Some(row.date))
  }

  /** Two rows for one phone that is in lead_master, neither the master's own source and
      neither owned by a queue. */
  predicate SamePhoneNewSources(master: map<string, MasterLead>, row1: IncomingRow, row2: IncomingRow) {
    row1.phone == row2.phone && row1.phone in master &&
    !IsQueueOwner(row1.creName) && !IsQueueOwner(row2.creName) &&
    !MasterHasSource(master[row1.phone], row1.source, row1.subSource) &&
    !MasterHasSource(master[row1.phone], row2.source, row2.subSource)
  }

  /** The slot scans read only the slots of a record. */
  lemma {:induction false} ScansReadSlots(r: DupRecord, r': DupRecord, source: string, subSource: string, i: nat)
    requires r.slots == r'.slots && i <= SlotCount
    ensures FreeSlotFrom(r, i) == FreeSlotFrom(r', i)
    ensures HasSourceFrom(r, source, subSource, i) == HasSourceFrom(r', source, subSource, i)
    decreases SlotCount - i
  {
    if i < SlotCount {
      ScansReadSlots(r, r', source, subSource, i + 1);
    }
  }

  /** A batch of two rows is the second step after the batch of the first row. */
  lemma RunTwo(master: map<string, MasterLead>, b: Batch, row1: IncomingRow, row2: IncomingRow)
    ensures Run(master, b, [row1, row2]) == Step(master, Run(master, b, [row1]), row2)
  {
    var rows := [row1, row2];
    assert rows[..|rows| - 1] == [row1] && rows[|rows| - 1] == row2;
  }

  lemma RunFixedTwo(master: map<string, MasterLead>, b: Batch, row1: IncomingRow, row2: IncomingRow)
    ensures RunFixed(master, b, [row1, row2]) == StepFixed(master, RunFixed(master, b, [row1]), row2)
  {
    var rows := [row1, row2];
    assert rows[..|rows| - 1] == [row1] && rows[|rows| - 1] == row2;
  }

  /** As written, a row whose cached record lacks its source and has a free slot: the table
      row gets the source in that slot and the cached count + 1, while the cached record
      only has its count raised. */
  lemma StaleAdd(master: map<string, MasterLead>, b: Batch, row: IncomingRow)
    requires SamePhoneNewSources(master, row, row) && row.phone in b.cache
    requires var r := b.cache[row.phone];
      !RecordHasSource(r, row.source, row.subSource) && FindNextSlot(r).Some? && r.id.Some? && r.id.value in b.db
    ensures var r := b.cache[row.phone];
      var id := r.id.value;
      var b' := Step(master, b, row);
      b'.db == b.db[id := WithSlot(b.db[id], FindNextSlot(r).value - 1, RowSlot(row)).(count := r.count + 1)] &&
      b'.cache == b.cache[row.phone := r.(count := r.count + 1)]
  {
  }

  lemma StaleAddOne(master: map<string, MasterLead>, b: Batch, row: IncomingRow)
    requires SamePhoneNewSources(master, row, row) && row.phone in b.cache
    requires var r := b.cache[row.phone];
      !RecordHasSource(r, row.source, row.subSource) && FindNextSlot(r).Some? && r.id.Some? && r.id.value in b.db
    ensures var r := b.cache[row.phone];
      var id := r.id.value;
      var b' := Run(master, b, [row]);
      b'.db == b.db[id := WithSlot(b.db[id], FindNextSlot(r).value - 1, RowSlot(row)).(count := r.count + 1)] &&
      b'.cache == b.cache[row.phone := r.(count := r.count + 1)]
  {
    assert [row][..0] == [];
    StaleAdd(master, b, row);
  }

  /** As written: the second row is checked against the cached record, which still shows the
      slot the first row filled as free, so it overwrites that slot. The stored record ends as
      if the first row had never come, yet its count is raised twice. */
  lemma AsWrittenOverwritesSlot(master: map<string, MasterLead>, b: Batch, row1: IncomingRow, row2: IncomingRow)
    requires SamePhoneNewSources(master, row1, row2) && row1.phone in b.cache
    requires var r := b.cache[row1.phone];
      !RecordHasSource(r, row1.source, row1.subSource) && !RecordHasSource(r, row2.source, row2.subSource) &&
      FindNextSlot(r).Some? && r.id.Some? && r.id.value in b.db
    ensures var r := b.cache[row1.phone];
      var id := r.id.value;
      Run(master, b, [row1, row2]).db ==
        b.db[id := WithSlot(b.db[id], FindNextSlot(r).value - 1, RowSlot(row2)).(count := r.count + 2)]
  {
    RunTwo(master, b, row1, row2);
    var r := b.cache[row1.phone];
    var id := r.id.value;
    var k := FindNextSlot(r).value - 1;
    var x := b.db[id];
    StaleAddOne(master, b, row1);
    var b1 := Run(master, b, [row1]);
    ScansReadSlots(r, r.(count := r.count + 1), row2.source, row2.subSource, 0);
    StaleAdd(master, b1, row2);
    if k < |x.slots| {
      assert x.slots[k := RowSlot(row1)][k := RowSlot(row2)] == x.slots[k := RowSlot(row2)];
    }
  }

  /** The corrected step on a row whose cached record is the stored row, lacks the row's
      source and has a free slot: both the table and the cache get the filled record. */
  lemma FreshAdd(master: map<string, MasterLead>, b: Batch, row: IncomingRow)
    requires SamePhoneNewSources(master, row, row) && row.phone in b.cache
    requires var r := b.cache[row.phone];
      !RecordHasSource(r, row.source, row.subSource) && FindNextSlot(r).Some? && r.id.Some? &&
      r.id.value in b.db && b.db[r.id.value] == r && |r.slots| == SlotCount
    ensures var r := b.cache[row.phone];
      var r' := r.(slots := r.slots[FindNextSlot(r).value - 1 := RowSlot(row)], count := r.count + 1);
      var b' := StepFixed(master, b, row);
      b'.db == b.db[r.id.value := r'] && b'.cache == b.cache[row.phone := r']
  {
  }

  lemma FreshAddOne(master: map<string, MasterLead>, b: Batch, row: IncomingRow)
    requires SamePhoneNewSources(master, row, row) && row.phone in b.cache
    requires var r := b.cache[row.phone];
      !RecordHasSource(r, row.source, row.subSource) && FindNextSlot(r).Some? && r.id.Some? &&
      r.id.value in b.db && b.db[r.id.value] == r && |r.slots| == SlotCount
    ensures var r := b.cache[row.phone];
      var r' := r.(slots := r.slots[FindNextSlot(r).value - 1 := RowSlot(row)], count := r.count + 1);
      var b' := RunFixed(master, b, [row]);
      b'.db == b.db[r.id.value := r'] && b'.cache == b.cache[row.phone := r']
  {
    assert [row][..0] == [];
    FreshAdd(master, b, row);
  }

  /** Filling the first free slot k of a record whose slot k + 1 is free moves the first free
      slot to k + 1, and adds no source other than the one filled in. */
  lemma FillNext(r: DupRecord, s: Slot, source: string, subSource: string)
    requires FindNextSlot(r).Some? && |r.slots| == SlotCount
    requires FindNextSlot(r).value < SlotCount && r.slots[FindNextSlot(r).value].source.None?
    requires s.source.Some? && !RecordHasSource(r, source, subSource) && !(s.source == Some(source) && s.subSource == Some(subSource))
    ensures var k := FindNextSlot(r).value - 1;
      var r1 := r.(slots := r.slots[k := s], count := r.count + 1);
      FindNextSlot(r1) == Some(k + 2) && !RecordHasSource(r1, source, subSource)
  {
    var k := FindNextSlot(r).value - 1;
    var r1 := r.(slots := r.slots[k := s], count := r.count + 1);
    assert SlotAt(r1, k + 1).source.None?;
    forall j | 0 <= j <= k
      ensures SlotAt(r1, j).source.Some?
    {
      if j < k {
        assert SlotAt(r1, j) == SlotAt(r, j);
      }
    }
    RecordHasSourceIff(r, source, subSource);
    RecordHasSourceIff(r1, source, subSource);
    forall j | 0 <= j < SlotCount
      ensures !SlotMatches(r1, j, source, subSource)
    {
      if j != k {
        assert SlotAt(r1, j) == SlotAt(r, j);
        assert !SlotMatches(r, j, source, subSource);
      }
    }
  }

  /** The corrected second step after a first one that left, for the second row's phone, a
      cached record equal to the stored row, without the row's source and with a free slot. */
  lemma FreshAddSecond(master: map<string, MasterLead>, b: Batch, row1: IncomingRow, row2: IncomingRow)
    requires SamePhoneNewSources(master, row2, row2)
    requires var b1 := RunFixed(master, b, [row1]);
      row2.phone in b1.cache &&
      var r := b1.cache[row2.phone];
      !RecordHasSource(r, row2.source, row2.subSource) && FindNextSlot(r).Some? && r.id.Some? &&
      r.id.value in b1.db && b1.db[r.id.value] == r && |r.slots| == SlotCount
    ensures var b1 := RunFixed(master, b, [row1]);
      var r := b1.cache[row2.phone];
      RunFixed(master, b, [row1, row2]).db ==
        b1.db[r.id.value := r.(slots := r.slots[FindNextSlot(r).value - 1 := RowSlot(row2)], count := r.count + 1)]
  {
    var b1 := RunFixed(master, b, [row1]);
    RunFixedTwo(master, b, row1, row2);
    FreshAdd(master, b1, row2);
    var r := b1.cache[row2.phone];
    var b2 := StepFixed(master, b1, row2);
    assert b2.db == b1.db[r.id.value := r.(slots := r.slots[FindNextSlot(r).value - 1 := RowSlot(row2)], count := r.count + 1)];
  }

  /** Corrected: with the cache holding the stored record and refreshed after each add, the
      second row goes into the next free slot and both sources are kept. */
  lemma FixedKeepsBothSources(master: map<string, MasterLead>, b: Batch, row1: IncomingRow, row2: IncomingRow)
    requires SamePhoneNewSources(master, row1, row2) && row1.phone in b.cache
    requires !(row1.source == row2.source && row1.subSource == row2.subSource)
    requires var r := b.cache[row1.phone];
      !RecordHasSource(r, row1.source, row1.subSource) && !RecordHasSource(r, row2.source, row2.subSource) &&
      FindNextSlot(r).Some? && r.id.Some? && r.id.value in b.db && b.db[r.id.value] == r &&
      |r.slots| == SlotCount && FindNextSlot(r).value < SlotCount && r.slots[FindNextSlot(r).value].source.None?
    ensures var r := b.cache[row1.phone];
      var k := FindNextSlot(r).value - 1;
      RunFixed(master, b, [row1, row2]).db ==
        b.db[r.id.value := r.(slots := r.slots[k := RowSlot(row1)][k + 1 := RowSlot(row2)], count := r.count + 2)]
  {
    var r := b.cache[row1.phone];
    var id := r.id.value;
    var k := FindNextSlot(r).value - 1;
    var r1 := r.(slots := r.slots[k := RowSlot(row1)], count := r.count + 1);
    FreshAddOne(master, b, row1);
    FillNext(r, RowSlot(row1), row2.source, row2.subSource);
    FreshAddSecond(master, b, row1, row2);
    var r2 := r1.(slots := r1.slots[k + 1 := RowSlot(row2)], count := r1.count + 1);
    assert r2 == r.(slots := r.slots[k := RowSlot(row1)][k + 1 := RowSlot(row2)], count := r.count + 2);
    assert b.db[id := r1][id := r2] == b.db[id := r2];
  }

  /** As written, a row whose phone has no cached record: the table gets the inserted record
      and the cache a partial record without an id. */
  lemma InsertStep(master: map<string, MasterLead>, b: Batch, row: IncomingRow)
    requires SamePhoneNewSources(master, row, row) && row.phone !in b.cache
    ensures var m := master[row.phone];
      var b' := Run(master, b, [row]);
      b'.db == b.db[b.nextId := NewDuplicateRecord(m, row.source, row.subSource, row.date, b.nextId)] &&
      b'.cache == b.cache[row.phone := PartialRecord(m, row.phone, row.source, row.subSource)] &&
      b'.recordsCreated == b.recordsCreated + 1 && b'.recordsUpdated == b.recordsUpdated &&
      b'.updatedDuplicates == b.updatedDuplicates + 1
  {
    assert [row][..0] == [];
  }

  /** As written, a row whose cached record has no id and lacks its source: the KeyError path,
      which changes nothing but the handled count. */
  lemma NoIdAdd(master: map<string, MasterLead>, b: Batch, row: IncomingRow)
    requires SamePhoneNewSources(master, row, row) && row.phone in b.cache
    requires b.cache[row.phone].id.None? && !RecordHasSource(b.cache[row.phone], row.source, row.subSource)
    ensures Step(master, b, row) == b.(updatedDuplicates := b.updatedDuplicates + 1)
  {
  }

  /** As written: a record inserted for the first row is cached without its id, so the second
      row takes the KeyError path of add_source_to_duplicate_record. It is still counted as a
      handled duplicate, but the table holds only the inserted record without its source. */
  lemma AsWrittenDropsSourceAfterInsert(master: map<string, MasterLead>, b: Batch, row1: IncomingRow, row2: IncomingRow)
    requires SamePhoneNewSources(master, row1, row2) && row1.phone !in b.cache
    requires !(row1.source == row2.source && row1.subSource == row2.subSource)
    ensures var b2 := Run(master, b, [row1, row2]);
      b2.db == b.db[b.nextId := NewDuplicateRecord(master[row1.phone], row1.source, row1.subSource, row1.date, b.nextId)] &&
      b2.recordsCreated == b.recordsCreated + 1 && b2.recordsUpdated == b.recordsUpdated &&
      b2.updatedDuplicates == b.updatedDuplicates + 2
  {
    RunTwo(master, b, row1, row2);
    var m := master[row1.phone];
    var partial := PartialRecord(m, row1.phone, row1.source, row1.subSource);
    InsertStep(master, b, row1);
    RecordHasSourceIff(partial, row2.source, row2.subSource);
    assert !RecordHasSource(partial, row2.source, row2.subSource) by {
      forall j | 0 <= j < SlotCount
        ensures !SlotMatches(partial, j, row2.source, row2.subSource)
      {
      }
    }
    NoIdAdd(master, Run(master, b, [row1]), row2);
  }

  /** The corrected step on a row whose phone has no cached record: the cache gets the
      inserted record itself. */
  lemma InsertStepFixed(master: map<string, MasterLead>, b: Batch, row: IncomingRow)
    requires SamePhoneNewSources(master, row, row) && row.phone !in b.cache
    ensures var inserted := NewDuplicateRecord(master[row.phone], row.source, row.subSource, row.date, b.nextId);
      var b' := RunFixed(master, b, [row]);
      b'.db == b.db[b.nextId := inserted] && b'.cache == b.cache[row.phone := inserted] &&
      b'.recordsCreated == b.recordsCreated + 1 && b'.recordsUpdated == b.recordsUpdated
  {
    assert [row][..0] == [];
  }

  /** A freshly inserted record has slots 1 and 2 filled (the master source when it has one)
      and slot 3 free. */
  lemma InsertedNextSlot(m: MasterLead, source: string, subSource: string, date: int, id: int,
      source2: string, subSource2: string)
    requires m.source.Some? && !MasterHasSource(m, source2, subSource2)
    requires !(source == source2 && subSource == subSource2)
    ensures var r := NewDuplicateRecord(m, source, subSource, date, id);
      FindNextSlot(r) == Some(3) && !RecordHasSource(r, source2, subSource2)
  {
    var r := NewDuplicateRecord(m, source, subSource, date, id);
    assert SlotAt(r, 0).source.Some? && SlotAt(r, 1).source.Some? && SlotAt(r, 2).source.None?;
    RecordHasSourceIff(r, source2, subSource2);
    forall j | 0 <= j < SlotCount
      ensures !SlotMatches(r, j, source2, subSource2)
    {
    }
  }

  /** Corrected: the cache holds the inserted record itself, so the second row's source goes
      into slot 3 of it. */
  lemma FixedStoresSourceAfterInsert(master: map<string, MasterLead>, b: Batch, row1: IncomingRow, row2: IncomingRow)
    requires SamePhoneNewSources(master, row1, row2) && row1.phone !in b.cache && master[row1.phone].source.Some?
    requires !(row1.source == row2.source && row1.subSource == row2.subSource)
    ensures var b2 := RunFixed(master, b, [row1, row2]);
      var inserted := NewDuplicateRecord(master[row1.phone], row1.source, row1.subSource, row1.date, b.nextId);
      b2.db == b.db[b.nextId := inserted.(slots := inserted.slots[2 := RowSlot(row2)], count := 3)] &&
      b2.recordsCreated == b.recordsCreated + 1 && b2.recordsUpdated == b.recordsUpdated + 1
  {
    RunFixedTwo(master, b, row1, row2);
    var m := master[row1.phone];
    InsertStepFixed(master, b, row1);
    InsertedNextSlot(m, row1.source, row1.subSource, row1.date, b.nextId, row2.source, row2.subSource);
    FreshAdd(master, RunFixed(master, b, [row1]), row2);
  }
}
