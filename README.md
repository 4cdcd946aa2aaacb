# Lead assignment and Salesforce sync of a two-wheeler dealership CRM

This project is a Dafny model of the core of a Flask and Supabase CRM.

The CRM takes leads from Salesforce and from a web form. It stores them in `lead_master`, and it records a phone number that comes back with a new source in `duplicate_leads`, which has ten source slots. It then hands fresh leads to customer-relationship executives (CREs). Three distributors do that handing out:

- **The Flask app's round-robin** (`app_completely_clean.py`):
  - resumes after the CRE who received the source's last lead;
  - re-reads each lead before assigning it;
  - binds the lead with an update guarded by `assigned = 'No'`.
- **The module-level round-robin of `auto_assign_system.py`**: the same resume rule, but no guard. Its class `EnhancedAutoAssignTrigger` also has a least-loaded distributor that picks the CRE with the smallest (auto_assign_count, id).
- **`AutoAssignSystem` of `auto_assign_module.py`**:
  - takes turns over the active configuration rows;
  - reads the CRE's count before each assignment;
  - confirms each assignment by reading the row back.

  It also resets counts, runs every active source in one pass, and scores system health.

## Modules

- **`Tables`** holds the tables as one value, `Db`, which has these parts:
  - `lead_master`;
  - `cre_users`;
  - `auto_assign_config`;
  - `auto_assign_history`;
  - `cre_call_attempt_history`.

  It defines the table updates the distributors issue, and the class `Crm` whose methods are the client calls.
- **`RoundRobin`** holds the queries and the resume point that the round-robins share.
- **`AppAssign`**, **`SystemAssign`** and **`ModuleAssign`** each model one distributor in two forms:
  - a method over `Crm` whose loop is proved equal to a fold over the fetched leads;
  - lemmas about that fold.

  `SystemMonitor` holds the distribution statistics of `EnhancedAutoAssignMonitor`.
- **`SfTransform`** holds the sync's pure field transforms:
  - the phone normaliser;
  - the source map;
  - the UID generator;
  - the call-date spreader;
  - the follow-up-remarks parser.
- **`SfDuplicates`** holds the rest of the sync:
  - the duplicate-slot helpers;
  - the `duplicate_leads` table as a class;
  - the batch loop of `DuplicateLeadsHandler`.

  `SfCacheFinding` holds the two cache defects and their corrections.
- **`AppHelpers`** holds the Flask app's own helpers:
  - its UID generator;
  - its next-call computation;
  - its date filter;
  - its upload-extension test;
  - its status mapping;
  - its add-lead slot search;
  - its pagination;
  - the CRE dashboard buckets.
- **`PyStr`** models the Python string operations the code relies on.

## Model

| member | source | states |
|---|---|---|
| PyStr.Digits | syncsalesforcetosupabase.py:666-687 | the digits filter keeps only digits and never lengthens the text |
| PyStr.DigitsAppend | syncsalesforcetosupabase.py:666-687 | filtering digits distributes over concatenation |
| PyStr.RemoveChar | syncsalesforcetosupabase.py:698 | `replace(c, '')` leaves no `c`, never lengthens the text, and keeps every other character exactly as often as before |
| PyStr.RemoveCharAppend | syncsalesforcetosupabase.py:698 | removing `c` works piece by piece on a concatenation, so the kept characters stay in their order, a text without `c` is unchanged and `c` alone vanishes |
| PyStr.Strip | app_completely_clean.py:3252 | the stripped text neither starts nor ends with whitespace |
| PyStr.StripMeaning | app_completely_clean.py:3252 | `s.strip()` is a slice `s[a:b]` with only whitespace before `a` and after `b`, so exactly the leading and trailing whitespace is removed |
| PyStr.Prefix | app_completely_clean.py:3259 | `s[:k]` is the first min(k, len) characters of `s` |
| PyStr.ZFill | app_completely_clean.py:627 | `s.zfill(w)` is `s` when already `w` long, otherwise `w` characters: the zeros go after a leading '+' or '-' and before the rest of `s` |
| PyStr.Suffix | syncsalesforcetosupabase.py:698 | `s[-k:]` is the last min(k, len) characters of `s` |
| PyStr.PySlice | app_completely_clean.py:2014 | a Python slice, with negative and out-of-range bounds, is never longer than the list |
| PyStr.IntToString | auto_assign_module.py:647 | `str(i)` is non-empty and is the decimal of \|i\|, with a leading '-' for negatives |
| PyStr.DecimalOfNatToString | auto_assign_module.py:647 | reading `str(n)` back as a decimal gives `n` |
| PyStr.Format04 | syncsalesforcetosupabase.py:689-703 | `f"{n:04d}"` is all digits and at least four characters long |
| PyStr.Format04RoundTrip | syncsalesforcetosupabase.py:689-703 | a number below 10000 formats to exactly four digits that read back as the number |
| PyStr.JoinUid | syncsalesforcetosupabase.py:689-703 | the UID layout places head, letter, '-', tail, '-' and digits at fixed offsets |
| PyStr.Lower | app_completely_clean.py:433-434 | lower-casing keeps the length and maps exactly the ASCII capitals |
| PyStr.Upper | syncsalesforcetosupabase.py:517 | upper-casing keeps the length and maps exactly the ASCII small letters |
| PyStr.Distinct | auto_assign_module.py:752 | `list(set(xs))` is one duplicate-free listing of the members of `xs` |
| Tables.MarkAssigned | auto_assign_module.py:418-429 | an assignment update keeps the number of lead rows |
| Tables.MarkAssignedAt | app_completely_clean.py:138 | the update rewrites exactly the rows selected by uid (and by assigned = 'No' when guarded), each to 'Yes' with the CRE and time, and keeps every other row |
| Tables.MarkAssignedNoMatch | app_completely_clean.py:138-143 | an update that selects no row leaves lead_master unchanged |
| Tables.MatchCountZero | app_completely_clean.py:140-143 | the update returns no row exactly when no row is selected |
| Tables.FirstLeadIsFirst | app_completely_clean.py:122-125 | `select(...).eq('uid', uid)` then `data[0]` finds nothing exactly when no row has the uid, and otherwise finds the first such row |
| Tables.FirstCreIsFirst | auto_assign_module.py:410-412 | the CRE lookup by id finds nothing exactly when no row has the id, and otherwise finds the first such row |
| Tables.WithCountAt | auto_assign_module.py:446-456 | `update({auto_assign_count: c}).eq('id', id)` rewrites the count of exactly the rows with the id |
| Tables.Crm.constructor | auto_assign_module.py:312 | the client starts on the given database state |
| Tables.Crm.UpdateLeads | auto_assign_module.py:429 | the client's lead update changes only lead_master, as `MarkAssigned`, and returns the number of rows it selected |
| Tables.Crm.SetCount | auto_assign_module.py:456 | the count update changes only cre_users |
| Tables.Crm.InsertHistory | auto_assign_module.py:486 | a history insert appends one row to auto_assign_history and changes nothing else |
| Tables.Crm.InsertAttempt | app_completely_clean.py:157 | a call-attempt insert appends one row and changes nothing else |
| RoundRobin.ConfiguredCreIds | auto_assign_system.py:77-84 | an id is listed exactly when some config row of the source has it (and is active when required) |
| RoundRobin.CresWithIds | auto_assign_system.py:88-89 | `cre_users.in_('id', ids)` returns exactly the rows whose id is listed |
| RoundRobin.Unassigned | auto_assign_system.py:96-97 | the fetched leads are exactly the rows of the source with assigned = 'No' |
| RoundRobin.FindName | app_completely_clean.py:111-116 | finds the first CRE with the name, or none when no CRE has it |
| RoundRobin.StartIndex | app_completely_clean.py:111-116 | the resume point is a valid position among the CREs |
| RoundRobin.StartIndexMeaning | app_completely_clean.py:105-116 | the resume point is 0 when no last CRE name is known or none matches; otherwise it is one past the first CRE carrying that name, wrapping round |
| RoundRobin.ResumeIndex | app_completely_clean.py:111-116 | the scan over `enumerate(cres)` computes that resume point |
| RoundRobin.SnapshotCountStep | app_completely_clean.py:159-162 | with distinct snapshot ids, one more turn that writes `snapshot count + 1` keeps the counts exact: CREs that had a turn at snapshot + 1, all others unchanged |
| RoundRobin.CresWithIdsDistinct | app_completely_clean.py:87 | the CRE rows fetched by `in_('id', ids)` keep the distinct ids of cre_users |
| AppAssign.AutoAssignNewLeadsForSource | app_completely_clean.py:61-221 | the method's result and final tables equal the fold `AppOutcome` over the fetched leads |
| AppAssign.AssignOne | app_completely_clean.py:121-177 | one loop iteration: the re-read and the guarded update bind the lead only when it is still unclaimed, and a skipped lead changes nothing |
| AppAssign.AppEarlyExits | app_completely_clean.py:76-101 | with no configuration or no configured CRE the run fails and changes nothing; it succeeds exactly when a configured CRE exists; with no fresh lead it assigns none |
| AppAssign.AppStepShape | app_completely_clean.py:121-177 | an iteration binds at most one lead, adds a history row and an attempt row exactly when it binds, changes nothing when it skips, keeps every row's key and keeps the earlier history |
| AppAssign.AppRunAccounting | app_completely_clean.py:118-217 | the assigned count never exceeds the leads seen, equals the number of history rows and of attempt rows added, and no key or configuration changes |
| AppAssign.AppStepGuard | app_completely_clean.py:138 | with the guard, an iteration changes a lead row at most from 'No' to 'Yes' with a CRE and status 'Pending' |
| AppAssign.AppRunGuard | app_completely_clean.py:137-143 | over a whole run, even on a stale lead list, no lead that was already 'Yes' is rewritten |
| AppAssign.AppStepSnapshot | app_completely_clean.py:137-175 | on any plan a skipped lead changes nothing; a bound lead sets its target's rows to the snapshot count + 1, leaves every other CRE row alone, and logs the snapshot count as before and + 1 as after |
| AppAssign.AppStepKeepsSnapshot | app_completely_clean.py:159-175 | on a fresh plan one more bound lead keeps the counts exact: CREs that had a turn at snapshot + 1, all others unchanged |
| AppAssign.AppRunSnapshotCounts | app_completely_clean.py:159-175 | on a fresh plan with distinct CRE ids, after k steps a CRE that had a turn holds exactly its snapshot count + 1, however many leads it got, and every other CRE row is unchanged |
| AppAssign.AppStepFreshBinds | app_completely_clean.py:121-143 | on a fresh plan the next lead is still unclaimed and its guarded update selects a row |
| AppAssign.AppStepFresh | app_completely_clean.py:121-177 | on a fresh plan each step binds its lead's rows to the turn's CRE ('Yes', that cre_name, the time, 'Pending'), logs it, and leaves the later leads' rows alone |
| AppAssign.AppRunFresh | app_completely_clean.py:118-177 | on a fresh plan, after k steps every row of the t-th lead (t < k) is bound to cres[(start + t) mod n] with status 'Pending', the k leads are logged in order, and the rows of later leads are untouched |
| AppAssign.AppRunOthersUntouched | app_completely_clean.py:137-143 | on any plan, a lead row whose uid is not one of the first k fetched leads is never changed |
| AppAssign.AppRunTargets | app_completely_clean.py:127 | on a fresh plan the i-th history row sends the i-th lead to cres[(start + i) mod n] |
| AppAssign.AppOutcomeFresh | app_completely_clean.py:61-217 | when the fetched leads are fresh the run succeeds, binds every one of them to its turn's CRE and logs it, leaves other lead rows alone, and (with distinct cre_users ids) leaves each CRE that had a turn at exactly its snapshot count + 1 |
| SystemAssign.AutoAssignNewLeadsForSource | auto_assign_system.py:62-178 | the method's result and final tables equal the fold `SysOutcome` |
| SystemAssign.SysAssignOne | auto_assign_system.py:121-162 | one iteration is the unguarded update, the attempt, the snapshot count + 1 and a history row |
| SystemAssign.SysEarlyExits | auto_assign_system.py:76-101 | with no configuration or no configured CRE the run fails and changes nothing; otherwise it succeeds and counts every fetched lead |
| SystemAssign.SysStepLog | auto_assign_system.py:121-162 | one more iteration extends "history row t sends lead t to the turn's CRE" by one row |
| SystemAssign.SysRunLog | auto_assign_system.py:120-162 | after k iterations history row t sends lead t to cres[(start + t) mod n] |
| SystemAssign.SysRunLeads | auto_assign_system.py:129-133 | after k iterations every row of one of the first k fetched leads is 'Yes' with a CRE and status 'Pending', and every other row is unchanged (which cre_name: SystemAssign.SysRunBound) |
| SystemAssign.SysRunTargets | auto_assign_system.py:120-162 | with no guard every fetched lead is bound, even one bound meanwhile: the k-th row logs cres[(start + k) mod n], rows of other leads are untouched, and with distinct uids every row of the k-th lead carries the cre_name of cres[(start + k) mod n] |
| SystemAssign.SysRunBound | auto_assign_system.py:129-133 | with distinct uids, after k iterations every row of the t-th lead (t < k) is bound to cres[(start + t) mod n] with status 'Pending' |
| SystemAssign.SysStepKeepsSnapshot | auto_assign_system.py:146-149 | an iteration writes its target's snapshot count + 1 and keeps the counts exact: CREs that had a turn at snapshot + 1, all others unchanged |
| SystemAssign.SysRunSnapshotCounts | auto_assign_system.py:146-149 | with distinct CRE ids, after k iterations a CRE that had a turn holds exactly its snapshot count + 1, however many leads it got, and every other CRE row is unchanged |
| SystemAssign.Fairest | auto_assign_system.py:350-382 | the chosen row is a configured CRE |
| SystemAssign.FairestIsLeast | auto_assign_system.py:350-382 | none is found exactly when no row is configured; otherwise no configured row sorts before the chosen one under (count, id), and every configured row above it sorts strictly after it |
| SystemAssign.LogAutoAssignment | auto_assign_system.py:401-459 | the logging call writes the history row with before = current and after = current + 1, the first call attempt, the count current + 1 and the lead marked 'Yes' |
| SystemAssign.FairLoop | auto_assign_system.py:277-348 | a pass assigns at most the leads that are left |
| SystemAssign.ProcessSourceLeadsFair | auto_assign_system.py:277-348 | the method's count and final tables equal the fold `FairOutcome` |
| SystemAssign.FairAssignOne | auto_assign_system.py:305-328 | one iteration equals `FairStep` |
| SystemAssign.FairLoopStops | auto_assign_system.py:336-338 | with no fairest CRE the loop stops and changes nothing |
| SystemAssign.FairLoopGoesOn | auto_assign_system.py:304-328 | an assigning step counts one and goes on with the next lead |
| SystemAssign.FairStepWrites | auto_assign_system.py:401-459 | a step adds one to exactly the fairest CRE's count and binds exactly the rows of the lead |
| SystemAssign.FairStepSpread | auto_assign_system.py:277-382 | raising a least-loaded configured CRE by one keeps any spread bound d >= 1 between configured counts |
| SystemAssign.FairLoopSpread | auto_assign_system.py:277-348 | over a whole pass the configured counts never spread further apart than max(initial spread, 1) |
| SystemAssign.FairStepKeepsIds | auto_assign_system.py:401-459 | a step keeps the configuration and every CRE id |
| SystemAssign.FairLoopAllOrNothing | auto_assign_system.py:277-348 | with no configured CRE row a pass changes nothing; otherwise it assigns every remaining lead |
| SystemMonitor.InsertByCount | auto_assign_system.py:589 | insertion keeps the multiset and adds the element |
| SystemMonitor.InsertSorted | auto_assign_system.py:589 | inserting into a list sorted by count keeps it sorted |
| SystemMonitor.SortByCount | auto_assign_system.py:589 | `sorted(cres, key=count)` is an ascending permutation of the input |
| SystemMonitor.MinCount | auto_assign_system.py:593 | `min(counts)` is a lower bound that some CRE attains |
| SystemMonitor.MaxCount | auto_assign_system.py:594 | `max(counts)` is an upper bound that some CRE attains |
| SystemMonitor.AnalyzeFairDistribution | auto_assign_system.py:575-605 | the result is the empty dictionary exactly for an empty list |
| SystemMonitor.AnalyzeMeaning | auto_assign_system.py:575-605 | sorted_cres is an ascending permutation led by a least-loaded CRE, total_cres is the length, and min and max are attained bounds |
| SystemMonitor.VarianceMeaning | auto_assign_system.py:592-596 | the variance is at most d exactly when no two counts differ by more than d |
| SystemMonitor.VarianceRating | auto_assign_system.py:685-690 | "Excellent" exactly for variance <= 1, "Good" for 2..3, "Needs improvement" above 3 |
| SystemMonitor.SpreadByValue | auto_assign_system.py:575-605 | the positional spread bound is the same as the bound over row values |
| SystemMonitor.ConfiguredVariance | auto_assign_system.py:461-484 | the variance of a source's configured CREs is at most d exactly when their counts lie within d pairwise |
| SystemMonitor.FairPassVariance | auto_assign_system.py:277-348 | after a least-loaded pass the source's variance is at most max(variance before, 1), so an "Excellent" source stays "Excellent" |
| SystemMonitor.ConfiguredNonEmpty | auto_assign_system.py:461-484 | rewriting counts keeps a source's configured CREs non-empty |
| SystemMonitor.GetSourceDistribution | auto_assign_system.py:607-631 | the loop builds the dictionary `SourceStats` |
| SystemMonitor.CresForSourceSnoc | auto_assign_system.py:607-631 | the reference list of one more config row adds that row's CRE at the end |
| SystemMonitor.SourceStatsMeaning | auto_assign_system.py:607-631 | a source has an entry exactly when one of its config rows names a known CRE, and the entry lists those CREs in config order |
| ModuleAssign.AssignLeadToCre | auto_assign_module.py:403-528 | the method's tables and result equal `AssignResult`: the unguarded update, count + 1, a history row with before and after, then the read-back |
| ModuleAssign.AssignOkIff | auto_assign_module.py:403-528 | the call reports success exactly when lead_master has a row with the uid |
| ModuleAssign.AssignCounts | auto_assign_module.py:410-486 | with distinct ids, exactly the named CRE's count goes up by one, and history logs the count read before as before and + 1 as after |
| ModuleAssign.Turn | auto_assign_module.py:643 | `cre_ids[i % len(cre_ids)]` is one of the configured ids |
| ModuleAssign.AutoAssignNewLeadsForSource | auto_assign_module.py:605-694 | the method's outcome and tables equal the fold `ModAssignOutcome` |
| ModuleAssign.ModAssignOne | auto_assign_module.py:642-662 | one iteration equals `ModStep`, with the CRE name looked up or "CRE_<id>" |
| ModuleAssign.ModStepCounters | auto_assign_module.py:642-662 | an iteration performs `assign_lead_to_cre` for the turn's CRE and counts the lead as assigned or failed |
| ModuleAssign.ModRunShape | auto_assign_module.py:639-686 | assigned_count + failed_count = total_processed, each lead adds a history row, and no key or configuration changes |
| ModuleAssign.ModRunTargets | auto_assign_module.py:642-655 | history row t logs lead t, the source and the CRE `cre_ids[t % len(cre_ids)]` |
| ModuleAssign.ModStepOk | auto_assign_module.py:655-662 | a lead whose row exists counts as assigned and adds no failure |
| ModuleAssign.ModRunPresent | auto_assign_module.py:642-662 | a uid present at the start is still present later |
| ModuleAssign.ModRunNoFailures | auto_assign_module.py:639-686 | when every fetched uid is present, as for leads fetched from this table, no lead fails |
| ModuleAssign.ModStepCounts | auto_assign_module.py:643-655 | an iteration adds one to the count of the CRE whose turn it is and changes no other row |
| ModuleAssign.CountsAfterDistinct | auto_assign_module.py:446-456 | count updates keep CRE ids distinct |
| ModuleAssign.CountsAfterBump | auto_assign_module.py:643-656 | one more turn's bump extends "each count grew by its number of turns" |
| ModuleAssign.ModRunCounts | auto_assign_module.py:639-662 | after k iterations each CRE's count has grown by exactly the number of turns it had among the first k |
| ModuleAssign.ModCountsStep | auto_assign_module.py:642-662 | one iteration extends that count invariant by one turn |
| ModuleAssign.ModOutcomeMeaning | auto_assign_module.py:605-694 | no active configuration means failure and no change; success exactly when one exists; on success everything fetched is assigned and nothing fails; configuration kept |
| ModuleAssign.Reset | auto_assign_module.py:530-603 | the reset keeps the number of CRE rows |
| ModuleAssign.ResetAt | auto_assign_module.py:561-579 | a listed CRE's count becomes 0, and every other row is unchanged |
| ModuleAssign.ResetCreAutoAssignCounts | auto_assign_module.py:530-603 | the method returns True and changes only cre_users, as `Reset`; an empty list changes nothing |
| ModuleAssign.CheckAndAssignNewLeads | auto_assign_module.py:740-779 | the method reports success and equals the fold `CheckRun` of the per-source call over the active sources |
| ModuleAssign.CheckOne | auto_assign_module.py:757-767 | one source's result joins the list, and its count joins the total when successful |
| ModuleAssign.AssignerKeepsActive | auto_assign_module.py:605-633 | the per-source call succeeds on a source with an active configuration and keeps the configuration table |
| ModuleAssign.CheckRunMeaning | auto_assign_module.py:752-767 | over active sources there is one result per source, every result succeeds, total_assigned is their sum, and the configuration is kept |
| ModuleAssign.CheckAndAssignMeaning | auto_assign_module.py:740-779 | the same for the actual per-source call |
| ModuleAssign.SystemHealth | auto_assign_module.py:928-978 | score between 40 and 100; 100 exactly when all three checks pass; Healthy exactly when running and with thread or errors fine; Critical exactly when all three fail; one issue per failed check |
| SfTransform.NormalizePhone | syncsalesforcetosupabase.py:666-687 | the result is all digits, an empty phone stays empty, and its length is the smaller of ten and the length of the digits once the prefix is dropped |
| SfTransform.DropPrefix | syncsalesforcetosupabase.py:672-685 | the result is a tail of the digits: exactly two characters shorter for twelve digits starting "91", one shorter for eleven digits starting '0', and otherwise the digits themselves |
| SfTransform.NormalizePhoneSuffix | syncsalesforcetosupabase.py:666-687 | the normalised phone is a tail of the phone's digits |
| SfTransform.NormalizePhoneIdempotent | syncsalesforcetosupabase.py:666-687 | normalising twice is normalising once |
| SfTransform.NormalizePhonePrefixes | syncsalesforcetosupabase.py:666-687 | "91", "0" and "+91 " in front of a ten-digit number are removed |
| SfTransform.MapSourceAndSubsource | syncsalesforcetosupabase.py:628-664 | affiliate names map to OEM and their sub-source, web names to OEM/Web, tele names to OEM/Tele, and anything else to (None, None) |
| SfTransform.MappedSourcesHaveUidLetter | syncsalesforcetosupabase.py:689-703 | every mapped sub-source has its own UID letter rather than the default 'S' |
| SfTransform.GenerateUid | syncsalesforcetosupabase.py:689-703 | the UID is the source letter, the sequence letter (sequence mod 26), '-', the last four mobile characters, '-', and (sequence mod 9999) + 1 in four digits |
| SfTransform.SpreadDates | syncsalesforcetosupabase.py:603-607 | each spread call date is the slot `SpreadSlot` of its position |
| SfTransform.SpreadSlot | syncsalesforcetosupabase.py:604-606 | a spread date exists exactly when created + interval * k <= last, and then it is that date |
| SfTransform.CallDates | syncsalesforcetosupabase.py:559-626 | there are seven call dates, and the first is the creation date |
| SfTransform.MapCallDates | syncsalesforcetosupabase.py:559-626 | the method computes `CallDates` |
| SfTransform.SpreadCallDates | syncsalesforcetosupabase.py:599-610 | the spreading loop computes `CallDates` for a gap above seven days |
| SfTransform.CallDatesChronological | syncsalesforcetosupabase.py:559-626 | the call dates that are present lie between the creation date and the last follow-up, never decrease, and only the first is strictly earliest (spread dates can meet the last follow-up) |
| SfTransform.CallDatesSpread | syncsalesforcetosupabase.py:599-610 | for a gap above seven days the dates are creation, the spread slots and the last follow-up |
| SfTransform.SpreadChronological | syncsalesforcetosupabase.py:599-610 | in the spread case the present dates lie within bounds and never decrease, the creation date strictly first |
| SfTransform.SpreadSlotBounds | syncsalesforcetosupabase.py:604-606 | a spread date lies after creation and no later than the last follow-up |
| SfTransform.SpreadSlotMonotone | syncsalesforcetosupabase.py:603-607 | later slots have later dates |
| SfTransform.CallDatesCases | syncsalesforcetosupabase.py:583-610 | the four gap cases: none for gap <= 0, the last date alone for 1..3, the midpoint and the last for 4..7, the 4-way spread for more |
| SfTransform.Collapse | syncsalesforcetosupabase.py:479 | collapsing whitespace never lengthens the text |
| SfTransform.CollapseMeaning | syncsalesforcetosupabase.py:479 | `re.sub(r'\s+', ' ', s)` leaves no two whitespace characters side by side, only plain spaces, whitespace at the front exactly when `s` has it, and the other characters of `s` in order |
| SfTransform.CollapseIsSqueeze | syncsalesforcetosupabase.py:479 | the substitution equals one left-to-right pass that writes one space per maximal whitespace run |
| SfTransform.DigitRunEnd | syncsalesforcetosupabase.py:486 | the scan stops at the end of a run of digits |
| SfTransform.SpaceRunEnd | syncsalesforcetosupabase.py:486 | the scan stops at the end of a run of whitespace |
| SfTransform.MarkerAt | syncsalesforcetosupabase.py:486-488 | a section marker found at q starts at q and ends inside the text |
| SfTransform.Markers | syncsalesforcetosupabase.py:486-488 | the markers found are ordered and within the text |
| SfTransform.SectionText | syncsalesforcetosupabase.py:491-502 | each section text is stripped |
| SfTransform.SectionsStripped | syncsalesforcetosupabase.py:491-503 | every section collected is stripped |
| SfTransform.Remarks | syncsalesforcetosupabase.py:450-557 | the parser returns seven remark slots, one per remark field |
| SfTransform.SectionsUpToMeaning | syncsalesforcetosupabase.py:490-502 | after the first k matches, number n is in the sections dictionary exactly when one of those matches is numbered n, and its text is that of the last such match |
| SfTransform.SectionsDomain | syncsalesforcetosupabase.py:490-502 | the dictionary's keys are exactly the numbers of the matches collected so far |
| SfTransform.SectionsValue | syncsalesforcetosupabase.py:490-502 | a later match with the same number overwrites an earlier one, so the last one's text is stored |
| SfTransform.Slots | syncsalesforcetosupabase.py:509-530 | there are seven slots and slot n - 1 is section n as a remark, or None when there is no section n |
| SfTransform.RemarksMeaning | syncsalesforcetosupabase.py:450-530 | a missing or empty field gives None in every slot; otherwise remark n is None when no marker of the normalised text is numbered n, and is the stripped text after the last marker numbered n (None when that is empty or "NONE") |
| SfTransform.RemarksThree | syncsalesforcetosupabase.py:450-530 | for "1. x  2.  3. z" with digit-free x and z the remarks are x, None, z and four Nones |
| SfTransform.RemarksExample | syncsalesforcetosupabase.py:450-557 | the parser's own sample "1. rnr  2.  3. VOC : cx enquired about on road price" gives "rnr", None, the VOC text and four Nones |
| SfTransform.RemarksShape | syncsalesforcetosupabase.py:450-557 | every kept remark is non-empty, stripped and not "NONE", and a missing or empty field gives no remarks |
| SfTransform.ExtractFollowUpRemarks | syncsalesforcetosupabase.py:450-557 | the method computes `Remarks` |
| SfTransform.SectionsUnfold | syncsalesforcetosupabase.py:490-503 | collecting one more section writes its text under its number |
| SfTransform.CollectSections | syncsalesforcetosupabase.py:490-503 | the loop collects the sections dictionary |
| SfTransform.ReadRemarkSlots | syncsalesforcetosupabase.py:508-529 | slot k holds section k + 1 |
| SfDuplicates.FreeSlotFrom | syncsalesforcetosupabase.py:165-170 | the slot found is the first slot from i with no source, and none is found only when all of them are taken |
| SfDuplicates.FindNextSlot | syncsalesforcetosupabase.py:165-170 | the slot found is the first of the ten with source None, and none is found exactly when all ten are taken |
| SfDuplicates.HasSourceFromIff | syncsalesforcetosupabase.py:234-247 | the scan from slot i finds the pair exactly when some later slot holds it |
| SfDuplicates.RecordHasSourceIff | syncsalesforcetosupabase.py:234-247 | a record has the source/sub-source pair exactly when one of its ten slots holds it |
| SfDuplicates.ShouldUpdateFromIff | syncsalesforcetosupabase.py:249-288 | the scan from field i finds a change exactly when some later field changed |
| SfDuplicates.ShouldUpdateIff | syncsalesforcetosupabase.py:249-288 | an update is due exactly when some tracked field brings a non-empty value that differs from the stored one |
| SfDuplicates.AddSourceEffect | syncsalesforcetosupabase.py:172-197 | with no free slot or no id nothing is written and False is returned; otherwise the free slot is filled and the count raised by one in the row with that id, and no other row changes |
| SfDuplicates.NewDuplicateRecord | syncsalesforcetosupabase.py:199-232 | the new record has count 2, the original's source in slot 1, the new source in slot 2 and eight empty slots |
| SfDuplicates.DuplicateTable.constructor | syncsalesforcetosupabase.py:295-302 | the table starts on the given rows |
| SfDuplicates.DuplicateTable.AddSource | syncsalesforcetosupabase.py:172-197 | the method writes and returns as `AddSourceEffect`, and keeps the table valid |
| SfDuplicates.DuplicateTable.Create | syncsalesforcetosupabase.py:199-232 | the method inserts `NewDuplicateRecord` under a fresh id and returns True |
| SfDuplicates.Step | syncsalesforcetosupabase.py:351-429 | a row adds at most one new lead and at most one update |
| SfDuplicates.Process | syncsalesforcetosupabase.py:323-441 | an empty batch returns the empty result; otherwise the result and table equal the fold `Run` over the rows |
| SfDuplicates.ProcessRow | syncsalesforcetosupabase.py:351-429 | one loop body equals `Step` |
| SfDuplicates.NewLeadRows | syncsalesforcetosupabase.py:427-429 | there are never more new-lead rows than batch rows |
| SfDuplicates.StepAccounting | syncsalesforcetosupabase.py:351-429 | each row adds exactly one to skipped_queue + skipped_duplicates + updated_duplicates + new_leads, and is a new lead exactly when it is no queue row and its phone is unknown |
| SfDuplicates.RunAccounting | syncsalesforcetosupabase.py:323-441 | every row is counted exactly once, records created and updated never exceed updated_duplicates, and new_leads are exactly the unknown phones in batch order |
| SfDuplicates.RunUpdatesKeepIdentity | syncsalesforcetosupabase.py:372-382 | every scheduled update is a known phone with the same source pair and a changed field, and carries that lead's uid and id |
| SfDuplicates.Filled | syncsalesforcetosupabase.py:165-170 | the number of filled slots is at most the number of slots |
| SfDuplicates.FilledAfterFill | syncsalesforcetosupabase.py:172-197 | filling an empty slot adds one filled slot |
| SfDuplicates.FilledNew | syncsalesforcetosupabase.py:199-232 | a new record's count minus its filled slots is 0 or 1, depending on the original's source |
| SfDuplicates.AddFixedKeepsTable | syncsalesforcetosupabase.py:404-409 | the corrected add keeps the cache a mirror of the table and keeps count - filled slots |
| SfDuplicates.InsertFixedKeepsTable | syncsalesforcetosupabase.py:411-423 | the corrected insert keeps the cache a mirror of the table |
| SfDuplicates.StepFixedKeepsTable | syncsalesforcetosupabase.py:351-429 | the corrected step keeps ids valid, keeps the cache a mirror of the table, never clears a filled slot, and keeps count - filled slots of every row |
| SfDuplicates.RunFixedKeepsTable | syncsalesforcetosupabase.py:351-429 | over a whole batch the corrected loop keeps the cache a mirror of the table and never overwrites a filled slot |
| SfCacheFinding.AsWrittenOverwritesSlot | syncsalesforcetosupabase.py:404-409 | as written, two new sources for a cached phone end in the same slot: the second overwrites the first while the count rises by two |
| SfCacheFinding.AsWrittenDropsSourceAfterInsert | syncsalesforcetosupabase.py:411-425 | as written, after a row creates a duplicate record, a second new source in the batch is not stored, yet it is counted as handled |
| SfCacheFinding.FixedKeepsBothSources | syncsalesforcetosupabase.py:404-409 | with the cache refreshed, the two sources land in consecutive slots and the count rises by two |
| SfCacheFinding.FixedStoresSourceAfterInsert | syncsalesforcetosupabase.py:411-423 | with the inserted record cached, the second source lands in slot 3 and the count becomes 3 |
| AppHelpers.SourceCode | app_completely_clean.py:606-632 | the source code is one or two characters |
| AppHelpers.MobileTail | app_completely_clean.py:626-627 | with spaces and dashes removed, the mobile part is the last four characters, or the shorter number zero-filled to four |
| AppHelpers.GenerateUid | app_completely_clean.py:606-632 | the UID is the source code, the letter for sequence mod 26, '-', the mobile part, '-', and (sequence mod 9999) + 1 in four digits |
| AppHelpers.UidLetterSeparates | app_completely_clean.py:606-632 | sequence numbers less than 26 apart never give the same UID for the same source and mobile |
| AppHelpers.NextCallInfo | app_completely_clean.py:635-666 | the completed calls are the leading filled call dates in call order; the next call is the first unfilled one, or 'first' when all seven are filled |
| AppHelpers.Window | app_completely_clean.py:957-983 | every filter window ends today, and 'all' or an unknown type gives no window |
| AppHelpers.FilterSpec | app_completely_clean.py:985-1005 | the filter never adds leads |
| AppHelpers.FilterLeadsByDate | app_completely_clean.py:957-1005 | 'all' or an unknown type returns the leads unchanged; otherwise the loop computes `FilterSpec` |
| AppHelpers.FilterSpecMembers | app_completely_clean.py:985-1005 | a lead is kept exactly when its date lies in the window, or it has no date or one that does not parse |
| AppHelpers.FilterSpecAppend | app_completely_clean.py:985-1005 | filtering keeps input order: filtering a concatenation filters each part |
| AppHelpers.LastDotBefore | app_completely_clean.py:433-434 | the position found is the last '.', and none is found only when there is no dot |
| AppHelpers.AllowedFile | app_completely_clean.py:433-434 | an accepted name contains a dot |
| AppHelpers.AllowedFileIff | app_completely_clean.py:425-434 | a name is accepted exactly when its last dot is followed by csv, xlsx or xls in any case |
| AppHelpers.LastDotTest | app_completely_clean.py:433-434 | a test on the text after the last dot holds exactly when it holds after some dot with no dot after it |
| AppHelpers.DotIsLast | app_completely_clean.py:433-434 | a dot with no dot after it is the one `rsplit('.', 1)` splits at |
| AppHelpers.StatusUpdateFacts | app_completely_clean.py:3436-3500 | lead_status is written whenever chosen; Booked/Retailed set 'Won' and the lost statuses set 'Lost' unless the form names a final status, which wins and stamps the time; the follow-up date comes from the form, else the stored one for a closing status |
| AppHelpers.CoDealerNotClosed | app_completely_clean.py:3422-3445 | the offered status 'Lost to Co Dealer' does not set final_status, because the mapping tests 'Lost to Codealer' |
| AppHelpers.FixedClosesOfferedLostStatuses | app_completely_clean.py:3422-3445 | with the offered spelling added, every offered "Not Interested" or "Lost to …" status closes the lead as Lost |
| AppHelpers.AppFreeSlotFrom | app_completely_clean.py:2651-2656 | the slot found is the first from i whose source is falsy, and none is found only when all are truthy |
| AppHelpers.AppSlotVersusSync | app_completely_clean.py:2651-2656 | the form's search finds a slot whenever the sync's does, no later; the two agree when no slot holds "" |
| AppHelpers.AddLeadDuplicateUpdate | app_completely_clean.py:2645-2669 | no write exactly when all ten slots are taken; otherwise the free slot gets the new source and the count rises by one |
| AppHelpers.TotalPages | app_completely_clean.py:2011 | the pages hold every lead, and none of them is empty |
| AppHelpers.PageBlock | app_completely_clean.py:2012-2014 | page p >= 1 is the block of up to fifty leads starting at (p - 1) * 50, and page 0 is empty |
| AppHelpers.PagesUpToPrefix | app_completely_clean.py:2010-2014 | pages 1..k laid end to end are the first min(50k, n) leads |
| AppHelpers.PagesCoverList | app_completely_clean.py:2010-2014 | pages 1..total_pages together are the whole list, in order |
| AppHelpers.NegativePageFromEnd | app_completely_clean.py:2012-2014 | every page p < 0 with enough leads selects the fifty leads starting at len + (p - 1) * 50, counted from the end |
| AppHelpers.ClampedPageFromFront | app_completely_clean.py:2012-2014 | with the page clamped to at least 1, every page number selects a block counted from the front |
| AppHelpers.Select | app_completely_clean.py:3251-3291 | a bucket never holds more leads than the input |
| AppHelpers.BucketsExclusive | app_completely_clean.py:3251-3291 | apart from the PS-assigned bucket a lead is in at most one bucket, and a won or lost lead is in no other |
| AppHelpers.SelectSnoc | app_completely_clean.py:3251-3291 | one more lead joins exactly the buckets it belongs to |
| AppHelpers.BucketLeads | app_completely_clean.py:3236-3291 | the bucketing loop builds every bucket as the leads that belong to it, in input order |

## Left out

- I/O. Every Supabase query and update is a step on the in-memory `Db` or `DuplicateTable`. Every `try/except` that turns a client exception into `False`, `{'success': False}` or an empty list is left out, so the modelled calls never raise.
- ModuleAssign.AssignLeadToCre: does not model the `False` returned when the client raises, because client errors are outside the model; its result comes only from the read-back.
- Clocks. Every timestamp the code reads is one `now` string per call, and calendar dates are day numbers (`Calendar`).
- The random and time-based parts of UIDs and sequence numbers are parameters. `get_next_sequence_number` is not part of this model.
- Python's set order. `list(set(...))` in `check_and_assign_new_leads` is any duplicate-free listing of the set.
- Python's sort stability is modelled as insertion by count, which keeps equal keys in input order.
- The last-assigned CRE query of the round-robins (`order('cre_assigned_at').limit(1)`) is the parameter `lastCreName`.
- SystemMonitor.AnalyzeFairDistribution: does not model `avg_count`, because it is floating point.
- The `message`, `timestamp`, `uptime`, `last_run` and similar informational dictionary fields are left out.
- SystemAssign.FairAttempt: models call_no as the string "1".
- The call-attempt columns that carry no logic are left out: attempt, call_was_recorded and final_status.
- The logging reads are left out. These are the count reads in `reset_cre_auto_assign_counts`, its verification pass, `_verify_lead_assignment`, the debug prints and every `print`.
- The threads are left out: `VirtualThreadManager`, the `robust_auto_assign_worker` loop, start/stop, sleeping, and the trigger and monitor loops. ModuleAssign.SystemHealth takes `is_running`, `thread_alive` and the error count as inputs.
- The `GitHubActionsWorker`, the exporters, the Flask routes' HTML rendering, e-mail, PS follow-up records and the approval flow are outside the distributor and sync core.
- Salesforce fetching, pandas frames and the sync's `main` are left out. The batch loop takes its rows as a sequence of `IncomingRow`.
- AppHelpers.NextCallInfo: when all seven call dates are filled, the app writes the next update over the first call; the model stops at reporting 'first'.
- Strings are sequences of characters. Case mapping is ASCII and whitespace is ASCII plus Latin-1, which covers the values the code compares.
- PyStr.IsDigit: only the ASCII digits 0-9 count as digits, whereas Python's `str.isdigit` and the regex `\d` also accept other Unicode decimal digits (and `isdigit` superscript digits); PyStr.Digits and the remarks markers inherit this.
- AppAssign.AppRunSnapshotCounts: the exact final counts are proved for a fresh plan; for a lead list another run overtook, only the per-step effect (AppAssign.AppStepSnapshot) and the guard (AppAssign.AppRunGuard) are stated.
- SfTransform.Remarks: its own contract states only the seven slots; what each slot holds is stated by SfTransform.RemarksMeaning, and the sample by SfTransform.RemarksExample.
- PyStr.RemoveChar: its own contract states the characters kept as a multiset; their order is stated by PyStr.RemoveCharAppend.
- The sync's `fromisoformat` and `strptime` parsing is reduced to day numbers, or to "does not parse" in the date filter.

## Findings

| source | as written | input that shows it | evidently intended | confidence | as-written member | corrected member |
|---|---|---|---|---|---|---|
| syncsalesforcetosupabase.py:404-409 | after adding a source to a cached duplicate record, only the cached `duplicate_count` is raised; the cached slots stay as they were | one batch with two rows for a phone in lead_master and duplicate_leads, each bringing a source/sub-source pair that neither record holds | the second row fills the next slot, so both sources are kept | not executed | SfCacheFinding.AsWrittenOverwritesSlot | SfCacheFinding.FixedKeepsBothSources, SfDuplicates.RunFixedKeepsTable |
| syncsalesforcetosupabase.py:411-425 | after creating a duplicate record, the cache gets a partial record without `id`; a second new source for that phone makes `add_source_to_duplicate_record` fail on the missing key and return False, yet the row still counts in updated_duplicates | one batch with two rows for a phone in lead_master but not in duplicate_leads, each with a source pair the lead does not have | cache the inserted record itself, so the second source lands in slot 3 | not executed | SfCacheFinding.AsWrittenDropsSourceAfterInsert | SfCacheFinding.FixedStoresSourceAfterInsert |
| app_completely_clean.py:3426, 3437 | the update form offers 'Lost to Co Dealer', but the mapping's lost list holds 'Lost to Codealer' | lead_status 'Lost to Co Dealer' with no final status chosen | the lead is closed with final_status 'Lost', like the other "Lost to …" choices | not executed | AppHelpers.CoDealerNotClosed | AppHelpers.FixedClosesOfferedLostStatuses |
| app_completely_clean.py:2012-2014 | a page number below 1 from the query string gives a negative start index, which Python slices from the end | 120 leads and page=-1: leads[-100:-50], that is leads 20..69 | a page below 1 is read as page 1, or gives an empty page | not executed | AppHelpers.NegativePageFromEnd | AppHelpers.ClampedPageFromFront |
