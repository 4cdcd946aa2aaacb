/** Lead helpers of the Flask CRM application: UID generation, the next-call
    slot, the date-window filter, upload file names, the lead_status to
    final_status mapping of the lead update form, the duplicate-slot search of
    the add-lead form, pagination of the lead list and the CRE dashboard buckets. */
module AppHelpers {
  import opened PyStr
  import opened SfDuplicates

  // ---------------------------------------------------------------------------
  // generate_uid
  // ---------------------------------------------------------------------------

  const AppSourceCodes: map<string, string> := map[
    "Google" := "G", "Meta" := "M", "Affiliate" := "A", "Know" := "K", "Whatsapp" := "W",
    "Tele" := "T", "Activity" := "AC", "Walk-in" := "W", "Walkin" := "W"]

  /** source_map.get(source, 'X') */
  function SourceCode(source: string): (code: string)
    ensures code != [] && |code| <= 2
  {
    if source in AppSourceCodes then AppSourceCodes[source] else "X"
  }

  /** The mobile part: spaces and hyphens removed, then the last four characters,
      or the whole string zero-filled to four when it is shorter. */
  function MobileTail(mobile: string): (t: string)
    ensures |t| == 4
    ensures var m := RemoveChar(RemoveChar(mobile, ' '), '-');
      (|m| >= 4 ==> t == Suffix(m, 4)) &&
      (|m| < 4 && !(m != [] && (m[0] == '+' || m[0] == '-')) ==> t == Zeros(4 - |m|) + m) &&
      (|m| < 4 && m != [] && (m[0] == '+' || m[0] == '-') ==> t[0] == m[0] && t[1..] == Zeros(4 - |m|) + m[1..])
  {
    var m := RemoveChar(RemoveChar(mobile, ' '), '-');
    if |m| >= 4 then m[|m| - 4..] else ZFill(m, 4)
  }

  /** generate_uid: source code, a letter A..Z, the mobile part and a four-digit
      running number, joined with hyphens. */
  function GenerateUid(source: string, mobile: string, sequence: int): (r: string)
    ensures |r| == |SourceCode(source)| + 11
    ensures r[..|SourceCode(source)|] == SourceCode(source)
    ensures 'A' <= r[|SourceCode(source)|] <= 'Z' && r[|SourceCode(source)|] as int - 'A' as int == sequence % 26
    ensures r[|SourceCode(source)| + 1] == '-' && r[|SourceCode(source)| + 6] == '-'
    ensures r[|SourceCode(source)| + 2..|SourceCode(source)| + 6] == MobileTail(mobile)
    ensures AllDigits(r[|r| - 4..]) && 1 <= DecimalValue(r[|r| - 4..]) <= 9999
    ensures DecimalValue(r[|r| - 4..]) == sequence % 9999 + 1
  {
    var code := SourceCode(source);
    var n := sequence % 9999 + 1;
    Format04RoundTrip(n);
    JoinUid(code, (65 + sequence % 26) as char, MobileTail(mobile), Format04(n))
  }

  /** Two sequence numbers that differ by less than 26 never give the same UID
      for the same source and mobile: the letter tells them apart. */
  lemma UidLetterSeparates(source: string, mobile: string, s1: int, s2: int)
    requires s1 < s2 < s1 + 26
    ensures GenerateUid(source, mobile, s1) != GenerateUid(source, mobile, s2)
  {
    var k := |SourceCode(source)|;
    var u1 := GenerateUid(source, mobile, s1);
    var u2 := GenerateUid(source, mobile, s2);
    assert u1[k] as int - 'A' as int == s1 % 26;
    assert u2[k] as int - 'A' as int == s2 % 26;
    ModDistinct(s1, s2, 26);
  }

  lemma ModDistinct(a: int, b: int, m: int)
    requires m == 26 && a < b < a + m
    ensures a % m != b % m
  {
  }

  // ---------------------------------------------------------------------------
  // get_next_call_info / get_next_ps_call_info
  // ---------------------------------------------------------------------------

  const CallNames: seq<string> := ["first", "second", "third", "fourth", "fifth", "sixth", "seventh"]

  /** lead.get('<n>_call_date') for the n-th call, 0-based. */
  function CallDateAt(dates: seq<Option<string>>, i: nat): Option<string> {
    if i < |dates| then dates[i] else None
  }

  /** The calls done are the longest prefix of first..seventh with a truthy call
      date; the next call is the first slot after it, and 'first' again once all
      seven are filled. */
  method NextCallInfo(dates: seq<Option<string>>) returns (next: string, completed: seq<string>)
    ensures |completed| <= 7 && completed == CallNames[..|completed|]
    ensures forall j :: 0 <= j < |completed| ==> Truthy(CallDateAt(dates, j))
    ensures |completed| < 7 ==> !Truthy(CallDateAt(dates, |completed|)) && next == CallNames[|completed|]
    ensures |completed| == 7 ==> next == "first"
  {
    completed := [];
    next := "first";
    var i := 0;
    while i < 7
      invariant 0 <= i <= 7 && completed == CallNames[..i]
      invariant forall j :: 0 <= j < i ==> Truthy(CallDateAt(dates, j))
      invariant next == "first"
    {
      if Truthy(CallDateAt(dates, i)) {
        completed := completed + [CallNames[i]];
      } else {
        next := CallNames[i];
        return;
      }
      i := i + 1;
    }
  }

  // ---------------------------------------------------------------------------
  // filter_leads_by_date
  // ---------------------------------------------------------------------------

  /** The lead's date column: empty, present but not a date either parser
      accepts, or a day number. */
  datatype DateInfo = Missing | Unparsable | Parsed(day: int)

  datatype DatedLead = DatedLead(uid: string, date: DateInfo)

  /** Today as a day number, with its weekday (Monday = 0) and day of the month. */
  datatype Calendar = Calendar(today: int, weekday: int, dayOfMonth: int)

  /** The [start, end] window of a filter type, or None for 'all' and for an
      unknown type. */
  function Window(filterType: string, c: Calendar): (w: Option<(int, int)>)
    ensures w.Some? ==> w.value.1 == c.today
  {
    if filterType == "today" then Some((c.today, c.today))
    else if filterType == "mtd" then Some((c.today - (c.dayOfMonth - 1), c.today))
    else if filterType == "week" then Some((c.today - c.weekday, c.today))
    else if filterType == "month" then Some((c.today - 30, c.today))
    else if filterType == "quarter" then Some((c.today - 90, c.today))
    else if filterType == "year" then Some((c.today - 365, c.today))
    else None
  }

  /** A lead is kept when its date lies in the window, or when it has no date
      or one that does not parse. */
  predicate KeepsLead(w: (int, int), l: DatedLead) {
    match l.date
    case Missing => true
    case Unparsable => true
    case Parsed(d) => w.0 <= d <= w.1
  }

  function FilterSpec(leads: seq<DatedLead>, w: (int, int)): (r: seq<DatedLead>)
    ensures |r| <= |leads|
    decreases |leads|
  {
    if leads == [] then []
    else FilterSpec(leads[..|leads| - 1], w) + (if KeepsLead(w, leads[|leads| - 1]) then [leads[|leads| - 1]] else [])
  }

  /** filter_leads_by_date */
  method FilterLeadsByDate(leads: seq<DatedLead>, filterType: string, c: Calendar) returns (r: seq<DatedLead>)
    ensures filterType == "all" || Window(filterType, c).None? ==> r == leads
    ensures filterType != "all" && Window(filterType, c).Some? ==> r == FilterSpec(leads, Window(filterType, c).value)
  {
    if filterType == "all" {
      return leads;
    }
    var start := 0;
    if filterType == "today" {
      start := c.today;
    } else if filterType == "mtd" {
      start := c.today - (c.dayOfMonth - 1);
    } else if filterType == "week" {
      start := c.today - c.weekday;
    } else if filterType == "month" {
      start := c.today - 30;
    } else if filterType == "quarter" {
      start := c.today - 90;
    } else if filterType == "year" {
      start := c.today - 365;
    } else {
      return leads;
    }
    var end := c.today;
    assert Window(filterType, c) == Some((start, end));
    r := [];
    var i := 0;
    while i < |leads|
      invariant 0 <= i <= |leads| && r == FilterSpec(leads[..i], (start, end))
    {
      var lead := leads[i];
      match lead.date {
        case Missing => r := r + [lead];
        case Unparsable => r := r + [lead];
        case Parsed(d) =>
          if start <= d <= end {
            r := r + [lead];
          }
      }
      assert leads[..i + 1][..i] == leads[..i];
      i := i + 1;
    }
    assert leads[..|leads|] == leads;
  }

  /** The filter keeps exactly the leads in the window (or undated), and it
      keeps them in input order: filtering a concatenation filters each part. */
  lemma {:induction false} FilterSpecMembers(leads: seq<DatedLead>, w: (int, int))
    ensures forall l :: l in FilterSpec(leads, w) <==> l in leads && KeepsLead(w, l)
    decreases |leads|
  {
    if leads != [] {
      var init := leads[..|leads| - 1];
      FilterSpecMembers(init, w);
      assert leads == init + [leads[|leads| - 1]];
    }
  }

  lemma {:induction false} FilterSpecAppend(a: seq<DatedLead>, b: seq<DatedLead>, w: (int, int))
    ensures FilterSpec(a + b, w) == FilterSpec(a, w) + FilterSpec(b, w)
    decreases |b|
  {
    if b == [] {
      assert a + b == a;
    } else {
      var bi := b[..|b| - 1];
      FilterSpecAppend(a, bi, w);
      assert (a + b)[..|a + b| - 1] == a + bi;
    }
  }

  // ---------------------------------------------------------------------------
  // allowed_file
  // ---------------------------------------------------------------------------

  const AllowedExtensions: set<string> := {"csv", "xlsx", "xls"}

  /** The position of the last '.' at or before index i - 1. */
  function LastDotBefore(s: string, i: nat): (k: Option<nat>)
    requires i <= |s|
    ensures k.Some? ==> k.value < i && s[k.value] == '.' && forall j :: k.value < j < i ==> s[j] != '.'
    ensures k.None? ==> forall j :: 0 <= j < i ==> s[j] != '.'
  {
    if i == 0 then None else if s[i - 1] == '.' then Some(i - 1) else LastDotBefore(s, i - 1)
  }

  /** allowed_file: the name has a dot, and what follows the last dot is, in
      lower case, csv, xlsx or xls. */
  function AllowedFile(filename: string): (ok: bool)
    ensures ok ==> '.' in filename
  {
    match LastDotBefore(filename, |filename|)
    case None => false
    case Some(k) => Lower(filename[k + 1..]) in AllowedExtensions
  }

  /** Position k holds a dot with no dot after it, and the text after it is, in lower case,
      an allowed extension. */
  predicate AcceptedDot(s: string, k: int) {
    0 <= k < |s| && s[k] == '.' && (forall j :: k < j < |s| ==> s[j] != '.') &&
    Lower(s[k + 1..]) in AllowedExtensions
  }

  /** A file is accepted exactly when some dot has no dot after it and the text
      after that dot is, in lower case, an allowed extension. */
  lemma AllowedFileIff(filename: string)
    ensures AllowedFile(filename) <==> exists k :: AcceptedDot(filename, k)
  {
    var ok := e => Lower(e) in AllowedExtensions;
    LastDotTest(filename, ok);
    assert AllowedFile(filename) == match LastDotBefore(filename, |filename|)
      case None => false case Some(k) => ok(filename[k + 1..]);
    assert forall k :: AcceptedDot(filename, k) <==>
      0 <= k < |filename| && filename[k] == '.' && (forall j :: k < j < |filename| ==> filename[j] != '.') &&
      ok(filename[k + 1..]);
  }

  /** A test on the text after the last dot holds exactly when it holds after some dot with no
      dot after it. */
  lemma LastDotTest(s: string, ok: string -> bool)
    ensures (match LastDotBefore(s, |s|) case None => false case Some(k) => ok(s[k + 1..])) <==>
      exists k :: 0 <= k < |s| && s[k] == '.' && (forall j :: k < j < |s| ==> s[j] != '.') && ok(s[k + 1..])
  {
    if exists k :: 0 <= k < |s| && s[k] == '.' && (forall j :: k < j < |s| ==> s[j] != '.') && ok(s[k + 1..]) {
      var k :| 0 <= k < |s| && s[k] == '.' && (forall j :: k < j < |s| ==> s[j] != '.') && ok(s[k + 1..]);
      DotIsLast(s, k);
    }
  }

  /** A dot with no dot after it is the one the scan from the end finds. */
  lemma DotIsLast(s: string, k: nat)
    requires k < |s| && s[k] == '.' && forall j :: k < j < |s| ==> s[j] != '.'
    ensures LastDotBefore(s, |s|) == Some(k)
  {
    var d := LastDotBefore(s, |s|);
    assert d.Some?;
  }

  // ---------------------------------------------------------------------------
  // update_lead: lead_status to final_status
  // ---------------------------------------------------------------------------

  const LockStatuses: seq<string> := ["Booked", "Retailed"]
  const LostStatuses: seq<string> := ["Not Interested", "Lost to Codealer", "Lost to Competition"]

  /** The lead_status choices the update form offers. */
  const OfferedStatuses: seq<string> := [
    "Busy on another Call", "RNR", "Call me Back", "Interested", "Not Interested",
    "Did Not Inquire", "Lost to Competition", "Lost to Co Dealer", "Call Disconnected", "Wrong Number"]

  /** The status, follow-up and final-status keys of update_data, given the
      form's lead_status, follow_up_date and final_status (empty when absent),
      the stored follow_up_date and the current timestamp, for a given list of
      statuses that close a lead as lost. A key absent from the map is not
      written; a key mapped to None is written as NULL. */
  function StatusUpdateWith(lost: seq<string>, leadStatus: string, followUp: string, finalStatus: string,
      storedFollowUp: Option<string>, now: string): map<string, Option<string>>
  {
    var keptFollowUp := if followUp != "" then Some(followUp) else storedFollowUp;
    var base :=
      if leadStatus in LockStatuses then
        map["lead_status" := Some(leadStatus), "follow_up_date" := keptFollowUp, "final_status" := Some("Won")]
      else if leadStatus in lost then
        map["lead_status" := Some(leadStatus), "follow_up_date" := keptFollowUp, "final_status" := Some("Lost")]
      else if leadStatus != "" then map["lead_status" := Some(leadStatus)]
      else map[];
    var withFollowUp := if followUp != "" then base["follow_up_date" := Some(followUp)] else base;
    if finalStatus == "" then withFollowUp
    else
      var withFinal := withFollowUp["final_status" := Some(finalStatus)];
      if finalStatus == "Won" then withFinal["won_timestamp" := Some(now)]
      else if finalStatus == "Lost" then withFinal["lost_timestamp" := Some(now)]
      else withFinal
  }

  /** The mapping as written. */
  function StatusUpdate(leadStatus: string, followUp: string, finalStatus: string,
      storedFollowUp: Option<string>, now: string): map<string, Option<string>>
  {
    StatusUpdateWith(LostStatuses, leadStatus, followUp, finalStatus, storedFollowUp, now)
  }

  /** What the update writes: lead_status whenever one is chosen; final_status
      'Won' for Booked/Retailed and 'Lost' for the lost statuses unless the form
      names a final status, which then wins and stamps won/lost time; the
      follow-up date from the form, else the stored one for a closing status. */
  lemma StatusUpdateFacts(leadStatus: string, followUp: string, finalStatus: string, stored: Option<string>, now: string)
    ensures var u := StatusUpdate(leadStatus, followUp, finalStatus, stored, now);
      ("lead_status" in u <==> leadStatus != "") &&
      (leadStatus != "" ==> u["lead_status"] == Some(leadStatus)) &&
      ("final_status" in u <==> finalStatus != "" || leadStatus in LockStatuses || leadStatus in LostStatuses) &&
      (finalStatus != "" ==> u["final_status"] == Some(finalStatus)) &&
      (finalStatus == "" && leadStatus in LockStatuses ==> u["final_status"] == Some("Won")) &&
      (finalStatus == "" && leadStatus in LostStatuses ==> u["final_status"] == Some("Lost")) &&
      ("won_timestamp" in u <==> finalStatus == "Won") &&
      ("lost_timestamp" in u <==> finalStatus == "Lost") &&
      (followUp != "" ==> u["follow_up_date"] == Some(followUp)) &&
      (followUp == "" && (leadStatus in LockStatuses || leadStatus in LostStatuses) ==> u["follow_up_date"] == stored) &&
      (followUp == "" && leadStatus !in LockStatuses && leadStatus !in LostStatuses ==> "follow_up_date" !in u)
  {
    assert "Booked" != "" && "Retailed" != "";
    assert forall s :: s in LostStatuses ==> s != "";
  }

  /** The offered 'Lost to Co Dealer' is not the 'Lost to Codealer' the
      mapping tests for, so choosing it leaves final_status untouched. */
  lemma CoDealerNotClosed(stored: Option<string>, now: string)
    ensures "Lost to Co Dealer" in OfferedStatuses
    ensures "final_status" !in StatusUpdate("Lost to Co Dealer", "", "", stored, now)
  {
    assert OfferedStatuses[7] == "Lost to Co Dealer";
    assert "Lost to Co Dealer" !in LostStatuses by {
      assert LostStatuses[1] != "Lost to Co Dealer";
    }
  }

  const LostStatusesFixed: seq<string> := LostStatuses + ["Lost to Co Dealer"]

  /** The mapping with the offered spelling added to the lost statuses. */
  function StatusUpdateFixed(leadStatus: string, followUp: string, finalStatus: string,
      storedFollowUp: Option<string>, now: string): map<string, Option<string>>
  {
    StatusUpdateWith(LostStatusesFixed, leadStatus, followUp, finalStatus, storedFollowUp, now)
  }

  /** With the corrected list every offered "Not Interested" / "Lost to …"
      status closes the lead as Lost when no final status is chosen. */
  lemma FixedClosesOfferedLostStatuses(leadStatus: string, followUp: string, stored: Option<string>, now: string)
    requires leadStatus in OfferedStatuses
    requires leadStatus == "Not Interested" || (|leadStatus| >= 8 && leadStatus[..8] == "Lost to ")
    ensures var u := StatusUpdateFixed(leadStatus, followUp, "", stored, now);
      "final_status" in u && u["final_status"] == Some("Lost")
  {
    assert leadStatus !in LockStatuses;
    assert leadStatus in LostStatusesFixed by {
      if leadStatus != "Not Interested" {
        assert leadStatus == OfferedStatuses[6] || leadStatus == OfferedStatuses[7] by {
          forall i | 0 <= i < |OfferedStatuses| && i != 6 && i != 7
            ensures OfferedStatuses[i] != leadStatus
          {
            var o := OfferedStatuses[i];
            assert |o| < 8 || o[..8] != "Lost to " by {
              if |o| >= 8 {
                assert o[..8][0] == o[0];
              }
            }
          }
        }
        assert LostStatusesFixed[2] == OfferedStatuses[6];
        assert LostStatusesFixed[3] == OfferedStatuses[7];
      } else {
        assert LostStatusesFixed[0] == leadStatus;
      }
    }
  }

  // ---------------------------------------------------------------------------
  // add_lead: slot search on an existing duplicate record
  // ---------------------------------------------------------------------------

  /** The first slot number from i + 1 on whose source is falsy (None or ""). */
  function AppFreeSlotFrom(r: DupRecord, i: nat): (k: Option<nat>)
    requires i <= SlotCount
    ensures k.Some? ==> i < k.value <= SlotCount && !Truthy(SlotAt(r, k.value - 1).source)
    ensures k.Some? ==> forall j :: i <= j < k.value - 1 ==> Truthy(SlotAt(r, j).source)
    ensures k.None? ==> forall j :: i <= j < SlotCount ==> Truthy(SlotAt(r, j).source)
    decreases SlotCount - i, r
  {
    if i == SlotCount then None
    else if !Truthy(SlotAt(r, i).source) then Some(i + 1)
    else AppFreeSlotFrom(r, i + 1)
  }

  /** The add-lead form's search: the first slot whose source is falsy. */
  function AppFreeSlot(r: DupRecord): Option<nat> {
    AppFreeSlotFrom(r, 0)
  }

  /** The add-lead search never lands after the sync's: an empty-string source
      counts as free here but as taken there, and without such a slot the two
      agree. */
  lemma AppSlotVersusSync(r: DupRecord)
    ensures FindNextSlot(r).Some? ==> AppFreeSlot(r).Some? && AppFreeSlot(r).value <= FindNextSlot(r).value
    ensures (forall j :: 0 <= j < SlotCount ==> SlotAt(r, j).source != Some("")) ==> AppFreeSlot(r) == FindNextSlot(r)
  {
  }

  /** The duplicate_leads update the add-lead form writes: the new source in the
      free slot and the count + 1, or None when all ten slots are taken. */
  function AddLeadDuplicateUpdate(r: DupRecord, source: string, subSource: string, date: int): (u: Option<DupRecord>)
    ensures u.None? <==> AppFreeSlot(r).None?
    ensures u.Some? ==> u.value.count == r.count + 1 && u.value.id == r.id
    ensures u.Some? && AppFreeSlot(r).value - 1 < |r.slots| ==>
      u.value.slots == r.slots[AppFreeSlot(r).value - 1 := Slot(Some(source), Some(subSource), Some(date))]
  {
    match AppFreeSlot(r)
    case None => None
    case Some(k) => Some(WithSlot(r, k - 1, Slot(Some(source), Some(subSource), Some(date))).(count := r.count + 1))
  }

  // ---------------------------------------------------------------------------
  // manage_leads: pagination
  // ---------------------------------------------------------------------------

  const PerPage := 50

  /** (total + per_page - 1) // per_page */
  function TotalPages(total: nat): (p: nat)
    ensures p * PerPage >= total && (p > 0 ==> (p - 1) * PerPage < total)
  {
    (total + PerPage - 1) / PerPage
  }

  /** leads[(page - 1) * per_page : (page - 1) * per_page + per_page] */
  function PageOf<T>(leads: seq<T>, page: int): seq<T> {
    PySlice(leads, (page - 1) * PerPage, (page - 1) * PerPage + PerPage)
  }

  function Min(a: int, b: int): int { if a <= b then a else b }

  /** A page numbered from 1 is the block of up to fifty leads that starts at
      (page - 1) * 50; page 0 is empty. */
  lemma PageBlock<T>(leads: seq<T>, page: int)
    requires page >= 0
    ensures page >= 1 ==>
      PageOf(leads, page) == leads[Min((page - 1) * PerPage, |leads|)..Min(page * PerPage, |leads|)]
    ensures page == 0 ==> PageOf(leads, page) == []
  {
  }

  /** Pages 1..k laid end to end. */
  function PagesUpTo<T>(leads: seq<T>, k: nat): seq<T> {
    if k == 0 then [] else PagesUpTo(leads, k - 1) + PageOf(leads, k)
  }

  lemma {:induction false} PagesUpToPrefix<T>(leads: seq<T>, k: nat)
    ensures PagesUpTo(leads, k) == leads[..Min(k * PerPage, |leads|)]
    decreases k
  {
    if k > 0 {
      PagesUpToPrefix(leads, k - 1);
      PageBlock(leads, k);
      var a := Min((k - 1) * PerPage, |leads|);
      var b := Min(k * PerPage, |leads|);
      assert leads[..a] + leads[a..b] == leads[..b];
    }
  }

  /** Pages 1..total_pages together are the whole list, in order. */
  lemma PagesCoverList<T>(leads: seq<T>)
    ensures PagesUpTo(leads, TotalPages(|leads|)) == leads
  {
    PagesUpToPrefix(leads, TotalPages(|leads|));
    assert leads[..|leads|] == leads;
  }

  /** A negative page number selects leads counted from the end of the list: page p < 0 is the
      block of fifty that starts |leads| + (p - 1) * 50 from the front, not a block of the
      pages 1, 2, ... that total_pages describes. */
  lemma NegativePageFromEnd<T>(leads: seq<T>, page: int)
    requires page < 0 && |leads| + (page - 1) * PerPage >= 0
    ensures PageOf(leads, page) == leads[|leads| + (page - 1) * PerPage..|leads| + page * PerPage]
    ensures |PageOf(leads, page)| == PerPage
  {
  }

  /** The page number clamped to at least 1 before slicing. */
  function PageOfClamped<T>(leads: seq<T>, page: int): seq<T> {
    PageOf(leads, if page < 1 then 1 else page)
  }

  /** With the clamp every page number gives a block counted from the front. */
  lemma ClampedPageFromFront<T>(leads: seq<T>, page: int)
    ensures exists k: nat :: PageOfClamped(leads, page) == leads[Min(k * PerPage, |leads|)..Min(k * PerPage + PerPage, |leads|)]
  {
    var p := if page < 1 then 1 else page;
    PageBlock(leads, p);
    var k: nat := p - 1;
    assert PageOfClamped(leads, page) == leads[Min(k * PerPage, |leads|)..Min(k * PerPage + PerPage, |leads|)];
  }

  // ---------------------------------------------------------------------------
  // cre_dashboard: buckets
  // ---------------------------------------------------------------------------

  datatype DashLead = DashLead(
    uid: string, leadStatus: Option<string>, finalStatus: Option<string>,
    firstCallDate: Option<string>, wonTimestamp: Option<string>, lostTimestamp: Option<string>,
    psName: Option<string>, psAssignedAt: Option<string>)

  datatype Bucket = Untouched | Called | FollowUp | Attended | AssignedToPs | Won | Lost

  const NonContactStatuses: seq<string> := ["RNR", "Busy on another Call", "Call me Back", "Call Disconnected", "Call not Connected"]

  function OrEmpty(o: Option<string>): string {
    if o.Some? then o.value else ""
  }

  /** The month part of a timestamp string falls in the current month. */
  predicate InMonth(t: Option<string>, month: string) {
    Truthy(t) && Prefix(t.value, 7) == month
  }

  /** The lead's status as the dashboard reads it: (lead_status or '').strip(). */
  function DashStatus(l: DashLead): string {
    Strip(OrEmpty(l.leadStatus))
  }

  /** Neither won nor lost. */
  predicate IsOpen(l: DashLead) {
    l.finalStatus != Some("Won") && l.finalStatus != Some("Lost")
  }

  /** Whether a lead belongs to a bucket: won or lost in the current month;
      otherwise assigned to a PS this month, attended (pending with a first
      call), untouched (no first call, status Pending), or a non-contact status
      before the first call, "Call me Back" going to follow-up and the rest to
      called. */
  predicate InBucket(l: DashLead, month: string, b: Bucket) {
    var noFirstCall := l.firstCallDate.None?;
    match b
    case Won => l.finalStatus == Some("Won") && InMonth(l.wonTimestamp, month)
    case Lost => l.finalStatus == Some("Lost") && InMonth(l.lostTimestamp, month)
    case AssignedToPs => IsOpen(l) && Truthy(l.psName) && InMonth(l.psAssignedAt, month)
    case Attended => IsOpen(l) && l.finalStatus == Some("Pending") && !noFirstCall
    case Untouched => IsOpen(l) && noFirstCall && DashStatus(l) == "Pending"
    case FollowUp => IsOpen(l) && noFirstCall && DashStatus(l) != "Pending" && DashStatus(l) == "Call me Back"
    case Called =>
      IsOpen(l) && noFirstCall && DashStatus(l) != "Pending" && DashStatus(l) in NonContactStatuses && DashStatus(l) != "Call me Back"
  }

  /** The leads of one bucket, in input order. */
  function Select(leads: seq<DashLead>, month: string, b: Bucket): (r: seq<DashLead>)
    ensures |r| <= |leads|
    decreases |leads|
  {
    if leads == [] then []
    else Select(leads[..|leads| - 1], month, b) + (if InBucket(leads[|leads| - 1], month, b) then [leads[|leads| - 1]] else [])
  }

  /** Apart from the PS bucket, a lead is in at most one bucket, and a won or
      lost lead is in no other bucket. */
  lemma BucketsExclusive(l: DashLead, month: string, b1: Bucket, b2: Bucket)
    requires InBucket(l, month, b1) && InBucket(l, month, b2) && b1 != b2
    ensures b1 == AssignedToPs || b2 == AssignedToPs
    ensures b1 != Won && b1 != Lost && b2 != Won && b2 != Lost
  {
  }

  /** The seven buckets of the CRE dashboard. */
  datatype Dashboard = Dashboard(
    untouched: seq<DashLead>, called: seq<DashLead>, followUp: seq<DashLead>, attended: seq<DashLead>,
    assignedToPs: seq<DashLead>, won: seq<DashLead>, lost: seq<DashLead>)

  function DashboardOf(leads: seq<DashLead>, month: string): Dashboard {
    Dashboard(Select(leads, month, Untouched), Select(leads, month, Called), Select(leads, month, FollowUp),
      Select(leads, month, Attended), Select(leads, month, AssignedToPs), Select(leads, month, Won),
      Select(leads, month, Lost))
  }

  lemma SelectSnoc(leads: seq<DashLead>, i: nat, month: string)
    requires i < |leads|
    ensures forall b ::
      Select(leads[..i + 1], month, b) == Select(leads[..i], month, b) + (if InBucket(leads[i], month, b) then [leads[i]] else [])
  {
    assert leads[..i + 1][..i] == leads[..i];
  }

  /** The bucketing loop of cre_dashboard. */
  method BucketLeads(leads: seq<DashLead>, month: string) returns (d: Dashboard)
    ensures d == DashboardOf(leads, month)
  {
    var untouched, called, followUp, attended, ps, won, lost := [], [], [], [], [], [], [];
    var i := 0;
    while i < |leads|
      invariant 0 <= i <= |leads|
      invariant untouched == Select(leads[..i], month, Untouched)
      invariant called == Select(leads[..i], month, Called)
      invariant followUp == Select(leads[..i], month, FollowUp)
      invariant attended == Select(leads[..i], month, Attended)
      invariant ps == Select(leads[..i], month, AssignedToPs)
      invariant won == Select(leads[..i], month, Won)
      invariant lost == Select(leads[..i], month, Lost)
    {
      var lead := leads[i];
      SelectSnoc(leads, i, month);
      var status := Strip(OrEmpty(lead.leadStatus));
      var hasFirstCall := lead.firstCallDate.Some?;
      if lead.finalStatus == Some("Won") {
        if Truthy(lead.wonTimestamp) && Prefix(lead.wonTimestamp.value, 7) == month {
          won := won + [lead];
        }
      } else if lead.finalStatus == Some("Lost") {
        if Truthy(lead.lostTimestamp) && Prefix(lead.lostTimestamp.value, 7) == month {
          lost := lost + [lead];
        }
      } else {
        if Truthy(lead.psName) && Truthy(lead.psAssignedAt) && Prefix(lead.psAssignedAt.value, 7) == month {
          ps := ps + [lead];
        }
        if lead.finalStatus == Some("Pending") && hasFirstCall {
          attended := attended + [lead];
        }
        if !hasFirstCall && status == "Pending" {
          untouched := untouched + [lead];
        } else if status in NonContactStatuses && !hasFirstCall {
          if status == "Call me Back" {
            followUp := followUp + [lead];
          } else {
            called := called + [lead];
          }
        }
      }
      i := i + 1;
    }
    assert leads[..|leads|] == leads;
    d := Dashboard(untouched, called, followUp, attended, ps, won, lost);
  }
}
