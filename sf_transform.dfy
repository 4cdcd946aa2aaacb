/** Record transformers of the Salesforce to Supabase sync script
    (syncsalesforcetosupabase.py): phone normalisation, source mapping,
    UID formatting, call-date spreading and the follow-up remark parser.
    Dates are day numbers; the ISO parsing and formatting around them is not modelled. */
module SfTransform {
  import opened PyStr

  // ---------------------------------------------------------------------------
  // normalize_phone
  // ---------------------------------------------------------------------------

  /** Keep the digits; drop a "91" country prefix from 12 digits or a trunk "0"
      from 11 digits; then keep at most the last ten digits. */
  function NormalizePhone(phone: string): (r: string)
    ensures AllDigits(r) && |r| <= 10
    ensures phone == "" ==> r == ""
    ensures var t := DropPrefix(Digits(phone)); |r| == (if |t| >= 10 then 10 else |t|)
  {
    if phone == "" then ""
    else
      var trimmed := DropPrefix(Digits(phone));
      if |trimmed| >= 10 then trimmed[|trimmed| - 10..] else trimmed
  }

  /** "91" is dropped from a 12-digit string, "0" from an 11-digit one. */
  function DropPrefix(digits: string): (r: string)
    requires AllDigits(digits)
    ensures AllDigits(r) && |r| <= |digits| && r == digits[|digits| - |r|..]
    ensures |digits| <= 10 ==> r == digits
    ensures |r| == |digits| - (if |digits| == 12 && digits[..2] == "91" then 2
                               else if |digits| == 11 && digits[0] == '0' then 1
                               else 0)
  {
    if |digits| == 12 && digits[0] == '9' && digits[1] == '1' then digits[2..]
    else if |digits| == 11 && digits[0] == '0' then digits[1..]
    else digits
  }

  lemma DigitsOfDigits(s: string)
    requires AllDigits(s)
    ensures Digits(s) == s
  {
    if s != [] {
      DigitsOfDigits(s[1..]);
    }
  }

  /** A string of at most ten digits is already normalised. */
  lemma NormalizeShortDigits(r: string)
    requires AllDigits(r) && |r| <= 10
    ensures NormalizePhone(r) == r
  {
    if r != "" {
      DigitsOfDigits(r);
      assert DropPrefix(Digits(r)) == r;
      if |r| >= 10 {
        assert r[|r| - 10..] == r;
      }
    }
  }

  /** The result is the tail of the input's digit string. */
  lemma NormalizePhoneSuffix(phone: string)
    ensures var r := NormalizePhone(phone); var d := Digits(phone); r == d[|d| - |r|..]
  {
    var r := NormalizePhone(phone);
    var d := Digits(phone);
    if phone != "" {
      var t := DropPrefix(d);
      assert r == t[|t| - |r|..];
    }
  }

  /** Normalising twice gives what normalising once gives. */
  lemma NormalizePhoneIdempotent(phone: string)
    ensures NormalizePhone(NormalizePhone(phone)) == NormalizePhone(phone)
  {
    NormalizeShortDigits(NormalizePhone(phone));
  }

  /** A twelve-digit number with the 91 prefix and the same number written with a
      trunk zero both normalise to the ten-digit subscriber number. */
  lemma NormalizePhonePrefixes(ten: string)
    requires |ten| == 10 && AllDigits(ten)
    ensures NormalizePhone("91" + ten) == ten
    ensures NormalizePhone("0" + ten) == ten
    ensures NormalizePhone("+91 " + ten) == ten
  {
    NormalizeCountryCode(ten);
    NormalizeTrunkZero(ten);
    DigitsOfWrittenPrefix(ten);
  }

  lemma NormalizeCountryCode(ten: string)
    requires |ten| == 10 && AllDigits(ten)
    ensures NormalizePhone("91" + ten) == ten
  {
    DigitsOfDigits("91" + ten);
    assert ("91" + ten)[2..] == ten;
  }

  lemma NormalizeTrunkZero(ten: string)
    requires |ten| == 10 && AllDigits(ten)
    ensures NormalizePhone("0" + ten) == ten
  {
    DigitsOfDigits("0" + ten);
    assert ("0" + ten)[1..] == ten;
  }

  /** "+91 " in front of the number leaves the digits "91" in front of it. */
  lemma DigitsOfWrittenPrefix(ten: string)
    requires |ten| == 10 && AllDigits(ten)
    ensures Digits("+91 " + ten) == Digits("91" + ten)
  {
    DigitsAppend("+91 ", ten);
    DigitsAppend("91", ten);
    assert Digits("+91 ") == "91" == Digits("91");
  }

  // ---------------------------------------------------------------------------
  // map_source_and_subsource
  // ---------------------------------------------------------------------------

  datatype SourcePair = SourcePair(source: Option<string>, subSource: Option<string>)

  const AffiliateNames: map<string, string> := map[
    "Bikewale" := "Affiliate Bikewale", "Bikewale-Q" := "Affiliate Bikewale",
    "Bikedekho" := "Affiliate Bikedekho", "Bikedekho-Q" := "Affiliate Bikedekho",
    "91 Wheels" := "Affiliate 91wheels", "91 Wheels-Q" := "Affiliate 91wheels"]

  const WebNames: set<string> := {"Website", "Website_PO", "Website_Optin", "ai_chatbot",
                                  "website_chatbot", "Newspaper Ad - WhatsApp"}

  const TeleNames: set<string> := {"Telephonic", "cb", "ivr_abandoned", "ivr_callback", "ivr_sales"}

  /** The sub-sources the mapping can produce. */
  const MappedSubSources: set<string> :=
    {"Affiliate Bikewale", "Affiliate Bikedekho", "Affiliate 91wheels", "Web", "Tele"}

  function MapSourceAndSubsource(raw: string): (r: SourcePair)
    ensures r.source.Some? <==> r.subSource.Some?
    ensures r.source.Some? ==> r.source.value == "OEM" && r.subSource.value in MappedSubSources
    ensures raw in AffiliateNames ==> r == SourcePair(Some("OEM"), Some(AffiliateNames[raw]))
    ensures raw !in AffiliateNames && raw in WebNames ==> r == SourcePair(Some("OEM"), Some("Web"))
    ensures raw !in AffiliateNames && raw !in WebNames && raw in TeleNames ==> r == SourcePair(Some("OEM"), Some("Tele"))
    ensures raw !in AffiliateNames && raw !in WebNames && raw !in TeleNames ==> r == SourcePair(None, None)
  {
    if raw in AffiliateNames then SourcePair(Some("OEM"), Some(AffiliateNames[raw]))
    else if raw in WebNames then SourcePair(Some("OEM"), Some("Web"))
    else if raw in TeleNames then SourcePair(Some("OEM"), Some("Tele"))
    else SourcePair(None, None)
  }

  // ---------------------------------------------------------------------------
  // generate_uid
  // ---------------------------------------------------------------------------

  const UidSourceChars: map<string, char> := map[
    "Web" := 'W', "Tele" := 'T',
    "Affiliate Bikewale" := 'B', "Affiliate Bikedekho" := 'D', "Affiliate 91wheels" := 'N']

  function UidSourceChar(subSource: string): (c: char)
  {
    if subSource in UidSourceChars then UidSourceChars[subSource] else 'S'
  }

  /** Every sub-source the source mapping produces has its own letter in the UID,
      so the fallback letter 'S' never appears for a synced lead. */
  lemma MappedSourcesHaveUidLetter(raw: string)
    requires MapSourceAndSubsource(raw).subSource.Some?
    ensures UidSourceChar(MapSourceAndSubsource(raw).subSource.value) != 'S'
  {
  }

  /** UID = source letter, sequence letter, '-', last four characters of the
      mobile number without spaces and hyphens, '-', (sequence mod 9999) + 1 in
      four digits. */
  function GenerateUid(subSource: string, mobile: string, sequence: int): (r: string)
    ensures var tail := Suffix(RemoveChar(RemoveChar(mobile, ' '), '-'), 4);
      |r| == 2 + 1 + |tail| + 1 + 4 &&
      r[0] == UidSourceChar(subSource) &&
      'A' <= r[1] <= 'Z' && r[1] as int - 'A' as int == sequence % 26 &&
      r[2] == '-' && r[3..3 + |tail|] == tail && r[3 + |tail|] == '-' &&
      AllDigits(r[|r| - 4..]) && DecimalValue(r[|r| - 4..]) == sequence % 9999 + 1
  {
    var tail := Suffix(RemoveChar(RemoveChar(mobile, ' '), '-'), 4);
    var n := sequence % 9999 + 1;
    Format04RoundTrip(n);
    JoinUid([UidSourceChar(subSource)], (65 + sequence % 26) as char, tail, Format04(n))
  }

  // ---------------------------------------------------------------------------
  // map_call_dates_from_salesforce
  // ---------------------------------------------------------------------------

  function Max(a: int, b: int): int { if a >= b then a else b }

  /** The seven call dates as the sync computes them, first to seventh. */
  function CallDates(created: int, lastFollowUp: Option<int>): (r: seq<Option<int>>)
    ensures |r| == 7 && r[0] == Some(created)
  {
    if lastFollowUp.None? then [Some(created), None, None, None, None, None, None]
    else
      var last := lastFollowUp.value;
      var diff := last - created;
      if diff <= 0 then [Some(created), None, None, None, None, None, None]
      else if diff <= 3 then [Some(created), Some(last), None, None, None, None, None]
      else if diff <= 7 then [Some(created), Some(created + diff / 2), Some(last), None, None, None, None]
      else
        var interval := Max(1, diff / 4);
        [Some(created)] + SpreadDates(created, last, interval, 1) + [Some(last)]
  }

  /** Second to sixth call dates, at steps of the interval, kept only where they
      do not pass the last follow-up date. */
  function SpreadDates(created: int, last: int, interval: int, k: nat): (r: seq<Option<int>>)
    requires k <= 6
    ensures |r| == 6 - k
    ensures forall j :: 0 <= j < |r| ==> r[j] == SpreadSlot(created, last, interval, k + j)
    decreases 6 - k, interval
  {
    if k == 6 then []
    else [SpreadSlot(created, last, interval, k)] + SpreadDates(created, last, interval, k + 1)
  }

  /** The k-th spread call date, or nothing once it would pass the last follow-up. */
  function SpreadSlot(created: int, last: int, interval: int, k: int): (r: Option<int>)
    ensures r.Some? <==> created + interval * k <= last
    ensures r.Some? ==> r.value == created + interval * k
  {
    var d := created + interval * k;
    if d <= last then Some(d) else None
  }

  /** map_call_dates_from_salesforce, filling the seven slots step by step. */
  method MapCallDates(created: int, lastFollowUp: Option<int>) returns (dates: seq<Option<int>>)
    ensures dates == CallDates(created, lastFollowUp)
  {
    dates := [Some(created), None, None, None, None, None, None];
    if lastFollowUp.Some? {
      var last := lastFollowUp.value;
      var diff := last - created;
      if diff > 0 {
        if diff <= 3 {
          dates := dates[1 := Some(last)];
        } else if diff <= 7 {
          dates := dates[1 := Some(created + diff / 2)][2 := Some(last)];
        } else {
          dates := SpreadCallDates(created, last);
        }
      }
    }
  }

  /** The branch for a gap of more than seven days: second to sixth at steps of
      max(1, gap / 4) while they do not pass the last follow-up, seventh = last. */
  method SpreadCallDates(created: int, last: int) returns (dates: seq<Option<int>>)
    requires last - created > 7
    ensures dates == CallDates(created, Some(last))
  {
    var interval := Max(1, (last - created) / 4);
    ghost var spread := SpreadDates(created, last, interval, 1);
    dates := [Some(created), None, None, None, None, None, None];
    var i := 1;
    while i <= 5
      invariant 1 <= i <= 6 && |dates| == 7
      invariant dates[0] == Some(created)
      invariant forall j :: 1 <= j < i ==> dates[j] == spread[j - 1]
      invariant forall j :: i <= j < 7 ==> dates[j] == None
    {
      var callDate := created + interval * i;
      if callDate <= last {
        dates := dates[i := Some(callDate)];
      }
      assert dates[i] == SpreadSlot(created, last, interval, i) == spread[i - 1];
      i := i + 1;
    }
    dates := dates[6 := Some(last)];
    assert dates == [Some(created)] + spread + [Some(last)];
  }

  lemma MulMonotone(a: int, i: int, j: int)
    requires a >= 1 && i < j
    ensures a * i < a * j
  {
    assert a * j - a * i == a * (j - i);
  }

  /** Every call date that is set lies between the creation date and the last
      follow-up date, the dates never decrease from one slot to the next, and the
      first call comes strictly before every later one. */
  lemma CallDatesChronological(created: int, lastFollowUp: Option<int>, i: nat, j: nat)
    requires i < j < 7
    requires CallDates(created, lastFollowUp)[i].Some? && CallDates(created, lastFollowUp)[j].Some?
    ensures var r := CallDates(created, lastFollowUp);
      lastFollowUp.Some? && created <= r[i].value <= r[j].value <= lastFollowUp.value &&
      (i == 0 ==> r[i].value < r[j].value)
  {
    var last := lastFollowUp.value;
    var diff := last - created;
    if 7 < diff {
      SpreadChronological(created, last, i, j);
    } else if 3 < diff {
      assert 0 < diff / 2 < diff;
    }
  }

  /** For a gap of more than seven days the dates are creation, the spread dates, and the last
      follow-up. */
  lemma CallDatesSpread(created: int, last: int)
    requires 7 < last - created
    ensures var interval := Max(1, (last - created) / 4);
      var r := CallDates(created, Some(last));
      interval >= 1 && r[0] == Some(created) && r[6] == Some(last) &&
      forall k :: 1 <= k < 6 ==> r[k] == SpreadSlot(created, last, interval, k)
  {
    var interval := Max(1, (last - created) / 4);
    var spread := SpreadDates(created, last, interval, 1);
    var r := [Some(created)] + spread + [Some(last)];
    assert forall k :: 1 <= k < 6 ==> r[k] == spread[k - 1];
  }

  lemma SpreadChronological(created: int, last: int, i: nat, j: nat)
    requires 7 < last - created
    requires i < j < 7
    requires CallDates(created, Some(last))[i].Some? && CallDates(created, Some(last))[j].Some?
    ensures var r := CallDates(created, Some(last));
      created <= r[i].value <= r[j].value <= last && (i == 0 ==> r[i].value < r[j].value)
  {
    var interval := Max(1, (last - created) / 4);
    CallDatesSpread(created, last);
    if j < 6 {
      SpreadSlotBounds(created, last, interval, j);
      if 0 < i {
        SpreadSlotBounds(created, last, interval, i);
        SpreadSlotMonotone(created, last, interval, i, j);
      }
    } else if 0 < i {
      SpreadSlotBounds(created, last, interval, i);
    }
  }

  /** A spread date that is set lies after the creation date and not after the last one. */
  lemma SpreadSlotBounds(created: int, last: int, interval: int, k: int)
    requires interval >= 1 && k >= 1 && SpreadSlot(created, last, interval, k).Some?
    ensures created < SpreadSlot(created, last, interval, k).value <= last
  {
    MulMonotone(interval, 0, k);
  }

  /** Later spread dates are later. */
  lemma SpreadSlotMonotone(created: int, last: int, interval: int, i: int, j: int)
    requires interval >= 1 && i < j
    requires SpreadSlot(created, last, interval, i).Some? && SpreadSlot(created, last, interval, j).Some?
    ensures SpreadSlot(created, last, interval, i).value < SpreadSlot(created, last, interval, j).value
  {
    MulMonotone(interval, i, j);
  }

  /** The three cases the sync distinguishes by the gap between creation and
      the last follow-up. */
  lemma CallDatesCases(created: int, last: int)
    ensures var r := CallDates(created, Some(last)); var diff := last - created;
      (diff <= 0 ==> forall k :: 1 <= k < 7 ==> r[k].None?) &&
      (1 <= diff <= 3 ==> r[1] == Some(last) && forall k :: 2 <= k < 7 ==> r[k].None?) &&
      (4 <= diff <= 7 ==> r[1] == Some(created + diff / 2) && r[2] == Some(last) &&
                          forall k :: 3 <= k < 7 ==> r[k].None?) &&
      (diff > 7 ==> r[6] == Some(last) && r[1] == Some(created + Max(1, diff / 4)) &&
                    forall k :: 1 <= k < 6 ==>
                      r[k] == if created + Max(1, diff / 4) * k <= last then Some(created + Max(1, diff / 4) * k) else None)
  {
    var r := CallDates(created, Some(last));
    var diff := last - created;
    if diff > 7 {
      var interval := Max(1, diff / 4);
      var spread := SpreadDates(created, last, interval, 1);
      assert r == [Some(created)] + spread + [Some(last)];
      assert forall k :: 1 <= k < 6 ==> r[k] == spread[k - 1];
      assert interval * 1 <= diff;
    }
  }

  // ---------------------------------------------------------------------------
  // extract_follow_up_remarks
  // ---------------------------------------------------------------------------

  /** re.sub(r'\s+', ' ', s): every maximal run of whitespace becomes one space. */
  function Collapse(s: string): (r: string)
    ensures |r| <= |s|
    decreases |s|
  {
    if s == [] then []
    else if IsSpace(s[0]) then
      var rest := LStrip(s);
      " " + Collapse(rest)
    else [s[0]] + Collapse(s[1..])
  }

  /** The non-whitespace characters of s, in order. */
  function NonSpace(s: string): string {
    if s == [] then [] else (if IsSpace(s[0]) then [] else [s[0]]) + NonSpace(s[1..])
  }

  /** Left stripping drops whitespace only. */
  lemma {:induction false} NonSpaceLStrip(s: string)
    ensures NonSpace(LStrip(s)) == NonSpace(s)
    decreases |s|
  {
    if s != [] && IsSpace(s[0]) {
      NonSpaceLStrip(s[1..]);
    }
  }

  /** What re.sub(r'\s+', ' ', s) yields: no two whitespace characters side by side, every
      whitespace character a plain ' ', whitespace at the front exactly when s has it, and the
      other characters of s kept, in order. */
  lemma {:induction false} CollapseMeaning(s: string)
    ensures var r := Collapse(s);
      (forall i :: 0 <= i < |r| && IsSpace(r[i]) ==> r[i] == ' ') &&
      (forall i :: 0 <= i < |r| - 1 ==> !(IsSpace(r[i]) && IsSpace(r[i + 1]))) &&
      (r == [] <==> s == []) && (r != [] ==> (IsSpace(r[0]) <==> IsSpace(s[0]))) &&
      NonSpace(r) == NonSpace(s)
    decreases |s|
  {
    if s != [] {
      var r := Collapse(s);
      if IsSpace(s[0]) {
        var rest := LStrip(s);
        var c := Collapse(rest);
        CollapseMeaning(rest);
        NonSpaceLStrip(s);
        assert r == " " + c;
        assert r[1..] == c;
        assert forall i :: 1 <= i < |r| ==> r[i] == c[i - 1];
      } else {
        var c := Collapse(s[1..]);
        CollapseMeaning(s[1..]);
        assert r == [s[0]] + c;
        assert r[1..] == c;
        assert forall i :: 1 <= i < |r| ==> r[i] == c[i - 1];
      }
    }
  }

  /** One left-to-right pass over s that writes ' ' for the first whitespace character of each
      run and drops the rest of the run; `inRun` says the previous character was whitespace. */
  function Squeeze(s: string, inRun: bool): string {
    if s == [] then []
    else if IsSpace(s[0]) then (if inRun then [] else " ") + Squeeze(s[1..], true)
    else [s[0]] + Squeeze(s[1..], false)
  }

  /** Inside a run, the rest of the run is dropped. */
  lemma {:induction false} SqueezeSkipsRun(s: string)
    ensures Squeeze(s, true) == Squeeze(LStrip(s), true)
    decreases |s|
  {
    if s != [] && IsSpace(s[0]) {
      SqueezeSkipsRun(s[1..]);
    }
  }

  /** Collapse agrees with the single pass: each maximal run of whitespace becomes one space. */
  lemma {:induction false} CollapseIsSqueeze(s: string)
    ensures Collapse(s) == Squeeze(s, false)
    decreases |s|
  {
    if s != [] {
      if IsSpace(s[0]) {
        var rest := LStrip(s);
        CollapseIsSqueeze(rest);
        SqueezeSkipsRun(s[1..]);
        assert LStrip(s) == LStrip(s[1..]);
        assert rest == [] || !IsSpace(rest[0]);
        assert Squeeze(rest, true) == Squeeze(rest, false);
      } else {
        CollapseIsSqueeze(s[1..]);
      }
    }
  }

  /** One match of the pattern (\d+)\.\s*: the section number, where its digits
      start, and where the text after it (past the dot and any whitespace) begins. */
  datatype Marker = Marker(num: nat, start: nat, end: nat)

  function DigitRunEnd(s: string, i: nat): (e: nat)
    requires i <= |s|
    ensures i <= e <= |s| && AllDigits(s[i..e]) && (e < |s| ==> !IsDigit(s[e]))
    decreases |s| - i
  {
    if i < |s| && IsDigit(s[i]) then DigitRunEnd(s, i + 1) else i
  }

  function SpaceRunEnd(s: string, i: nat): (e: nat)
    requires i <= |s|
    ensures i <= e <= |s| && (e < |s| ==> !IsSpace(s[e]))
    decreases |s| - i
  {
    if i < |s| && IsSpace(s[i]) then SpaceRunEnd(s, i + 1) else i
  }

  /** The match of (\d+)\.\s* that starts exactly at position q, if any. */
  function MarkerAt(s: string, q: nat): (m: Option<Marker>)
    requires q <= |s|
    ensures m.Some? ==> m.value.start == q && q < m.value.end <= |s|
  {
    if q < |s| && IsDigit(s[q]) then
      var e := DigitRunEnd(s, q);
      if e < |s| && s[e] == '.' then Some(Marker(DecimalValue(s[q..e]), q, SpaceRunEnd(s, e + 1)))
      else None
    else None
  }

  predicate Ordered(ms: seq<Marker>, p: nat, n: nat) {
    (forall i :: 0 <= i < |ms| ==> p <= ms[i].start < ms[i].end <= n) &&
    (forall i :: 0 <= i < |ms| - 1 ==> ms[i].end <= ms[i + 1].start)
  }

  /** re.finditer: the non-overlapping matches from position p on, left to right. */
  function Markers(s: string, p: nat): (ms: seq<Marker>)
    requires p <= |s|
    ensures Ordered(ms, p, |s|)
    decreases |s| - p
  {
    if p == |s| then []
    else match MarkerAt(s, p)
      case Some(m) => [m] + Markers(s, m.end)
      case None => Markers(s, p + 1)
  }

  /** The text of section i: from the end of its marker to the start of the next
      marker (or the end of the text), stripped. */
  function SectionText(s: string, ms: seq<Marker>, i: nat): (t: string)
    requires Ordered(ms, 0, |s|) && i < |ms|
    ensures Stripped(t)
  {
    var stop := if i + 1 < |ms| then ms[i + 1].start else |s|;
    Strip(s[ms[i].end..stop])
  }

  /** The sections dictionary after the first k matches; a later section with
      the same number replaces an earlier one. */
  function SectionsUpTo(s: string, ms: seq<Marker>, k: nat): map<int, string>
    requires Ordered(ms, 0, |s|) && k <= |ms|
  {
    if k == 0 then map[] else SectionsUpTo(s, ms, k - 1)[ms[k - 1].num := SectionText(s, ms, k - 1)]
  }

  predicate IsNoneWord(t: string) {
    Upper(t) == "NONE"
  }

  /** Every section text is stripped: it neither starts nor ends with whitespace. */
  predicate Stripped(t: string) {
    t != [] ==> !IsSpace(t[0]) && !IsSpace(t[|t| - 1])
  }

  /** Every section text in the dictionary is stripped. */
  lemma {:induction false} SectionsStripped(s: string, ms: seq<Marker>, k: nat, n: int)
    requires Ordered(ms, 0, |s|) && k <= |ms| && n in SectionsUpTo(s, ms, k)
    ensures Stripped(SectionsUpTo(s, ms, k)[n])
    decreases k
  {
    if k > 0 && ms[k - 1].num != n {
      SectionsStripped(s, ms, k - 1, n);
    }
  }

  /** A section text as a remark: empty or "NONE" (any case) gives None. */
  function RemarkOf(t: string): Option<string> {
    if t != "" && !IsNoneWord(t) then Some(t) else None
  }

  /** A section's content as a remark: empty or "NONE" (any case) gives None. */
  function RemarkFrom(sections: map<int, string>, n: int): (r: Option<string>)
  {
    if n in sections then RemarkOf(sections[n]) else None
  }

  function NormalizedRemarks(text: string): string {
    Collapse(Strip(text))
  }

  /** The sections dictionary of a normalised remarks text. */
  function SectionsOf(s: string): map<int, string> {
    var ms := Markers(s, 0);
    SectionsUpTo(s, ms, |ms|)
  }

  /** Remark slots 1..7 read from the sections dictionary; other numbers are ignored. */
  function Slots(sections: map<int, string>): (r: seq<Option<string>>)
    ensures |r| == 7 && forall n :: 1 <= n <= 7 ==> r[n - 1] == RemarkFrom(sections, n)
  {
    seq(7, k => RemarkFrom(sections, k + 1))
  }

  /** first_remark .. seventh_remark as the parser produces them. */
  function Remarks(input: Option<string>): (r: seq<Option<string>>)
    ensures |r| == 7
  {
    if !Truthy(input) then [None, None, None, None, None, None, None]
    else Slots(SectionsOf(NormalizedRemarks(input.value)))
  }

  /** Every remark the parser keeps is non-empty, stripped and not "NONE", and an
      empty or missing remarks field gives no remarks at all. */
  lemma RemarksShape(input: Option<string>, k: nat)
    requires k < 7
    ensures var r := Remarks(input)[k];
      r.Some? ==> r.value != "" && Stripped(r.value) && !IsNoneWord(r.value)
    ensures !Truthy(input) ==> Remarks(input)[k].None?
  {
    if Truthy(input) {
      var s := NormalizedRemarks(input.value);
      var ms := Markers(s, 0);
      var sections := SectionsOf(s);
      if k + 1 in sections {
        SectionsStripped(s, ms, |ms|, k + 1);
      }
      assert Remarks(input)[k] == RemarkFrom(sections, k + 1);
    }
  }

  /** Match i is the last of the first k matches numbered n. */
  predicate LastNumbered(ms: seq<Marker>, k: nat, n: int, i: nat) {
    i < k <= |ms| && ms[i].num == n && forall j :: i < j < k ==> ms[j].num != n
  }

  /** The dictionary after k matches holds number n exactly when one of those matches
      is numbered n, and then its text is that of the last such match. */
  /** Looking up a key after one map update. */
  lemma MapUpdateLookup<V>(m: map<int, V>, key: int, v: V, n: int)
    ensures n in m[key := v] <==> n == key || n in m
    ensures n == key ==> m[key := v][n] == v
    ensures n != key && n in m ==> m[key := v][n] == m[n]
  {
  }

  lemma {:induction false} SectionsDomain(s: string, ms: seq<Marker>, k: nat, n: int)
    requires Ordered(ms, 0, |s|) && k <= |ms|
    ensures n in SectionsUpTo(s, ms, k) <==> exists i :: 0 <= i < k && ms[i].num == n
    decreases k
  {
    if k > 0 {
      SectionsDomain(s, ms, k - 1, n);
      MapUpdateLookup(SectionsUpTo(s, ms, k - 1), ms[k - 1].num, SectionText(s, ms, k - 1), n);
      if ms[k - 1].num != n {
        assert (exists i :: 0 <= i < k && ms[i].num == n) ==> exists i :: 0 <= i < k - 1 && ms[i].num == n;
      }
    }
  }

  lemma {:induction false} SectionsValue(s: string, ms: seq<Marker>, k: nat, n: int, i: nat)
    requires Ordered(ms, 0, |s|) && LastNumbered(ms, k, n, i)
    ensures n in SectionsUpTo(s, ms, k) && SectionsUpTo(s, ms, k)[n] == SectionText(s, ms, i)
    decreases k
  {
    MapUpdateLookup(SectionsUpTo(s, ms, k - 1), ms[k - 1].num, SectionText(s, ms, k - 1), n);
    if i < k - 1 {
      assert LastNumbered(ms, k - 1, n, i);
      SectionsValue(s, ms, k - 1, n, i);
    }
  }

  /** The dictionary after k matches holds number n exactly when one of those matches
      is numbered n, and then its text is that of the last such match. */
  lemma SectionsUpToMeaning(s: string, ms: seq<Marker>, k: nat, n: int)
    requires Ordered(ms, 0, |s|) && k <= |ms|
    ensures n in SectionsUpTo(s, ms, k) <==> exists i :: 0 <= i < k && ms[i].num == n
    ensures forall i :: LastNumbered(ms, k, n, i) ==> SectionsUpTo(s, ms, k)[n] == SectionText(s, ms, i)
  {
    SectionsDomain(s, ms, k, n);
    forall i | LastNumbered(ms, k, n, i)
      ensures SectionsUpTo(s, ms, k)[n] == SectionText(s, ms, i)
    {
      SectionsValue(s, ms, k, n, i);
    }
  }

  /** Remark slot n (1..7) comes from the last marker numbered n in the collapsed text:
      its stripped text up to the next marker, read as a remark; with no marker
      numbered n the slot is None, and so is every slot of a missing or empty field. */
  lemma RemarksMeaning(input: Option<string>, n: int)
    requires 1 <= n <= 7
    ensures !Truthy(input) ==> Remarks(input)[n - 1] == None
    ensures Truthy(input) ==>
      var s := NormalizedRemarks(input.value);
      var ms := Markers(s, 0);
      ((forall i :: 0 <= i < |ms| ==> ms[i].num != n) ==> Remarks(input)[n - 1] == None) &&
      (forall i :: LastNumbered(ms, |ms|, n, i) ==> Remarks(input)[n - 1] == RemarkOf(SectionText(s, ms, i)))
  {
    if Truthy(input) {
      var s := NormalizedRemarks(input.value);
      var ms := Markers(s, 0);
      var sections := SectionsOf(s);
      assert sections == SectionsUpTo(s, ms, |ms|);
      assert Remarks(input)[n - 1] == RemarkFrom(sections, n);
      SectionsUpToMeaning(s, ms, |ms|, n);
      if forall i :: 0 <= i < |ms| ==> ms[i].num != n {
        assert n !in sections;
      }
    }
  }

  /** Text whose only whitespace is single ' ' characters is already collapsed. */
  predicate Collapsed(s: string) {
    (forall i :: 0 <= i < |s| && IsSpace(s[i]) ==> s[i] == ' ') &&
    (forall i :: 0 <= i < |s| - 1 ==> !(IsSpace(s[i]) && IsSpace(s[i + 1])))
  }

  /** The single pass splits anywhere, carrying whether the left part ended in whitespace. */
  lemma {:induction false} SqueezeAppend(a: string, b: string, inRun: bool)
    ensures Squeeze(a + b, inRun) == Squeeze(a, inRun) + Squeeze(b, if a == [] then inRun else IsSpace(a[|a| - 1]))
    decreases |a|
  {
    if a == [] {
      assert a + b == b;
    } else {
      var ab, t := a + b, a[1..];
      var f := IsSpace(a[0]);
      assert ab[0] == a[0] && ab[1..] == t + b;
      SqueezeAppend(t, b, f);
      var g := if t == [] then f else IsSpace(t[|t| - 1]);
      assert g == IsSpace(a[|a| - 1]);
      var head := if f then (if inRun then [] else " ") else [a[0]];
      assert Squeeze(ab, inRun) == head + Squeeze(t + b, f);
      assert Squeeze(a, inRun) == head + Squeeze(t, f);
      ConcatAssoc(head, Squeeze(t, f), Squeeze(b, g));
    }
  }

  /** Collapsed text passes through unchanged, unless it opens with a space right after
      a run of whitespace. */
  lemma {:induction false} SqueezeCollapsed(x: string, inRun: bool)
    requires Collapsed(x) && (inRun && x != [] ==> !IsSpace(x[0]))
    ensures Squeeze(x, inRun) == x
    decreases |x|
  {
    if x != [] {
      var t := x[1..];
      assert Collapsed(t);
      if IsSpace(x[0]) {
        assert x[0] == ' ';
        assert t != [] ==> !IsSpace(t[0]);
        SqueezeCollapsed(t, true);
      } else {
        SqueezeCollapsed(t, false);
      }
      assert x == [x[0]] + t;
    }
  }

  /** Positions p..q hold no digit, so no match starts there. */
  lemma {:induction false} MarkersSkip(s: string, p: nat, q: nat)
    requires p <= q <= |s| && forall i :: p <= i < q ==> !IsDigit(s[i])
    ensures Markers(s, p) == Markers(s, q)
    decreases q - p
  {
    if p < q {
      assert MarkerAt(s, p) == None;
      MarkersSkip(s, p + 1, q);
    }
  }

  /** A one-digit marker "d. " followed by a non-space. */
  lemma MarkerAtOneDigit(s: string, q: nat)
    requires q + 3 < |s| && IsDigit(s[q]) && s[q + 1] == '.' && IsSpace(s[q + 2]) && !IsSpace(s[q + 3])
    ensures MarkerAt(s, q) == Some(Marker(DigitValue(s[q]), q, q + 3))
  {
    assert DigitRunEnd(s, q + 1) == q + 1;
    assert SpaceRunEnd(s, q + 3) == q + 3;
    var d := s[q..q + 1];
    assert d[..0] == [] && d[0] == s[q];
    assert DecimalValue(d) == DigitValue(s[q]);
  }

  /** A section body in the parser's sample: non-empty, digit-free, already collapsed,
      and neither starting nor ending with whitespace. */
  predicate PlainText(t: string) {
    t != [] && Collapsed(t) && !IsSpace(t[0]) && !IsSpace(t[|t| - 1]) &&
    forall i :: 0 <= i < |t| ==> !IsDigit(t[i])
  }

  lemma StripPlain(x: string)
    requires PlainText(x)
    ensures Strip(x + " ") == x && Strip(x) == x
  {
    assert LStrip(x + " ") == x + " ";
    assert (x + " ")[..|x|] == x;
    assert RStrip(x + " ") == RStrip(x);
  }

  lemma SqueezeHead()
    ensures Squeeze("1. ", false) == "1. "
  {
  }

  /** One step of the pass: the first character, then the rest. */
  lemma SqueezeCons(c: char, t: string, inRun: bool)
    ensures Squeeze([c] + t, inRun) ==
      (if !IsSpace(c) then [c] else if inRun then [] else " ") + Squeeze(t, IsSpace(c))
  {
    assert ([c] + t)[0] == c && ([c] + t)[1..] == t;
  }

  /** Two spaces and a two-character word: the spaces become one. */
  lemma SqueezeGapWord(d: char, dot: char, t: string)
    requires !IsSpace(d) && !IsSpace(dot)
    ensures Squeeze([' ', ' ', d, dot] + t, false) == [' ', d, dot] + Squeeze(t, false)
  {
    var w := [dot] + t;
    var v := [d] + w;
    var u := [' '] + v;
    SqueezeCons(dot, t, true);
    SqueezeCons(d, w, true);
    SqueezeCons(' ', v, true);
    SqueezeCons(' ', u, false);
    assert [' ', ' ', d, dot] + t == [' '] + u;
  }

  /** The run "  2.  3. " between the first and the third section collapses to " 2. 3. ". */
  lemma SqueezeMid()
    ensures Squeeze("  2.  3. ", false) == " 2. 3. "
  {
    SqueezeGapWord('3', '.', " ");
    assert Squeeze(" ", false) == " ";
    SqueezeGapWord('2', '.', "  3. ");
    assert "  2.  3. " == [' ', ' ', '2', '.'] + "  3. ";
  }

  /** The collapsed form of "1. x  2.  3. z". */
  lemma NormalizedThree(x: string, z: string)
    requires PlainText(x) && PlainText(z)
    ensures NormalizedRemarks("1. " + x + "  2.  3. " + z) == "1. " + x + " 2. 3. " + z
  {
    var head, mid := "1. ", "  2.  3. ";
    var input := head + x + mid + z;
    assert input[0] == '1' && input[|input| - 1] == z[|z| - 1];
    assert LStrip(input) == input;
    assert Strip(input) == input;
    CollapseIsSqueeze(input);
    var left := head + x + mid;
    assert left[|left| - 1] == ' ';
    SqueezeAppend(left, z, false);
    SqueezeCollapsed(z, true);
    assert (head + x)[|head + x| - 1] == x[|x| - 1];
    SqueezeAppend(head + x, mid, false);
    SqueezeMid();
    SqueezeAppend(head, x, false);
    SqueezeHead();
    SqueezeCollapsed(x, true);
  }

  /** Where the pieces of "1. x 2. 3. z" sit. */
  predicate Layout(s: string, x: string, z: string) {
    var p := |x| + 4;
    |s| == p + 6 + |z| && s[0] == '1' && s[1] == '.' && s[2] == ' ' && s[3..p - 1] == x && s[p - 1] == ' ' &&
    s[p] == '2' && s[p + 1] == '.' && s[p + 2] == ' ' && s[p + 3] == '3' && s[p + 4] == '.' && s[p + 5] == ' ' &&
    s[p + 6..] == z
  }

  lemma LayoutThree(x: string, z: string)
    ensures Layout("1. " + x + " 2. 3. " + z, x, z)
  {
    var s := "1. " + x + " 2. 3. " + z;
    var p := |x| + 4;
    assert s == ("1. " + x) + (" 2. 3. " + z);
    assert s[p - 1..p + 6] == " 2. 3. ";
  }

  /** A one-digit marker "d. " followed by a non-space is the next match. */
  lemma MarkersStep(s: string, q: nat)
    requires q + 3 < |s| && IsDigit(s[q]) && s[q + 1] == '.' && IsSpace(s[q + 2]) && !IsSpace(s[q + 3])
    ensures Markers(s, q) == [Marker(DigitValue(s[q]), q, q + 3)] + Markers(s, q + 3)
  {
    MarkerAtOneDigit(s, q);
  }

  /** The matches from the second marker of "1. x 2. 3. z" on. */
  lemma MarkersOfLayoutTail(s: string, x: string, z: string)
    requires PlainText(x) && PlainText(z) && Layout(s, x, z)
    ensures var p := |x| + 4;
      Markers(s, p) == [Marker(2, p, p + 3), Marker(3, p + 3, p + 6)]
  {
    var p := |x| + 4;
    assert s[p + 6] == s[p + 6..][0];
    forall i | p + 6 <= i < |s| ensures !IsDigit(s[i]) {
      assert s[i] == s[p + 6..][i - (p + 6)];
    }
    MarkersSkip(s, p + 6, |s|);
    assert Markers(s, p + 6) == [];
    MarkersStep(s, p + 3);
    assert Markers(s, p + 3) == [Marker(3, p + 3, p + 6)];
    MarkersStep(s, p);
  }

  /** The matches in a text laid out as "1. x 2. 3. z". */
  lemma MarkersOfLayout(s: string, x: string, z: string)
    requires PlainText(x) && PlainText(z) && Layout(s, x, z)
    ensures var p := |x| + 4;
      Markers(s, 0) == [Marker(1, 0, 3), Marker(2, p, p + 3), Marker(3, p + 3, p + 6)]
  {
    var p := |x| + 4;
    assert s[3] == s[3..p - 1][0];
    forall i | 3 <= i < p ensures !IsDigit(s[i]) {
      if i < p - 1 { assert s[i] == s[3..p - 1][i - 3]; }
    }
    MarkersSkip(s, 3, p);
    MarkersOfLayoutTail(s, x, z);
    MarkersStep(s, 0);
  }

  /** The sections dictionary of a text laid out as "1. x 2. 3. z". */
  lemma SectionsOfLayout(s: string, x: string, z: string)
    requires PlainText(x) && PlainText(z) && Layout(s, x, z)
    ensures var ms := Markers(s, 0);
      |ms| == 3 && SectionsUpTo(s, ms, 3) == map[1 := x, 2 := "", 3 := z]
  {
    MarkersOfLayout(s, x, z);
    var p := |x| + 4;
    var ms := Markers(s, 0);
    assert s[3..p] == x + " ";
    StripPlain(x);
    StripPlain(z);
    assert SectionText(s, ms, 0) == x;
    assert SectionText(s, ms, 1) == "";
    assert SectionText(s, ms, 2) == z;
    assert SectionsUpTo(s, ms, 1) == map[1 := x];
    assert SectionsUpTo(s, ms, 2) == map[1 := x, 2 := ""];
  }

  /** A truthy remarks field is read through its normalised text. */
  lemma RemarksOfNormalized(t: string, s: string)
    requires t != "" && NormalizedRemarks(t) == s
    ensures Remarks(Some(t)) == Slots(SectionsOf(s))
  { }

  /** The slots of a dictionary holding sections 1, 2 (empty) and 3. */
  lemma SlotsThree(x: string, z: string)
    ensures Slots(map[1 := x, 2 := "", 3 := z]) == [RemarkOf(x), None, RemarkOf(z), None, None, None, None]
  {
    var r := Slots(map[1 := x, 2 := "", 3 := z]);
    assert r[0] == RemarkOf(x) && r[1] == None && r[2] == RemarkOf(z);
    assert r[3] == None && r[4] == None && r[5] == None && r[6] == None;
  }

  /** A remark field of the form "1. x  2.  3. z", as in the parser's own sample:
      the empty second section gives None, x and z fill the first and third slots. */
  lemma RemarksThree(x: string, z: string)
    requires PlainText(x) && PlainText(z)
    ensures Remarks(Some("1. " + x + "  2.  3. " + z)) == [RemarkOf(x), None, RemarkOf(z), None, None, None, None]
  {
    var t := "1. " + x + "  2.  3. " + z;
    var s := "1. " + x + " 2. 3. " + z;
    NormalizedThree(x, z);
    assert |t| > 0;
    RemarksOfNormalized(t, s);
    LayoutThree(x, z);
    SectionsOfLayout(s, x, z);
    assert SectionsOf(s) == map[1 := x, 2 := "", 3 := z];
    SlotsThree(x, z);
  }


  const SampleTail := "VOC : cx enquired about on road price"

  lemma SampleTailSpaces()
    ensures forall i :: 0 <= i < |SampleTail| && IsSpace(SampleTail[i]) ==> SampleTail[i] == ' '
  {
  }

  lemma SampleTailRuns()
    ensures forall i :: 0 <= i < |SampleTail| - 1 ==> !(IsSpace(SampleTail[i]) && IsSpace(SampleTail[i + 1]))
  {
  }

  lemma SampleTailDigits()
    ensures forall i :: 0 <= i < |SampleTail| ==> !IsDigit(SampleTail[i])
  {
  }

  lemma ExampleTailPlain()
    ensures PlainText(SampleTail)
  {
    SampleTailSpaces();
    SampleTailRuns();
    SampleTailDigits();
    assert !IsSpace(SampleTail[0]) && !IsSpace(SampleTail[|SampleTail| - 1]);
  }

  /** A non-empty text that is not four characters long cannot read "NONE". */
  lemma RemarkKept(t: string)
    requires t != "" && |t| != 4
    ensures RemarkOf(t) == Some(t)
  {
    assert |Upper(t)| != 4;
  }

  /** The sample in the parser's documentation, "1. rnr  2.  3. VOC : cx enquired
      about on road price". */
  lemma RemarksExample()
    ensures Remarks(Some("1. rnr  2.  3. " + SampleTail))
      == [Some("rnr"), None, Some(SampleTail), None, None, None, None]
  {
    var z := SampleTail;
    assert PlainText("rnr");
    ExampleTailPlain();
    RemarkKept("rnr");
    RemarkKept(z);
    RemarksThree("rnr", z);
    SampleSpelling(z);
  }

  lemma SampleSpelling(z: string)
    ensures "1. " + "rnr" + "  2.  3. " + z == "1. rnr  2.  3. " + z
  {
  }

  /** extract_follow_up_remarks: collect the sections in a dictionary, then read
      sections 1..7 into the seven remark slots. */
  method ExtractFollowUpRemarks(input: Option<string>) returns (remarks: seq<Option<string>>)
    ensures remarks == Remarks(input)
  {
    if !Truthy(input) {
      return [None, None, None, None, None, None, None];
    }
    var normalized := NormalizedRemarks(input.value);
    var ms := Markers(normalized, 0);
    var sections := CollectSections(normalized, ms);
    remarks := ReadRemarkSlots(sections);
  }

  lemma SectionsUnfold(s: string, ms: seq<Marker>, i: nat)
    requires Ordered(ms, 0, |s|) && i < |ms|
    ensures SectionsUpTo(s, ms, i + 1) == SectionsUpTo(s, ms, i)[ms[i].num := SectionText(s, ms, i)]
  {
  }

  /** The loop over the matches that fills the sections dictionary. */
  method CollectSections(s: string, ms: seq<Marker>) returns (sections: map<int, string>)
    requires Ordered(ms, 0, |s|)
    ensures sections == SectionsUpTo(s, ms, |ms|)
  {
    sections := map[];
    var i := 0;
    while i < |ms|
      invariant 0 <= i <= |ms|
      invariant sections == SectionsUpTo(s, ms, i)
    {
      var stop := if i + 1 < |ms| then ms[i + 1].start else |s|;
      var content := Strip(s[ms[i].end..stop]);
      assert content == SectionText(s, ms, i);
      SectionsUnfold(s, ms, i);
      sections := sections[ms[i].num := content];
      i := i + 1;
    }
  }

  /** The loop over section numbers 1..7 that fills the remark slots. */
  method ReadRemarkSlots(sections: map<int, string>) returns (remarks: seq<Option<string>>)
    ensures remarks == Slots(sections)
  {
    remarks := [None, None, None, None, None, None, None];
    var n := 1;
    while n <= 7
      invariant 1 <= n <= 8 && |remarks| == 7
      invariant forall k :: 0 <= k < n - 1 ==> remarks[k] == RemarkFrom(sections, k + 1)
      invariant forall k :: n - 1 <= k < 7 ==> remarks[k] == None
    {
      if n in sections {
        var content := sections[n];
        if content != "" {
          if IsNoneWord(content) {
            remarks := remarks[n - 1 := None];
          } else {
            remarks := remarks[n - 1 := Some(content)];
          }
        } else {
          remarks := remarks[n - 1 := None];
        }
      }
      n := n + 1;
    }
  }
}
