/** Small pieces of Python's standard behaviour that the CRM code relies on:
    optional values, truthiness of strings, str.isdigit/str.strip/str.zfill,
    slicing with negative bounds, decimal formatting and set-style de-duplication.
    Only ASCII case mapping, the ASCII digits and the whitespace characters listed in IsSpace
    are modelled. */
module PyStr {

  datatype Option<+T> = None | Some(value: T)

  /** Python truthiness of an optional string column: not None and not "". */
  predicate Truthy(o: Option<string>) {
    o.Some? && o.value != ""
  }

  /** str.isdigit() on one character, and the regex class \d, restricted to the ASCII digits. */
  predicate IsDigit(c: char) {
    '0' <= c <= '9'
  }

  /** Characters that str.isspace() and the regex class \s accept, restricted to
      the ASCII and Latin-1 range. */
  predicate IsSpace(c: char) {
    c == ' ' || (9 <= c as int <= 13) || (0x1c <= c as int <= 0x1f) || c as int == 0x85 || c as int == 0xa0
  }

  predicate AllDigits(s: string) {
    forall i :: 0 <= i < |s| ==> IsDigit(s[i])
  }

  /** ''.join(filter(str.isdigit, s)) */
  function Digits(s: string): (r: string)
    ensures AllDigits(r)
    ensures |r| <= |s|
  {
    if s == [] then []
    else if IsDigit(s[0]) then [s[0]] + Digits(s[1..])
    else Digits(s[1..])
  }

  /** Filtering digits distributes over concatenation. */
  lemma {:induction false} DigitsAppend(a: string, b: string)
    ensures Digits(a + b) == Digits(a) + Digits(b)
    decreases |a|
  {
    if a != [] {
      assert (a + b)[0] == a[0] && (a + b)[1..] == a[1..] + b;
      DigitsAppend(a[1..], b);
      if IsDigit(a[0]) {
        assert [a[0]] + (Digits(a[1..]) + Digits(b)) == ([a[0]] + Digits(a[1..])) + Digits(b);
      }
    } else {
      assert a + b == b;
    }
  }

  /** Concatenation is associative; stated once for the proofs that regroup strings. */
  lemma ConcatAssoc<T>(x: seq<T>, y: seq<T>, z: seq<T>)
    ensures x + (y + z) == (x + y) + z
  {
  }

  /** s.replace(c, ''): every occurrence of c goes, every other character stays. */
  function RemoveChar(s: string, c: char): (r: string)
    ensures c !in r
    ensures |r| <= |s|
    ensures multiset(r) == multiset(s)[c := 0]
  {
    if s == [] then []
    else
      assert s == [s[0]] + s[1..];
      if s[0] == c then RemoveChar(s[1..], c)
      else [s[0]] + RemoveChar(s[1..], c)
  }

  /** Removing a character works piece by piece and keeps the order of what stays:
      a string without c is returned as it is, and a lone c disappears. */
  lemma {:induction false} RemoveCharAppend(a: string, b: string, c: char)
    ensures RemoveChar(a + b, c) == RemoveChar(a, c) + RemoveChar(b, c)
    ensures c !in a ==> RemoveChar(a, c) == a
    ensures RemoveChar([c], c) == []
    decreases |a|
  {
    if a != [] {
      assert (a + b)[0] == a[0] && (a + b)[1..] == a[1..] + b;
      assert a == [a[0]] + a[1..];
      RemoveCharAppend(a[1..], b, c);
      if a[0] != c {
        assert [a[0]] + (RemoveChar(a[1..], c) + RemoveChar(b, c)) == ([a[0]] + RemoveChar(a[1..], c)) + RemoveChar(b, c);
      }
    } else {
      assert a + b == b;
    }
    assert [c][1..] == [];
  }

  function LStrip(s: string): (r: string)
    ensures |r| <= |s| && (s != [] && IsSpace(s[0]) ==> |r| < |s|)
    ensures r != [] ==> !IsSpace(r[0])
  {
    if s != [] && IsSpace(s[0]) then LStrip(s[1..]) else s
  }

  function RStrip(s: string): (r: string)
    ensures |r| <= |s| && r == s[..|r|]
    ensures r != [] ==> !IsSpace(r[|r| - 1])
  {
    if s != [] && IsSpace(s[|s| - 1]) then RStrip(s[..|s| - 1]) else s
  }

  /** str.strip() */
  function Strip(s: string): (r: string)
    ensures r != [] ==> !IsSpace(r[0]) && !IsSpace(r[|r| - 1])
  {
    RStrip(LStrip(s))
  }

  /** Left stripping removes a prefix made of whitespace only. */
  lemma {:induction false} LStripRemovesSpace(s: string)
    ensures var r := LStrip(s);
      r == s[|s| - |r|..] && forall i :: 0 <= i < |s| - |r| ==> IsSpace(s[i])
    decreases |s|
  {
    if s != [] && IsSpace(s[0]) {
      LStripRemovesSpace(s[1..]);
      assert forall i :: 1 <= i < |s| ==> s[i] == s[1..][i - 1];
    }
  }

  /** Right stripping removes a suffix made of whitespace only. */
  lemma {:induction false} RStripRemovesSpace(s: string)
    ensures var r := RStrip(s);
      forall i :: |r| <= i < |s| ==> IsSpace(s[i])
    decreases |s|
  {
    if s != [] && IsSpace(s[|s| - 1]) {
      RStripRemovesSpace(s[..|s| - 1]);
    }
  }

  /** str.strip() is the slice s[a:b] that drops exactly the whitespace at both ends: everything
      outside [a, b) is whitespace, and the kept slice neither starts nor ends with whitespace. */
  lemma StripMeaning(s: string)
    ensures exists a, b ::
              0 <= a <= b <= |s| && Strip(s) == s[a..b] &&
              (forall i :: 0 <= i < a ==> IsSpace(s[i])) && (forall i :: b <= i < |s| ==> IsSpace(s[i]))
  {
    var l := LStrip(s);
    LStripRemovesSpace(s);
    RStripRemovesSpace(l);
    var a := |s| - |l|;
    var r := RStrip(l);
    var b := a + |r|;
    assert l == s[a..];
    assert r == l[..|r|];
    assert Strip(s) == s[a..b];
    assert forall i :: 0 <= i < a ==> IsSpace(s[i]);
    forall i | b <= i < |s|
      ensures IsSpace(s[i])
    {
      assert s[i] == l[i - a];
    }
    assert 0 <= a <= b <= |s|;
  }

  /** s[:k] for k >= 0 */
  function Prefix(s: string, k: nat): (r: string)
    ensures |r| == if k <= |s| then k else |s|
    ensures r == s[..|r|]
  {
    if k <= |s| then s[..k] else s
  }

  /** s[-k:] for k > 0: the last k characters, or all of s when it is shorter */
  function Suffix(s: string, k: nat): (r: string)
    ensures |r| == if k <= |s| then k else |s|
    ensures r == s[|s| - |r|..]
  {
    if k <= |s| then s[|s| - k..] else s
  }

  /** Python's normalisation of a slice bound against a sequence of length n. */
  function SliceBound(i: int, n: nat): (r: nat)
    ensures r <= n
  {
    if i < 0 then (if i + n < 0 then 0 else i + n) else if i > n then n else i
  }

  /** s[a:b] with Python's treatment of negative and out-of-range bounds. */
  function PySlice<T>(s: seq<T>, a: int, b: int): (r: seq<T>)
    ensures |r| <= |s|
  {
    var lo := SliceBound(a, |s|);
    var hi := SliceBound(b, |s|);
    if lo < hi then s[lo..hi] else []
  }

  function DigitChar(d: nat): (c: char)
    requires d < 10
    ensures IsDigit(c)
  {
    ('0' as int + d) as char
  }

  function DigitValue(c: char): (d: nat)
    requires IsDigit(c)
    ensures d < 10 && DigitChar(d) == c
  {
    c as int - '0' as int
  }

  /** str(n) for a natural number */
  function NatToString(n: nat): (r: string)
    ensures r != [] && AllDigits(r)
    decreases n
  {
    if n < 10 then [DigitChar(n)] else NatToString(n / 10) + [DigitChar(n % 10)]
  }

  /** int(s) for a string of ASCII digits */
  function DecimalValue(s: string): (n: nat)
    requires AllDigits(s)
  {
    if s == [] then 0 else DecimalValue(s[..|s| - 1]) * 10 + DigitValue(s[|s| - 1])
  }

  lemma {:induction false} DecimalOfNatToString(n: nat)
    ensures DecimalValue(NatToString(n)) == n
    decreases n
  {
    if n >= 10 {
      var s := NatToString(n / 10) + [DigitChar(n % 10)];
      assert s[..|s| - 1] == NatToString(n / 10);
      DecimalOfNatToString(n / 10);
    }
  }

  lemma {:induction false} NatToStringLength(n: nat, w: nat)
    requires n < Pow10(w)
    ensures |NatToString(n)| <= if w == 0 then 1 else w
    decreases n
  {
    if n >= 10 {
      NatToStringLength(n / 10, w - 1);
    }
  }

  function Pow10(w: nat): (p: nat)
    ensures p >= 1
  {
    if w == 0 then 1 else 10 * Pow10(w - 1)
  }

  /** str(i) for any integer */
  function IntToString(i: int): (r: string)
    ensures r != []
    ensures i >= 0 ==> r == NatToString(i)
    ensures i < 0 ==> r == "-" + NatToString(-i)
  {
    if i < 0 then "-" + NatToString(-i) else NatToString(i)
  }

  function Zeros(k: nat): (r: string)
    ensures |r| == k && forall i :: 0 <= i < k ==> r[i] == '0'
  {
    if k == 0 then [] else Zeros(k - 1) + "0"
  }

  /** s.zfill(w): left-pad with zeros to width w, keeping a leading sign in front. */
  function ZFill(s: string, w: nat): (r: string)
    ensures |r| == if |s| >= w then |s| else w
    ensures s != [] && (s[0] == '+' || s[0] == '-') ==>
      r[0] == s[0] && r[1..] == Zeros(|r| - |s|) + s[1..]
    ensures !(s != [] && (s[0] == '+' || s[0] == '-')) ==> r == Zeros(|r| - |s|) + s
  {
    if |s| >= w then s
    else if s != [] && (s[0] == '+' || s[0] == '-') then [s[0]] + Zeros(w - |s|) + s[1..]
    else Zeros(w - |s|) + s
  }

  /** f"{n:04d}" for a natural number */
  function Format04(n: nat): (r: string)
    ensures AllDigits(r) && |r| >= 4
  {
    ZFill(NatToString(n), 4)
  }

  lemma {:induction false} DecimalOfZeros(z: string, s: string)
    requires AllDigits(s)
    requires forall i :: 0 <= i < |z| ==> z[i] == '0'
    ensures AllDigits(z + s) && DecimalValue(z + s) == DecimalValue(s)
    decreases |s|
  {
    if s == [] {
      assert z + s == z;
      ZerosValue(z);
    } else {
      var t := z + s;
      assert t[..|t| - 1] == z + s[..|s| - 1];
      DecimalOfZeros(z, s[..|s| - 1]);
    }
  }

  lemma {:induction false} ZerosValue(z: string)
    requires forall i :: 0 <= i < |z| ==> z[i] == '0'
    ensures AllDigits(z) && DecimalValue(z) == 0
    decreases |z|
  {
    if z != [] {
      ZerosValue(z[..|z| - 1]);
    }
  }

  /** Reading a four-digit field back gives the number that was formatted. */
  lemma Format04RoundTrip(n: nat)
    requires n < 10000
    ensures |Format04(n)| == 4
    ensures DecimalValue(Format04(n)) == n
  {
    var s := NatToString(n);
    NatToStringLength(n, 4);
    DecimalOfNatToString(n);
    if |s| < 4 {
      DecimalOfZeros(Zeros(4 - |s|), s);
    }
  }

  /** f"{head}{letter}-{tail}-{digits}", the layout both UID generators share. */
  function JoinUid(head: string, letter: char, tail: string, digits: string): (r: string)
    ensures |r| == |head| + |tail| + |digits| + 3
    ensures r[..|head|] == head && r[|head|] == letter && r[|head| + 1] == '-'
    ensures r[|head| + 2..|head| + 2 + |tail|] == tail && r[|head| + 2 + |tail|] == '-'
    ensures r[|r| - |digits|..] == digits
  {
    var rest := [letter, '-'] + tail + ['-'] + digits;
    assert rest[2..2 + |tail|] == tail && rest[3 + |tail|..] == digits;
    var r := head + rest;
    assert r[..|head|] == head && r[|head|..] == rest;
    r
  }

  /** ASCII str.lower() */
  function Lower(s: string): (r: string)
    ensures |r| == |s|
    ensures forall i :: 0 <= i < |s| ==> r[i] == (if 'A' <= s[i] <= 'Z' then (s[i] as int + 32) as char else s[i])
  {
    if s == [] then [] else [if 'A' <= s[0] <= 'Z' then (s[0] as int + 32) as char else s[0]] + Lower(s[1..])
  }

  /** ASCII str.upper() */
  function Upper(s: string): (r: string)
    ensures |r| == |s|
    ensures forall i :: 0 <= i < |s| ==> r[i] == (if 'a' <= s[i] <= 'z' then (s[i] as int - 32) as char else s[i])
  {
    if s == [] then [] else [if 'a' <= s[0] <= 'z' then (s[0] as int - 32) as char else s[0]] + Upper(s[1..])
  }

  /** list(set(xs)): one duplicate-free listing of the elements of xs. The order Python's set
      yields is not modelled; this listing keeps first occurrences. */
  function Distinct(xs: seq<string>): (r: seq<string>)
    ensures forall x :: x in r <==> x in xs
    ensures forall i, j :: 0 <= i < j < |r| ==> r[i] != r[j]
  {
    DistinctFrom(xs, [])
  }

  function DistinctFrom(xs: seq<string>, seen: seq<string>): (r: seq<string>)
    requires forall i, j :: 0 <= i < j < |seen| ==> seen[i] != seen[j]
    ensures forall x :: x in r <==> x in xs || x in seen
    ensures forall i, j :: 0 <= i < j < |r| ==> r[i] != r[j]
    decreases |xs|
  {
    if xs == [] then seen
    else if xs[0] in seen then DistinctFrom(xs[1..], seen)
    else DistinctFrom(xs[1..], seen + [xs[0]])
  }
}
