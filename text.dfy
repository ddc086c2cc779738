/** Character and string helpers shared by the parsers and the watch engine.
    Characters stand for single bytes in the C locale: `isspace`, `isdigit`
    and `tolower` are their ASCII versions. */
module Text {
  import opened Wrappers

  /** std::isspace in the C locale: space, \t, \n, \v, \f, \r. */
  predicate IsSpace(c: char)
  {
    c == ' ' || ('\t' <= c <= '\r')
  }

  predicate IsDigit(c: char)
  {
    '0' <= c <= '9'
  }

  /** std::tolower in the C locale. */
  function LowerChar(c: char): (r: char)
    ensures 'A' <= c <= 'Z' ==> r as int == c as int + 32
    ensures !('A' <= c <= 'Z') ==> r == c
  {
    if 'A' <= c <= 'Z' then (c as int + 32) as char else c
  }

  /** A string lower-cased character by character. */
  function Lower(s: string): (r: string)
    ensures |r| == |s|
    ensures forall i :: 0 <= i < |s| ==> r[i] == LowerChar(s[i])
  {
    seq(|s|, i requires 0 <= i < |s| => LowerChar(s[i]))
  }

  /** The lower-casing loop the source writes out: each character of the
      buffer is replaced in place by its lower-case form. */
  method LowerInPlace(value: string) returns (lowered: string)
    ensures lowered == Lower(value)
  {
    var buf := new char[|value|](i requires 0 <= i < |value| => value[i]);
    var i := 0;
    while i < buf.Length
      invariant 0 <= i <= buf.Length
      invariant forall k :: 0 <= k < i ==> buf[k] == LowerChar(value[k])
      invariant forall k :: i <= k < buf.Length ==> buf[k] == value[k]
    {
      buf[i] := LowerChar(buf[i]);
      i := i + 1;
    }
    lowered := buf[..];
  }

  /** sub occurs in s at position i, compared character by character. */
  predicate MatchAt(s: string, sub: string, i: nat)
  {
    i + |sub| <= |s| && forall k :: 0 <= k < |sub| ==> s[i + k] == sub[k]
  }

  lemma MatchAtSlice(s: string, sub: string, i: nat)
    ensures MatchAt(s, sub, i) <==> i + |sub| <= |s| && s[i..i + |sub|] == sub
  {
    if i + |sub| <= |s| && s[i..i + |sub|] == sub {
      forall k | 0 <= k < |sub| ensures s[i + k] == sub[k] {
        assert s[i..i + |sub|][k] == s[i + k];
      }
    }
  }

  /** std::string::find(sub, from) (and QString::indexOf): the first
      position at or after `from` where `sub` occurs, or None for npos. */
  function Find(s: string, sub: string, from: nat): Option<nat>
    decreases |s| - from
  {
    if from + |sub| > |s| then None
    else if MatchAt(s, sub, from) then Some(from)
    else Find(s, sub, from + 1)
  }

  /** Find reports the first match at or after `from`, and None only when
      there is none. */
  lemma {:induction false} FindSpec(s: string, sub: string, from: nat)
    ensures Find(s, sub, from).Some? ==> from <= Find(s, sub, from).value && MatchAt(s, sub, Find(s, sub, from).value)
    ensures Find(s, sub, from).Some? ==> forall j :: from <= j < Find(s, sub, from).value ==> !MatchAt(s, sub, j)
    ensures Find(s, sub, from).None? ==> forall j :: from <= j ==> !MatchAt(s, sub, j)
    decreases |s| - from
  {
    if from + |sub| <= |s| && !MatchAt(s, sub, from) {
      FindSpec(s, sub, from + 1);
    }
  }

  /** std::string::find(c, from) for a single character. */
  function FindChar(s: string, c: char, from: nat): Option<nat>
    decreases |s| - from
  {
    if from >= |s| then None
    else if s[from] == c then Some(from)
    else FindChar(s, c, from + 1)
  }

  lemma {:induction false} FindCharSpec(s: string, c: char, from: nat)
    ensures FindChar(s, c, from).Some? ==>
      from <= FindChar(s, c, from).value < |s| && s[FindChar(s, c, from).value] == c
      && forall j :: from <= j < FindChar(s, c, from).value ==> s[j] != c
    ensures FindChar(s, c, from).None? ==> forall j :: from <= j < |s| ==> s[j] != c
    decreases |s| - from
  {
    if from < |s| && s[from] != c {
      FindCharSpec(s, c, from + 1);
    }
  }

  /** The first occurrence at or after `from` is the one FindChar reports. */
  lemma FindCharFirst(s: string, c: char, from: nat, k: nat)
    requires from <= k < |s| && s[k] == c
    requires forall j :: from <= j < k ==> s[j] != c
    ensures FindChar(s, c, from) == Some(k)
  {
    FindCharSpec(s, c, from);
  }

  /** std::string::substr(pos, count): up to `count` characters from
      `pos`. Positions past the end (where substr throws) do not arise in
      the callers and give the empty string. */
  function Substr(s: string, pos: nat, count: int): (r: string)
    ensures |r| == if pos >= |s| || count <= 0 then 0 else if pos + count <= |s| then count else |s| - pos
    ensures forall i :: 0 <= i < |r| ==> r[i] == s[pos + i]
  {
    if pos >= |s| || count <= 0 then ""
    else seq(if pos + count <= |s| then count else |s| - pos, i requires 0 <= i < |s| - pos => s[pos + i])
  }

  /** The piece found at pos is the piece Substr takes there. */
  lemma SubstrMatch(s: string, pos: nat, sub: string)
    requires MatchAt(s, sub, pos)
    ensures Substr(s, pos, |sub|) == sub
  {
  }

  /** Within bounds, Substr is the slice. */
  lemma SubstrSlice(s: string, pos: nat, count: nat)
    requires pos + count <= |s|
    ensures Substr(s, pos, count) == s[pos..pos + count]
  {
  }

  /** std::string::substr(pos): everything from `pos` on. */
  function SubstrFrom(s: string, pos: nat): (r: string)
    ensures pos <= |s| ==> r == s[pos..]
  {
    if pos >= |s| then "" else s[pos..]
  }

  predicate Contains(s: string, sub: string)
  {
    Find(s, sub, 0).Some?
  }

  lemma ContainsIff(s: string, sub: string)
    ensures Contains(s, sub) <==> exists j :: MatchAt(s, sub, j)
  {
    FindSpec(s, sub, 0);
    if !Contains(s, sub) {
      forall j ensures !MatchAt(s, sub, j) { }
    }
  }

  /** Where Find reports a match, there is one. */
  lemma FindMatch(s: string, sub: string, from: nat)
    requires Find(s, sub, from).Some?
    ensures from <= Find(s, sub, from).value && MatchAt(s, sub, Find(s, sub, from).value)
  {
    FindSpec(s, sub, from);
  }

  /** Two pieces matched back to back match as one. */
  lemma MatchConcat(s: string, i: nat, a: string, b: string)
    requires MatchAt(s, a, i) && MatchAt(s, b, i + |a|)
    ensures MatchAt(s, a + b, i)
  {
    forall k | 0 <= k < |a + b| ensures s[i + k] == (a + b)[k] {
      if k >= |a| {
        assert s[(i + |a|) + (k - |a|)] == b[k - |a|];
      }
    }
  }

  /** A match anywhere means the string contains the piece. */
  lemma MatchContains(s: string, sub: string, j: nat)
    requires MatchAt(s, sub, j)
    ensures Contains(s, sub)
  {
    FindSpec(s, sub, 0);
  }

  /** A two-character separator with two different characters, written
      after a text that does not contain it, is found right there. */
  lemma FindJunction(a: string, sep: string, b: string)
    requires |sep| == 2 && sep[0] != sep[1] && !Contains(a, sep)
    ensures Find(a + sep + b, sep, 0) == Some(|a|)
  {
    var s := a + sep + b;
    assert MatchAt(s, sep, |a|) by {
      assert s[|a| + 0] == sep[0] && s[|a| + 1] == sep[1];
    }
    ContainsIff(a, sep);
    forall j | 0 <= j < |a| ensures !MatchAt(s, sep, j) {
      if j < |a| - 1 {
        assert !MatchAt(a, sep, j);
        assert s[j + 0] == a[j + 0] && s[j + 1] == a[j + 1];
      } else {
        assert s[j + 1] == sep[0];
      }
    }
    FindFirst(s, sep, 0, |a|);
  }

  /** Whatever contains a + b contains a. */
  lemma ContainsPrefix(s: string, a: string, b: string)
    requires Contains(s, a + b)
    ensures Contains(s, a)
  {
    FindSpec(s, a + b, 0);
    var j := Find(s, a + b, 0).value;
    forall k | 0 <= k < |a| ensures s[j + k] == a[k] {
      assert (a + b)[k] == a[k];
    }
    MatchContains(s, a, j);
  }

  /** The first match at or after `from` is the one Find reports. */
  lemma FindFirst(s: string, sub: string, from: nat, k: nat)
    requires from <= k && MatchAt(s, sub, k)
    requires forall j :: from <= j < k ==> !MatchAt(s, sub, j)
    ensures Find(s, sub, from) == Some(k)
  {
    FindSpec(s, sub, from);
  }

  lemma MatchAtChar(s: string, c: char, j: nat)
    ensures MatchAt(s, [c], j) <==> j < |s| && s[j] == c
  {
    if MatchAt(s, [c], j) {
      assert s[j + 0] == [c][0];
    }
  }

  /** The number of whitespace characters at the front of s. */
  function LeadingSpaces(s: string): (n: nat)
    ensures n <= |s|
  {
    if |s| > 0 && IsSpace(s[0]) then 1 + LeadingSpaces(s[1..]) else 0
  }

  /** The leading run is all whitespace and is followed by none. */
  lemma {:induction false} LeadingSpacesSpec(s: string)
    ensures forall k :: 0 <= k < LeadingSpaces(s) ==> IsSpace(s[k])
    ensures LeadingSpaces(s) < |s| ==> !IsSpace(s[LeadingSpaces(s)])
  {
    if |s| > 0 && IsSpace(s[0]) {
      LeadingSpacesSpec(s[1..]);
      forall k | 0 < k < LeadingSpaces(s) ensures IsSpace(s[k]) {
        assert s[k] == s[1..][k - 1];
      }
    }
  }

  /** s without its leading and trailing whitespace. */
  function Trimmed(s: string): string
    decreases |s|
  {
    if |s| > 0 && IsSpace(s[0]) then Trimmed(s[1..])
    else if |s| > 0 && IsSpace(s[|s| - 1]) then Trimmed(s[..|s| - 1])
    else s
  }

  /** Neither end of t is whitespace. */
  predicate IsTrimmed(t: string)
  {
    t != [] ==> !IsSpace(t[0]) && !IsSpace(t[|t| - 1])
  }

  /** Trimming leaves no whitespace at either end. */
  lemma {:induction false} TrimmedIsTrimmed(s: string)
    ensures IsTrimmed(Trimmed(s))
    decreases |s|
  {
    if |s| > 0 && IsSpace(s[0]) {
      TrimmedIsTrimmed(s[1..]);
    } else if |s| > 0 && IsSpace(s[|s| - 1]) {
      TrimmedIsTrimmed(s[..|s| - 1]);
    }
  }

  /** Trimming keeps exactly s[i..j] when everything before i and from j
      on is whitespace and the kept piece neither starts nor ends with
      whitespace. */
  lemma {:induction false} TrimmedSpec(s: string, i: nat, j: nat)
    requires i <= j <= |s|
    requires forall k :: 0 <= k < i ==> IsSpace(s[k])
    requires forall k :: j <= k < |s| ==> IsSpace(s[k])
    requires i < j ==> !IsSpace(s[i]) && !IsSpace(s[j - 1])
    ensures Trimmed(s) == s[i..j]
    decreases |s|
  {
    if |s| > 0 && IsSpace(s[0]) {
      var u := s[1..];
      if i > 0 {
        TrimmedSpec(u, i - 1, j - 1);
        assert u[i - 1..j - 1] == s[i..j];
      } else {
        assert j == 0;
        TrimmedSpec(u, 0, 0);
      }
    } else if |s| > 0 && IsSpace(s[|s| - 1]) {
      var u := s[..|s| - 1];
      assert j < |s|;
      TrimmedSpec(u, i, j);
      assert u[i..j] == s[i..j];
    } else if |s| > 0 {
      assert i == 0 && j == |s|;
    }
  }

  /** A string with no whitespace at either end trims to itself. */
  lemma TrimmedOfTrimmed(t: string)
    requires IsTrimmed(t)
    ensures Trimmed(t) == t
  {
    TrimmedSpec(t, 0, |t|);
    assert t[0..|t|] == t;
  }

  /** Whitespace around a piece that does not start or end with
      whitespace is exactly what trimming removes. */
  lemma PaddedTrimmed(sp1: string, t: string, sp2: string)
    requires forall k :: 0 <= k < |sp1| ==> IsSpace(sp1[k])
    requires forall k :: 0 <= k < |sp2| ==> IsSpace(sp2[k])
    requires IsTrimmed(t)
    ensures Trimmed(sp1 + t + sp2) == t
  {
    var s := sp1 + t + sp2;
    forall k | |sp1| + |t| <= k < |s| ensures IsSpace(s[k]) {
      assert s[k] == sp2[k - |sp1| - |t|];
    }
    TrimmedSpec(s, |sp1|, |sp1| + |t|);
    assert s[|sp1|..|sp1| + |t|] == t;
  }

  /** The digits of a non-negative number, most significant first. */
  function NatToString(n: nat): (r: string)
    ensures |r| > 0 && forall k :: 0 <= k < |r| ==> IsDigit(r[k])
  {
    if n < 10 then [('0' as int + n) as char]
    else NatToString(n / 10) + [('0' as int + n % 10) as char]
  }

  /** std::to_string for a signed integer. */
  function IntToString(n: int): string
  {
    if n < 0 then "-" + NatToString(-n) else NatToString(n)
  }

  function DigitsValue(s: string): nat
    requires forall k :: 0 <= k < |s| ==> IsDigit(s[k])
  {
    if s == [] then 0
    else
      assert IsDigit(s[|s| - 1]);
      10 * DigitsValue(s[..|s| - 1]) + (s[|s| - 1] as int - '0' as int)
  }

  lemma {:induction false} NatToStringRoundTrip(n: nat)
    ensures DigitsValue(NatToString(n)) == n
  {
    if n >= 10 {
      NatToStringRoundTrip(n / 10);
      var s := NatToString(n);
      assert s[..|s| - 1] == NatToString(n / 10);
    }
  }

  /** The number of leading digits of s. */
  function DigitRun(s: string): (n: nat)
    ensures n <= |s|
    ensures forall k :: 0 <= k < n ==> IsDigit(s[k])
    ensures n < |s| ==> !IsDigit(s[n])
  {
    if |s| > 0 && IsDigit(s[0]) then 1 + DigitRun(s[1..]) else 0
  }

  /** The integer prefix that std::stoi / std::stoll read: leading
      whitespace, an optional sign, then at least one digit; anything after
      the digits is ignored. None where they throw invalid_argument. The
      range check (out_of_range) is left to the caller. */
  function LeadingInteger(s: string): (r: Option<int>)
  {
    var rest := s[LeadingSpaces(s)..];
    var negative := |rest| > 0 && rest[0] == '-';
    var unsigned := if |rest| > 0 && (rest[0] == '-' || rest[0] == '+') then rest[1..] else rest;
    var n := DigitRun(unsigned);
    if n == 0 then None
    else
      var v: int := DigitsValue(unsigned[..n]);
      Some(if negative then -v else v)
  }

  lemma {:induction false} LeadingIntegerOfDigits(n: nat)
    ensures LeadingInteger(NatToString(n)) == Some(n)
  {
    var s := NatToString(n);
    assert LeadingSpaces(s) == 0 by { assert !IsSpace(s[0]); }
    assert s[0..] == s;
    DigitRunAll(s);
    assert s[..|s|] == s;
    NatToStringRoundTrip(n);
  }

  lemma DigitRunAll(s: string)
    requires forall k :: 0 <= k < |s| ==> IsDigit(s[k])
    ensures DigitRun(s) == |s|
  {
    if |s| > 0 {
      DigitRunAll(s[1..]);
    }
  }

  /** Elements joined with a separator. */
  function Join(parts: seq<string>, sep: string): string
  {
    if |parts| == 0 then ""
    else if |parts| == 1 then parts[0]
    else parts[0] + sep + Join(parts[1..], sep)
  }

  /** Joining one more element adds the separator and the element. */
  lemma {:induction false} JoinSnoc(xs: seq<string>, x: string, sep: string)
    ensures Join(xs + [x], sep) == if xs == [] then x else Join(xs, sep) + sep + x
  {
    if |xs| > 1 {
      JoinSnoc(xs[1..], x, sep);
      assert (xs + [x])[1..] == xs[1..] + [x];
    } else if |xs| == 1 {
      assert (xs + [x])[1..] == [x];
    }
  }

  predicate StartsWith(s: string, prefix: string)
  {
    |prefix| <= |s| && s[..|prefix|] == prefix
  }

  /* ---------------- Ordering ---------------- */

  /** std::string's operator<: lexicographic by character, a proper
      prefix first. */
  predicate StringLess(a: string, b: string)
  {
    if a == [] then b != []
    else if b == [] then false
    else a[0] < b[0] || (a[0] == b[0] && StringLess(a[1..], b[1..]))
  }

  lemma {:induction false} StringLessIrreflexive(a: string)
    ensures !StringLess(a, a)
  {
    if a != [] {
      StringLessIrreflexive(a[1..]);
    }
  }

  lemma {:induction false} StringLessAsymmetric(a: string, b: string)
    ensures !(StringLess(a, b) && StringLess(b, a))
  {
    if a != [] && b != [] && a[0] == b[0] {
      StringLessAsymmetric(a[1..], b[1..]);
    }
  }

  lemma {:induction false} StringLessTransitive(a: string, b: string, c: string)
    requires StringLess(a, b) && StringLess(b, c)
    ensures StringLess(a, c)
  {
    if a != [] && a[0] == b[0] && b[0] == c[0] {
      StringLessTransitive(a[1..], b[1..], c[1..]);
    }
  }

  lemma {:induction false} StringLessTotal(a: string, b: string)
    requires a != b
    ensures StringLess(a, b) || StringLess(b, a)
  {
    if a != [] && b != [] && a[0] == b[0] {
      assert a == [a[0]] + a[1..] && b == [b[0]] + b[1..];
      StringLessTotal(a[1..], b[1..]);
    }
  }
}
