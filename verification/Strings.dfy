/**
  The string and decimal operations of the source's language that the cache
  keys and the request parameters go through.  A string is a sequence of
  characters; printing and parsing follow strconv.Itoa and strconv.Atoi on a
  64-bit int.
*/
module Strings {
  import opened Wrappers

  const MAX_INT64 := 0x7fff_ffff_ffff_ffff
  const MIN_INT64 := -0x8000_0000_0000_0000

  predicate HasPrefix(s: string, prefix: string) {
    prefix <= s
  }

  predicate NoColon(s: string) {
    ':' !in s
  }

  /** Index of the first c, or |s| when there is none. */
  function IndexOf(s: string, c: char): (i: nat)
    ensures i <= |s| && c !in s[..i] && (i < |s| ==> s[i] == c)
  {
    if s == [] then 0
    else if s[0] == c then 0
    else
      var i := IndexOf(s[1..], c);
      assert s[..i + 1] == [s[0]] + s[1..][..i];
      i + 1
  }

  lemma IndexFound(s: string, c: char)
    ensures IndexOf(s, c) < |s| <==> c in s
  {
    if IndexOf(s, c) == |s| {
      assert s[..|s|] == s;
    }
  }

  lemma IndexOfSplit(a: string, c: char, b: string)
    requires c !in a
    ensures IndexOf(a + [c] + b, c) == |a|
  {
    var s := a + [c] + b;
    var i := IndexOf(s, c);
    assert s[|a|] == c;
    assert forall k :: 0 <= k < |a| ==> s[k] == a[k];
    assert forall k :: 0 <= k < i ==> s[..i][k] == s[k];
  }

  /** Two strings split at their first colon agree piece by piece. */
  lemma FirstColonSplit(a: string, b: string, c: string, d: string)
    requires NoColon(a) && NoColon(c)
    requires a + ":" + b == c + ":" + d
    ensures a == c && b == d
  {
    IndexOfSplit(a, ':', b);
    IndexOfSplit(c, ':', d);
    var s := a + ":" + b;
    assert s[..|a|] == a && s[|a| + 1..] == b;
    assert s[..|c|] == c && s[|c| + 1..] == d;
  }

  lemma LastColonLength(a: string, b: string, c: string, d: string)
    requires NoColon(b)
    requires a + ":" + b == c + ":" + d
    ensures |a| >= |c|
  {
    var s := a + ":" + b;
    assert s == c + ":" + d;
    assert s[|c|] == ':';
    assert forall k :: |a| < k < |s| ==> s[k] == b[k - |a| - 1];
  }

  /** Two strings split at their last colon agree piece by piece. */
  lemma LastColonSplit(a: string, b: string, c: string, d: string)
    requires NoColon(b) && NoColon(d)
    requires a + ":" + b == c + ":" + d
    ensures a == c && b == d
  {
    LastColonLength(a, b, c, d);
    LastColonLength(c, d, a, b);
    var s := a + ":" + b;
    assert s[..|a|] == a && s[|a| + 1..] == b;
    assert s[..|c|] == c && s[|c| + 1..] == d;
  }

  // ---------- trimming and splitting ----------

  /** The white space that strings.TrimSpace removes. */
  predicate IsSpace(c: char) {
    || '\t' <= c <= '\r' || c == ' '
    || c == '\U{85}' || c == '\U{A0}' || c == '\U{1680}'
    || '\U{2000}' <= c <= '\U{200A}'
    || c == '\U{2028}' || c == '\U{2029}' || c == '\U{202F}' || c == '\U{205F}' || c == '\U{3000}'
  }

  function TrimLeft(s: string): string {
    if s != [] && IsSpace(s[0]) then TrimLeft(s[1..]) else s
  }

  function TrimRight(s: string): string {
    if s != [] && IsSpace(s[|s| - 1]) then TrimRight(s[..|s| - 1]) else s
  }

  function TrimSpace(s: string): string {
    TrimRight(TrimLeft(s))
  }

  /** strings.Split with a one-character separator. */
  function Split(s: string, c: char): (parts: seq<string>)
    ensures |parts| > 0
    ensures forall i :: 0 <= i < |parts| ==> c !in parts[i]
    decreases |s|
  {
    var i := IndexOf(s, c);
    if i == |s| then
      assert s[..i] == s;
      [s]
    else [s[..i]] + Split(s[i + 1..], c)
  }

  /** A stretch of s between two separators or ends. */
  predicate Stretch(s: string, c: char, i: nat, j: nat) {
    && i <= j <= |s| && c !in s[i..j]
    && (i == 0 || s[i - 1] == c)
    && (j == |s| || s[j] == c)
  }

  ghost predicate IsStretch(s: string, c: char, x: string) {
    exists i: nat, j: nat :: Stretch(s, c, i, j) && s[i..j] == x
  }

  lemma FirstStretch(s: string, c: char, j: nat)
    ensures Stretch(s, c, 0, j) <==> j == IndexOf(s, c)
  {
    var i := IndexOf(s, c);
    assert s[0..i] == s[..i];
    assert forall k :: 0 <= k < i ==> s[..i][k] == s[k];
    assert j <= |s| ==> forall k :: 0 <= k < j ==> s[0..j][k] == s[k];
  }

  lemma SliceOfTail(s: string, n: nat, i: nat, j: nat)
    requires n <= i <= j <= |s|
    ensures s[i..j] == s[n..][i - n..j - n]
  {
  }

  /** Any other stretch lies behind the first separator. */
  lemma StretchInTail(s: string, c: char, i: nat, j: nat)
    requires Stretch(s, c, i, j) && 0 < i && IndexOf(s, c) < |s|
    ensures var n := IndexOf(s, c) + 1;
            n <= i && Stretch(s[n..], c, i - n, j - n) && s[i..j] == s[n..][i - n..j - n]
  {
    var n := IndexOf(s, c) + 1;
    assert forall m :: 0 <= m < n - 1 ==> s[..n - 1][m] == s[m];
    SliceOfTail(s, n, i, j);
  }

  lemma StretchFromTail(s: string, c: char, n: nat, i: nat, j: nat)
    requires 0 < n <= |s| && s[n - 1] == c && Stretch(s[n..], c, i, j)
    ensures Stretch(s, c, i + n, j + n) && s[i + n..j + n] == s[n..][i..j]
  {
    SliceOfTail(s, n, i + n, j + n);
  }

  /** strings.Split lists exactly the stretches between separators. */
  lemma {:induction false} SplitIsStretches(s: string, c: char, x: string)
    ensures x in Split(s, c) <==> IsStretch(s, c, x)
    decreases |s|
  {
    if IndexOf(s, c) == |s| {
      OnlyStretch(s, c, x);
    } else {
      SplitIsStretches(s[IndexOf(s, c) + 1..], c, x);
      StretchOrLater(s, c, x);
    }
  }

  lemma OnlyStretch(s: string, c: char, x: string)
    requires IndexOf(s, c) == |s|
    ensures IsStretch(s, c, x) <==> x == s
  {
    FirstStretch(s, c, |s|);
    assert s[0..|s|] == s && s[..|s|] == s;
    if IsStretch(s, c, x) {
      var i: nat, j: nat :| Stretch(s, c, i, j) && s[i..j] == x;
      assert c !in s;
      FirstStretch(s, c, j);
    }
  }

  lemma StretchOrLater(s: string, c: char, x: string)
    requires IndexOf(s, c) < |s|
    ensures IsStretch(s, c, x) <==> x == s[..IndexOf(s, c)] || IsStretch(s[IndexOf(s, c) + 1..], c, x)
  {
    if IsStretch(s, c, x) {
      FirstOrLater(s, c, x);
    }
    if x == s[..IndexOf(s, c)] {
      FirstStretch(s, c, IndexOf(s, c));
      assert s[0..IndexOf(s, c)] == x;
    }
    if IsStretch(s[IndexOf(s, c) + 1..], c, x) {
      LaterIsStretch(s, c, IndexOf(s, c) + 1, x);
    }
  }

  lemma FirstOrLater(s: string, c: char, x: string)
    requires IndexOf(s, c) < |s| && IsStretch(s, c, x)
    ensures x == s[..IndexOf(s, c)] || IsStretch(s[IndexOf(s, c) + 1..], c, x)
  {
    var i: nat, j: nat :| Stretch(s, c, i, j) && s[i..j] == x;
    if i == 0 {
      FirstStretch(s, c, j);
      assert s[0..j] == s[..j];
    } else {
      StretchInTail(s, c, i, j);
    }
  }

  lemma LaterIsStretch(s: string, c: char, n: nat, x: string)
    requires 0 < n <= |s| && s[n - 1] == c && IsStretch(s[n..], c, x)
    ensures IsStretch(s, c, x)
  {
    var i: nat, j: nat :| Stretch(s[n..], c, i, j) && s[n..][i..j] == x;
    StretchFromTail(s, c, n, i, j);
  }

  /** TrimSpace takes away white space at both ends and nothing else. */
  lemma TrimSpaceMeans(s: string) returns (left: string, right: string)
    ensures s == left + TrimSpace(s) + right
    ensures (forall i :: 0 <= i < |left| ==> IsSpace(left[i])) && forall i :: 0 <= i < |right| ==> IsSpace(right[i])
    ensures TrimSpace(s) != "" ==> !IsSpace(TrimSpace(s)[0]) && !IsSpace(TrimSpace(s)[|TrimSpace(s)| - 1])
  {
    left := TrimLeftMeans(s);
    right := TrimRightMeans(TrimLeft(s));
  }

  lemma {:induction false} TrimLeftMeans(s: string) returns (left: string)
    ensures s == left + TrimLeft(s)
    ensures forall i :: 0 <= i < |left| ==> IsSpace(left[i])
    ensures TrimLeft(s) != "" ==> !IsSpace(TrimLeft(s)[0])
  {
    left := "";
    if s != "" && IsSpace(s[0]) {
      var rest := TrimLeftMeans(s[1..]);
      left := [s[0]] + rest;
    }
  }

  lemma {:induction false} TrimRightMeans(s: string) returns (right: string)
    ensures s == TrimRight(s) + right
    ensures forall i :: 0 <= i < |right| ==> IsSpace(right[i])
    ensures TrimRight(s) != "" ==> !IsSpace(TrimRight(s)[|TrimRight(s)| - 1]) && TrimRight(s)[0] == s[0]
  {
    right := "";
    if s != "" && IsSpace(s[|s| - 1]) {
      var n := |s| - 1;
      var rest := TrimRightMeans(s[..n]);
      right := rest + [s[n]];
    }
  }

  // ---------- decimal printing and parsing ----------

  predicate IsDigit(c: char) {
    '0' <= c <= '9'
  }

  predicate AllDigits(s: string) {
    forall i :: 0 <= i < |s| ==> IsDigit(s[i])
  }

  function DigitChar(d: nat): (c: char)
    requires d < 10
    ensures IsDigit(c) && DigitValue(c) == d
  {
    ('0' as int + d) as char
  }

  function DigitValue(c: char): (d: nat)
    requires IsDigit(c)
    ensures d < 10
  {
    c as int - '0' as int
  }

  function Digits(n: nat): (s: string)
    ensures |s| > 0 && AllDigits(s)
    ensures n > 0 ==> s[0] != '0'
  {
    if n < 10 then [DigitChar(n)] else Digits(n / 10) + [DigitChar(n % 10)]
  }

  function Value(s: string): nat
    requires AllDigits(s)
  {
    if s == [] then 0 else 10 * Value(s[..|s| - 1]) + DigitValue(s[|s| - 1])
  }

  lemma {:induction false} DigitsValue(n: nat)
    ensures Value(Digits(n)) == n
  {
    var s := Digits(n);
    if n < 10 {
      assert s[..|s| - 1] == [];
      assert Value(s[..|s| - 1]) == 0;
    } else {
      DigitsValue(n / 10);
      assert s[..|s| - 1] == Digits(n / 10);
    }
  }

  function Itoa(n: int): (s: string)
    ensures s != "" && NoColon(s)
  {
    if n < 0 then "-" + Digits(-n) else Digits(n)
  }

  /** strconv.Atoi: an optional sign and at least one digit, within 64 bits. */
  function Atoi(s: string): (r: Option<int>)
    ensures r.Some? ==> NoColon(s) && s != ""
  {
    var signed := s != "" && (s[0] == '-' || s[0] == '+');
    var digits := if signed then s[1..] else s;
    if digits == "" || !AllDigits(digits) then None
    else
      assert forall i :: 0 <= i < |s| ==>
                           s[i] == (if signed && i == 0 then s[0] else if signed then digits[i - 1] else digits[i]);
      var magnitude: int := Value(digits);
      var v := if signed && s[0] == '-' then -magnitude else magnitude;
      if MIN_INT64 <= v <= MAX_INT64 then Some(v) else None
  }

  /** Printing then parsing gives the number back, so printing is injective. */
  lemma AtoiItoa(n: int)
    requires MIN_INT64 <= n <= MAX_INT64
    ensures Atoi(Itoa(n)) == Some(n)
  {
    var s, digits := Itoa(n), Digits(if n < 0 then -n else n);
    DigitsValue(if n < 0 then -n else n);
    if n < 0 {
      assert s[0] == '-' && s[1..] == digits;
    } else {
      assert IsDigit(s[0]) && s == digits;
    }
  }

  lemma ItoaInjective(m: int, n: int)
    requires Itoa(m) == Itoa(n)
    ensures m == n
  {
    assert IsDigit(Digits(if m < 0 then -m else m)[0]);
    assert IsDigit(Digits(if n < 0 then -n else n)[0]);
    if m < 0 {
      assert Itoa(m)[1..] == Digits(-m);
      assert Itoa(n)[1..] == Digits(-n);
      DigitsValue(-m);
      DigitsValue(-n);
    } else {
      DigitsValue(m);
      DigitsValue(n);
    }
  }
}
