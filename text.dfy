/** Strings as the app uses them: decimal renderings of numbers
    (`String(n)`, `padStart`), and the default ordering of
    `Array.prototype.sort()` on strings (lexicographic character order, which
    is `sort()`'s code-unit order within the Basic Multilingual Plane). */
module Text {
  import opened Wrappers
  import opened Seqs

  predicate IsDigit(c: char) {
    '0' <= c <= '9'
  }

  predicate AllDigits(s: string) {
    forall i :: 0 <= i < |s| ==> IsDigit(s[i])
  }

  function DigitChar(n: nat): (c: char)
    requires n < 10
    ensures IsDigit(c) && c as int - '0' as int == n
  {
    ['0', '1', '2', '3', '4', '5', '6', '7', '8', '9'][n]
  }

  /** `String(n)` for a natural number: its decimal digits, no leading zero. */
  function NatToString(n: nat): (s: string)
    ensures |s| >= 1 && AllDigits(s)
    ensures |s| > 1 ==> s[0] != '0'
    ensures n < 10 <==> |s| == 1
  {
    if n < 10 then [DigitChar(n)] else NatToString(n / 10) + [DigitChar(n % 10)]
  }

  /** The value of a string of decimal digits (`parseInt(s, 10)` on such a string). */
  function ParseDigits(s: string): (n: nat)
    requires AllDigits(s)
  {
    if s == [] then 0
    else ParseDigits(s[..|s| - 1]) * 10 + (s[|s| - 1] as int - '0' as int)
  }

  /** Reading back a rendered natural number gives the number. */
  lemma {:induction false} ParseNatToString(n: nat)
    ensures ParseDigits(NatToString(n)) == n
  {
    if n >= 10 {
      var s := NatToString(n);
      assert s[..|s| - 1] == NatToString(n / 10);
      ParseNatToString(n / 10);
    }
  }

  /** `String(i)` for any integer: a minus sign before the digits of a negative number. */
  function IntToString(i: int): (s: string)
    ensures |s| >= 1
    ensures i < 0 <==> s[0] == '-'
    ensures i >= 0 ==> AllDigits(s)
    ensures i < 0 ==> AllDigits(s[1..]) && |s| >= 2
  {
    if i < 0 then "-" + NatToString(-i) else NatToString(i)
  }

  /** Inverse of IntToString: an optional minus sign, then at least one digit. */
  function ParseInt(s: string): (r: Option<int>)
    ensures r.Some? ==> |s| >= 1
  {
    if |s| >= 2 && s[0] == '-' && AllDigits(s[1..]) then Some(0 - ParseDigits(s[1..]))
    else if |s| >= 1 && AllDigits(s) then Some(ParseDigits(s))
    else None
  }

  lemma ParseIntToString(i: int)
    ensures ParseInt(IntToString(i)) == Some(i)
  {
    if i < 0 {
      ParseNegativeToString(i);
    } else {
      ParseNonNegativeToString(i);
    }
  }

  lemma ParseNegativeToString(i: int)
    requires i < 0
    ensures ParseInt(IntToString(i)) == Some(i)
  {
    var n: nat := -i;
    var d := NatToString(n);
    NegativeToString(i, d);
    ParseNatToString(n);
    ParseNegated(d, n);
  }

  lemma NegativeToString(i: int, d: string)
    requires i < 0 && d == NatToString(-i)
    ensures IntToString(i) == ['-'] + d
  { }

  /** A minus sign before a run of digits reads as the negated number. */
  lemma ParseNegated(d: string, n: nat)
    requires |d| >= 1 && AllDigits(d) && ParseDigits(d) == n
    ensures ParseInt(['-'] + d) == Some(0 - n)
  {
    DropPrepended('-', d);
  }

  lemma ParseNonNegativeToString(i: int)
    requires i >= 0
    ensures ParseInt(IntToString(i)) == Some(i)
  {
    var s := IntToString(i);
    assert s == NatToString(i);
    ParseNatToString(i);
    assert ParseInt(s) == Some(ParseDigits(s));
  }

  /** The value of a two-digit string, digit by digit. */
  lemma TwoDigits(s: string)
    requires |s| == 2 && AllDigits(s)
    ensures ParseDigits(s) == 10 * (s[0] as int - '0' as int) + (s[1] as int - '0' as int)
    ensures 0 <= ParseDigits(s) <= 99
  {
    var init := s[..|s| - 1];
    assert init == [s[0]];
    assert init[..|init| - 1] == [];
    assert ParseDigits(init) == s[0] as int - '0' as int;
  }

  /** `String(n).padStart(2, '0')`. */
  function Pad2(n: nat): (s: string)
    ensures n < 100 ==> |s| == 2 && AllDigits(s) && ParseDigits(s) == n
  {
    var digits := NatToString(n);
    ParseNatToString(n);
    if |digits| < 2 then "0" + digits else digits
  }

  /** The characters `String.prototype.trim` and `parseInt` skip: JavaScript's
      WhiteSpace (tab, vertical tab, form feed, space, no-break space, byte-order
      mark and the Unicode space separators) and LineTerminator characters (line
      feed, carriage return, line and paragraph separators). Tab to carriage
      return are the consecutive code points 9 to 13. */
  predicate IsJsWhitespace(c: char) {
    ('\t' <= c <= '\r') || c == ' ' ||
    ('\U{00A0}' <= c &&
      (c == '\U{00A0}' || c == '\U{1680}' || ('\U{2000}' <= c <= '\U{200A}') ||
       c == '\U{2028}' || c == '\U{2029}' || c == '\U{202F}' || c == '\U{205F}' ||
       c == '\U{3000}' || c == '\U{FEFF}'))
  }

  /** The string without its leading whitespace: a suffix of it. */
  function TrimStart(s: string): (r: string)
    ensures |r| <= |s| && r == s[|s| - |r|..]
  {
    if s != [] && IsJsWhitespace(s[0]) then TrimStart(s[1..]) else s
  }

  /** What TrimStart leaves does not start with whitespace. */
  lemma {:induction false} TrimStartStops(s: string)
    ensures TrimStart(s) == [] || !IsJsWhitespace(TrimStart(s)[0])
  {
    if s != [] && IsJsWhitespace(s[0]) {
      TrimStartStops(s[1..]);
    }
  }

  /** What TrimStart removes is whitespace. */
  lemma {:induction false} TrimStartSkipsWhitespace(s: string)
    ensures forall i :: 0 <= i < |s| - |TrimStart(s)| ==> IsJsWhitespace(s[i])
  {
    if s != [] && IsJsWhitespace(s[0]) {
      TrimStartSkipsWhitespace(s[1..]);
      forall i | 1 <= i < |s| - |TrimStart(s)| ensures IsJsWhitespace(s[i]) {
        assert s[i] == s[1..][i - 1];
      }
    }
  }

  /** The longest prefix made only of decimal digits. */
  function DigitPrefix(s: string): (r: string)
    ensures |r| <= |s| && r == s[..|r|] && AllDigits(r)
    ensures |r| < |s| ==> !IsDigit(s[|r|])
  {
    if s != [] && IsDigit(s[0]) then [s[0]] + DigitPrefix(s[1..]) else []
  }

  /** `parseInt(s, 10)`: leading whitespace is skipped, an optional sign is
      read, then the longest run of digits; no digit at all gives NaN (None). */
  function JsParseInt(s: string): (r: Option<int>)
    ensures s != [] && AllDigits(s) ==> r == Some(ParseDigits(s))
    ensures r.Some? ==> exists i :: 0 <= i < |s| && IsDigit(s[i])
  {
    var u := TrimStart(s);
    var negative := u != [] && u[0] == '-';
    var body := if u != [] && (u[0] == '-' || u[0] == '+') then u[1..] else u;
    var digits := DigitPrefix(body);
    if digits == [] then None
    else
      assert digits[0] == body[0];
      assert s != [] && AllDigits(s) ==> u == s && body == s && digits == s;
      Some(if negative then 0 - ParseDigits(digits) else ParseDigits(digits))
  }

  /** The part of s before its first colon (all of s when there is none): the
      first piece of `s.split(':')`. */
  function BeforeColon(s: string): (r: string)
    ensures |r| <= |s| && r == s[..|r|] && ':' !in r
    ensures |r| < |s| ==> s[|r|] == ':'
  {
    if s == [] || s[0] == ':' then [] else [s[0]] + BeforeColon(s[1..])
  }

  /** Lexicographic character order: equal to the code-unit order of
      `Array.prototype.sort()` with no comparator within the Basic Multilingual
      Plane. */
  predicate StrLess(a: string, b: string) {
    if a == [] then b != []
    else if b == [] then false
    else if a[0] != b[0] then a[0] < b[0]
    else StrLess(a[1..], b[1..])
  }

  predicate StrLeq(a: string, b: string) {
    a == b || StrLess(a, b)
  }

  lemma {:induction false} StrLessIrreflexive(a: string)
    ensures !StrLess(a, a)
  {
    if a != [] {
      StrLessIrreflexive(a[1..]);
    }
  }

  lemma {:induction false} StrLessTransitive(a: string, b: string, c: string)
    requires StrLess(a, b) && StrLess(b, c)
    ensures StrLess(a, c)
  {
    if a != [] && a[0] == b[0] && b[0] == c[0] {
      StrLessTransitive(a[1..], b[1..], c[1..]);
    }
  }

  /** Any two strings are ordered one way or the other, or are equal. */
  lemma {:induction false} StrLessTotal(a: string, b: string)
    ensures StrLess(a, b) || a == b || StrLess(b, a)
  {
    if a != [] && b != [] && a[0] == b[0] {
      StrLessTotal(a[1..], b[1..]);
      if a[1..] == b[1..] {
        assert a == [a[0]] + a[1..] && b == [b[0]] + b[1..];
      }
    }
  }

  predicate Sorted(s: seq<string>) {
    forall i, j :: 0 <= i < j < |s| ==> StrLeq(s[i], s[j])
  }

  predicate StrictlySorted(s: seq<string>) {
    forall i, j :: 0 <= i < j < |s| ==> StrLess(s[i], s[j])
  }

  /** Stable insertion of x into a list: x goes after every element not greater than it. */
  function InsertString(s: seq<string>, x: string): (r: seq<string>)
    ensures multiset(r) == multiset(s) + multiset{x}
  {
    if s == [] then [x]
    else
      var init, last := s[..|s| - 1], s[|s| - 1];
      InitLast(s);
      if StrLess(x, last) then InsertString(init, x) + [last] else s + [x]
  }

  /** A string no smaller than every element of a sorted list may follow it. */
  lemma StrSortedSnoc(r: seq<string>, z: string)
    requires Sorted(r)
    requires forall y :: y in r ==> StrLeq(y, z)
    ensures Sorted(r + [z])
  {
    var t := r + [z];
    forall i, j | 0 <= i < j < |t| ensures StrLeq(t[i], t[j]) {
      if j == |r| {
        assert t[i] == r[i] && r[i] in r;
      } else {
        assert t[i] == r[i] && t[j] == r[j];
      }
    }
  }

  /** The front of a sorted list is sorted and no element of it exceeds the last. */
  lemma StrSortedInitBeforeLast(init: seq<string>, last: string)
    requires Sorted(init + [last])
    ensures Sorted(init)
    ensures forall y :: y in init ==> StrLeq(y, last)
  {
    var s := init + [last];
    forall i, j | 0 <= i < j < |init| ensures StrLeq(init[i], init[j]) {
      assert init[i] == s[i] && init[j] == s[j];
    }
    forall y | y in init ensures StrLeq(y, last) {
      var k :| 0 <= k < |init| && init[k] == y;
      assert s[k] == y && s[|init|] == last;
    }
  }

  /** Inserting a string below z into a list of strings no greater than z
      leaves every element no greater than z. */
  lemma InsertStringBelow(init: seq<string>, x: string, z: string)
    requires forall y :: y in init ==> StrLeq(y, z)
    requires StrLess(x, z)
    ensures forall y :: y in InsertString(init, x) ==> StrLeq(y, z)
  {
    forall y | y in InsertString(init, x) ensures StrLeq(y, z) {
      assert y in multiset(InsertString(init, x));
    }
  }

  /** Insertion keeps a sorted list sorted. */
  lemma {:induction false} InsertStringSorted(s: seq<string>, x: string)
    requires Sorted(s)
    ensures Sorted(InsertString(s, x))
  {
    if s != [] {
      var init, last := s[..|s| - 1], s[|s| - 1];
      InitLast(s);
      StrSortedInitBeforeLast(init, last);
      if StrLess(x, last) {
        InsertStringSorted(init, x);
        InsertStringBelow(init, x, last);
        StrSortedSnoc(InsertString(init, x), last);
      } else {
        StrLessTotal(x, last);
        forall y | y in s ensures StrLeq(y, x) {
          if y != last {
            assert y in init;
            if StrLess(y, last) && StrLess(last, x) {
              StrLessTransitive(y, last, x);
            }
          }
        }
        StrSortedSnoc(s, x);
      }
    }
  }

  /** `[...list].sort()` on strings: a stable sort under StrLess. */
  function SortStrings(s: seq<string>): (r: seq<string>)
    ensures multiset(r) == multiset(s)
    ensures Sorted(r)
  {
    if s == [] then []
    else
      InitLast(s);
      var sorted := SortStrings(s[..|s| - 1]);
      InsertStringSorted(sorted, s[|s| - 1]);
      InsertString(sorted, s[|s| - 1])
  }

  /** A sorted list with no repeated element is strictly ascending. */
  lemma SortedNoDupIsStrict(s: seq<string>)
    requires Sorted(s) && NoDup(s)
    ensures StrictlySorted(s)
  {
  }

  /** A strictly ascending list has no repeated element. */
  lemma StrictIsNoDup(s: seq<string>)
    requires StrictlySorted(s)
    ensures NoDup(s)
  {
    forall i, j | 0 <= i < j < |s| ensures s[i] != s[j] {
      StrLessIrreflexive(s[i]);
    }
  }

  /** No repeated element, stated through the multiset. */
  lemma {:induction false} NoDupMultiset(s: seq<string>)
    ensures NoDup(s) <==> forall y :: multiset(s)[y] <= 1
  {
    if s != [] {
      var t := s[1..];
      assert s == [s[0]] + t;
      NoDupMultiset(t);
      if NoDup(s) {
        assert NoDup(t);
        assert forall k :: 0 <= k < |t| ==> t[k] == s[k + 1] != s[0];
      } else {
        var i, j :| 0 <= i < j < |s| && s[i] == s[j];
        if i == 0 {
          assert s[j] in t;
          assert multiset(s)[s[0]] >= 2;
        } else {
          assert t[i - 1] == t[j - 1];
          assert !NoDup(t);
          var y :| multiset(t)[y] > 1;
          assert multiset(s)[y] > 1;
        }
      }
    }
  }

  /** A subsequence of a strictly ascending list is strictly ascending. */
  lemma SubsequenceStrictlySorted(r: seq<string>, s: seq<string>)
    requires IsSubsequence(r, s) && StrictlySorted(s)
    ensures StrictlySorted(r)
  {
    forall i, j | 0 <= i < j < |r| ensures StrLess(r[i], r[j]) {
      SubsequenceOrder(r, s, i, j);
    }
  }

  /** A list whose neighbours are strictly ascending is strictly ascending. */
  lemma {:induction false} ChainStrictlySorted(s: seq<string>)
    requires forall i :: 0 <= i < |s| - 1 ==> StrLess(s[i], s[i + 1])
    ensures StrictlySorted(s)
  {
    if |s| > 1 {
      var t := s[1..];
      ChainStrictlySorted(t);
      forall j | 1 <= j < |s| ensures StrLess(s[0], s[j]) {
        if j > 1 {
          assert t[0] == s[1] && t[j - 1] == s[j];
          StrLessTransitive(s[0], s[1], s[j]);
        }
      }
      forall i, j | 0 <= i < j < |s| ensures StrLess(s[i], s[j]) {
        if i > 0 {
          assert t[i - 1] == s[i] && t[j - 1] == s[j];
        }
      }
    }
  }
}
