/** The few string operations the port list is read and written with: Go's strings and strconv packages. */
module Text {
  import opened Int64
  import opened Paths

  /** The characters of Unicode's White_Space property, which is what TrimSpace removes. */
  predicate IsSpace(c: char) {
    c in {'\t', '\n', '\U{0B}', '\U{0C}', '\r', ' ', '\U{85}', '\U{A0}', '\U{1680}',
          '\U{2028}', '\U{2029}', '\U{202F}', '\U{205F}', '\U{3000}'} ||
    '\U{2000}' <= c <= '\U{200A}'
  }

  function TrimLeft(s: string): string {
    if s != "" && IsSpace(s[0]) then TrimLeft(s[1..]) else s
  }

  function TrimRight(s: string): string {
    if s != "" && IsSpace(s[|s| - 1]) then TrimRight(s[..|s| - 1]) else s
  }

  function TrimSpace(s: string): string { TrimRight(TrimLeft(s)) }

  /** Where c first stands in s, or the length of s. */
  function Index(s: string, c: char): (i: nat)
    ensures i <= |s| && (i < |s| ==> s[i] == c) && forall k :: 0 <= k < i ==> s[k] != c
  {
    if s == "" || s[0] == c then 0 else 1 + Index(s[1..], c)
  }

  function Split(s: string, c: char): seq<string>
    decreases |s|
  {
    var i := Index(s, c);
    if i == |s| then [s] else [s[..i]] + Split(s[i + 1..], c)
  }

  function JoinWith(parts: seq<string>, c: char): string {
    if parts == [] then ""
    else if |parts| == 1 then parts[0]
    else parts[0] + [c] + JoinWith(parts[1..], c)
  }

  predicate IsDigit(c: char) { '0' <= c <= '9' }

  predicate AllDigits(s: string) {
    forall k :: 0 <= k < |s| ==> IsDigit(s[k])
  }

  function DigitOf(c: char): nat
    requires IsDigit(c)
  {
    c as int - '0' as int
  }

  function Value(digits: string): nat
    requires AllDigits(digits)
  {
    if digits == "" then 0
    else 10 * Value(digits[..|digits| - 1]) + DigitOf(digits[|digits| - 1])
  }

  function Digits(n: nat): (s: string)
    ensures s != "" && AllDigits(s)
  {
    var last := [('0' as int + n % 10) as char];
    if n < 10 then last else Digits(n / 10) + last
  }

  function Itoa(n: int): string {
    if n < 0 then "-" + Digits(-n) else Digits(n)
  }

  /** strconv.Atoi on a 64-bit host: a sign, digits, and a value that fits. */
  function Atoi(s: string): Option<int> {
    var signed := s != "" && (s[0] == '-' || s[0] == '+');
    var digits := if signed then s[1..] else s;
    if digits == "" || !AllDigits(digits) then None
    else
      var n: int := Value(digits);
      var v := if signed && s[0] == '-' then -n else n;
      if -TWO_TO_63 <= v < TWO_TO_63 then Some(v) else None
  }

  lemma {:induction false} DigitsKeepTheValue(n: nat)
    ensures Value(Digits(n)) == n
  {
    if n >= 10 {
      DigitsKeepTheValue(n / 10);
      assert Digits(n)[..|Digits(n)| - 1] == Digits(n / 10);
    } else {
      assert Digits(n)[..0] == "";
    }
  }

  lemma AtoiReadsItoa(n: nat)
    requires n < TWO_TO_63
    ensures Atoi(Itoa(n)) == Some(n)
  {
    DigitsKeepTheValue(n);
    assert IsDigit(Itoa(n)[0]);
  }

  lemma NothingToTrim(s: string)
    requires s != "" ==> !IsSpace(s[0]) && !IsSpace(s[|s| - 1])
    ensures TrimSpace(s) == s
  {
  }

  lemma {:induction false} IndexOfTheJoint(a: string, c: char, b: string)
    requires c !in a
    ensures Index(a + [c] + b, c) == |a|
  {
    var s := a + [c] + b;
    assert s[|a|] == c;
    assert forall k :: 0 <= k < |a| ==> s[k] == a[k];
  }

  lemma IndexOfNothing(a: string, c: char)
    requires c !in a
    ensures Index(a, c) == |a|
  {
  }

  /** Splitting undoes joining, as long as no part holds the separator. */
  lemma {:induction false} SplitUndoesJoin(parts: seq<string>, c: char)
    requires parts != [] && forall k :: 0 <= k < |parts| ==> c !in parts[k]
    ensures Split(JoinWith(parts, c), c) == parts
  {
    var head, tail := parts[0], parts[1..];
    if tail == [] {
      IndexOfNothing(head, c);
    } else {
      SplitUndoesJoin(tail, c);
      var rest := JoinWith(tail, c);
      IndexOfTheJoint(head, c, rest);
      var s := head + [c] + rest;
      assert s[..|head|] == head && s[|head| + 1..] == rest;
    }
  }

  // ---- what trimming and reading a number mean ----

  predicate AllSpaces(s: string) {
    forall k :: 0 <= k < |s| ==> IsSpace(s[k])
  }

  lemma {:induction false} TrimLeftTakes(s: string) returns (spaces: string)
    ensures AllSpaces(spaces) && s == spaces + TrimLeft(s)
    ensures TrimLeft(s) != "" ==> !IsSpace(TrimLeft(s)[0])
  {
    if s != "" && IsSpace(s[0]) {
      var more := TrimLeftTakes(s[1..]);
      spaces := [s[0]] + more;
    } else {
      spaces := "";
    }
  }

  lemma {:induction false} TrimRightTakes(s: string) returns (spaces: string)
    ensures AllSpaces(spaces) && s == TrimRight(s) + spaces
    ensures TrimRight(s) != "" ==> !IsSpace(TrimRight(s)[|TrimRight(s)| - 1])
  {
    if s != "" && IsSpace(s[|s| - 1]) {
      var more := TrimRightTakes(s[..|s| - 1]);
      spaces := more + [s[|s| - 1]];
    } else {
      spaces := "";
    }
  }

  /** What is trimmed off either end is space and nothing else, and none is left there. */
  lemma TrimSpaceTakes(s: string) returns (before: string, after: string)
    ensures AllSpaces(before) && AllSpaces(after) && s == before + TrimSpace(s) + after
    ensures var t := TrimSpace(s); t != "" ==> !IsSpace(t[0]) && !IsSpace(t[|t| - 1])
  {
    before := TrimLeftTakes(s);
    after := TrimRightTakes(TrimLeft(s));
    assert TrimSpace(s) != "" ==> TrimSpace(s)[0] == TrimLeft(s)[0];
  }

  /** So a text that neither begins nor ends in space is what trimming leaves of it among any spaces. */
  lemma TrimmedOfSpaces(before: string, t: string, after: string)
    requires AllSpaces(before) && AllSpaces(after) && t != "" && !IsSpace(t[0]) && !IsSpace(t[|t| - 1])
    ensures TrimSpace(before + t + after) == t
  {
    SkipsSpaces(before, t + after);
    assert before + t + after == before + (t + after);
    assert TrimLeft(t + after) == t + after;
    DropsSpaces(t, after);
  }

  lemma {:induction false} SkipsSpaces(before: string, t: string)
    requires AllSpaces(before)
    ensures TrimLeft(before + t) == TrimLeft(t)
  {
    if before == "" {
      assert before + t == t;
    } else {
      assert (before + t)[1..] == before[1..] + t;
      SkipsSpaces(before[1..], t);
    }
  }

  lemma {:induction false} DropsSpaces(t: string, after: string)
    requires AllSpaces(after) && t != "" && !IsSpace(t[|t| - 1])
    ensures TrimRight(t + after) == t
  {
    if after == "" {
      assert t + after == t;
    } else {
      var n := |after| - 1;
      assert (t + after)[..|t| + n] == t + after[..n];
      DropsSpaces(t, after[..n]);
    }
  }

  /** A number is read exactly from a sign, or none, before digits, and is what the digits are worth. */
  lemma AtoiReads(s: string, v: int)
    ensures Atoi(s) == Some(v) <==>
              -TWO_TO_63 <= v < TWO_TO_63 &&
              ((s != "" && AllDigits(s) && v == Value(s)) ||
               (|s| > 1 && AllDigits(s[1..]) && s[0] == '+' && v == Value(s[1..])) ||
               (|s| > 1 && AllDigits(s[1..]) && s[0] == '-' && -v == Value(s[1..])))
  {
    if s != "" && (s[0] == '-' || s[0] == '+') {
      assert !IsDigit(s[0]) && !AllDigits(s);
      SignedReads(s, v);
    } else if s != "" && AllDigits(s) {
      assert Atoi(s) == if Value(s) < TWO_TO_63 then Some(Value(s)) else None;
    }
  }

  lemma SignedReads(s: string, v: int)
    requires s != "" && (s[0] == '-' || s[0] == '+')
    ensures Atoi(s) == Some(v) <==>
              |s| > 1 && AllDigits(s[1..]) && -TWO_TO_63 <= v < TWO_TO_63 &&
              (if s[0] == '-' then -v else v) == Value(s[1..])
  {
  }

  /** Digits are worth what their places make them. */
  lemma {:induction false} ValueByPlaces(a: string, b: string)
    requires AllDigits(a) && AllDigits(b)
    ensures AllDigits(a + b) && Value(a + b) == Value(a) * Power(|b|) + Value(b)
  {
    if b == "" {
      assert a + b == a;
    } else {
      var n := |b| - 1;
      assert (a + b)[..|a| + n] == a + b[..n];
      ValueByPlaces(a, b[..n]);
      TenTimes(Value(a), Power(n));
    }
  }

  lemma TenTimes(x: nat, y: nat)
    ensures x * (10 * y) == 10 * (x * y)
  {
  }

  function Power(n: nat): nat { if n == 0 then 1 else 10 * Power(n - 1) }
}
