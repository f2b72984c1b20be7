// String operations of the Go standard library that the rule parser, the
// rule file and the address parser rely on, restricted to ASCII text.
module Text {

  datatype Option<+T> = None | Some(value: T)

  // unicode.IsSpace on ASCII: tab, newline, vertical tab, form feed, carriage return, space.
  predicate IsSpace(c: char) {
    c == ' ' || '\t' <= c <= '\r'
  }

  function TrimLeft(s: string): string {
    if s != [] && IsSpace(s[0]) then TrimLeft(s[1..]) else s
  }

  function TrimRight(s: string): string {
    if s != [] && IsSpace(s[|s| - 1]) then TrimRight(s[..|s| - 1]) else s
  }

  function TrimSpace(s: string): string {
    TrimRight(TrimLeft(s))
  }

  // strings.TrimSuffix(s, c): removes at most one trailing occurrence.
  function TrimSuffixChar(s: string, c: char): string {
    if s != [] && s[|s| - 1] == c then s[..|s| - 1] else s
  }

  function LowerChar(c: char): char {
    if 'A' <= c <= 'Z' then (c as int - 'A' as int + 'a' as int) as char else c
  }

  function ToLower(s: string): (r: string)
    ensures |r| == |s|
    ensures forall i :: 0 <= i < |s| ==> r[i] == LowerChar(s[i])
  {
    seq(|s|, i requires 0 <= i < |s| => LowerChar(s[i]))
  }

  // Only the letters from 65 to 90 change, by 32.
  lemma ToLowerExact(s: string, i: nat)
    requires i < |s|
    ensures ToLower(s)[i] as int == s[i] as int + if 65 <= s[i] as int <= 90 then 32 else 0
  {
  }

  predicate HasSuffix(s: string, suffix: string) {
    |suffix| <= |s| && s[|s| - |suffix|..] == suffix
  }

  // strings.Split for a one-character separator.
  function Split(s: string, sep: char): (parts: seq<string>)
    ensures |parts| >= 1
  {
    if s == [] then [[]]
    else
      var rest := Split(s[1..], sep);
      if s[0] == sep then [[]] + rest
      else [[s[0]] + rest[0]] + rest[1..]
  }

  function Join(parts: seq<string>, sep: char): string {
    if parts == [] then []
    else if |parts| == 1 then parts[0]
    else parts[0] + [sep] + Join(parts[1..], sep)
  }

  // Splitting distributes over an inserted separator.
  lemma {:induction false} SplitAppend(a: string, sep: char, b: string)
    ensures Split(a + [sep] + b, sep) == Split(a, sep) + Split(b, sep)
  {
    var t := a + [sep] + b;
    if a == [] {
      assert t[1..] == b;
    } else {
      assert t[1..] == a[1..] + [sep] + b;
      SplitAppend(a[1..], sep, b);
    }
  }

  lemma {:induction false} SplitWithout(a: string, sep: char)
    requires sep !in a
    ensures Split(a, sep) == [a]
  {
    if a != [] {
      SplitWithout(a[1..], sep);
      assert a == [a[0]] + a[1..];
    }
  }

  lemma {:induction false} JoinSplit(s: string, sep: char)
    ensures Join(Split(s, sep), sep) == s
  {
    if s != [] {
      var rest := Split(s[1..], sep);
      JoinSplit(s[1..], sep);
      if s[0] == sep {
        assert ([[]] + rest)[1..] == rest;
      } else {
        var parts := [[s[0]] + rest[0]] + rest[1..];
        assert parts[1..] == rest[1..];
      }
    }
  }

  lemma {:induction false} JoinAppend(xs: seq<string>, ys: seq<string>, sep: char)
    requires xs != [] && ys != []
    ensures Join(xs + ys, sep) == Join(xs, sep) + [sep] + Join(ys, sep)
  {
    if |xs| == 1 {
      assert (xs + ys)[1..] == ys;
    } else {
      assert (xs + ys)[1..] == xs[1..] + ys;
      JoinAppend(xs[1..], ys, sep);
    }
  }

  // Every character of s is the separator or sits in one of the parts.
  lemma {:induction false} SplitCovers(s: string, sep: char, i: nat)
    requires i < |s| && s[i] != sep
    ensures exists k :: 0 <= k < |Split(s, sep)| && s[i] in Split(s, sep)[k]
  {
    var parts := Split(s, sep);
    var rest := Split(s[1..], sep);
    if i == 0 {
      assert parts[0] == [s[0]] + rest[0];
    } else {
      SplitCovers(s[1..], sep, i - 1);
      var k :| 0 <= k < |rest| && s[1..][i - 1] in rest[k];
      if s[0] == sep {
        assert parts[k + 1] == rest[k];
      } else if k == 0 {
        assert parts[0] == [s[0]] + rest[0];
        assert s[i] in parts[0];
      } else {
        assert parts[k] == rest[k];
      }
    }
  }

  // A text that starts and ends with a non-space is already trimmed.
  lemma TrimSpaceStable(s: string)
    requires s != [] ==> !IsSpace(s[0]) && !IsSpace(s[|s| - 1])
    ensures TrimSpace(s) == s
  {
  }

  // ASCII white space by code: 9 to 13 and 32.
  predicate AllBlank(s: string) {
    forall i :: 0 <= i < |s| ==> 9 <= s[i] as int <= 13 || s[i] as int == 32
  }

  predicate BlankEdge(s: string) {
    s != [] && (AllBlank([s[0]]) || AllBlank([s[|s| - 1]]))
  }

  lemma {:induction false} TrimLeftExact(s: string) returns (front: string)
    ensures s == front + TrimLeft(s) && AllBlank(front)
    ensures TrimLeft(s) != [] ==> !IsSpace(TrimLeft(s)[0])
  {
    if s != [] && IsSpace(s[0]) {
      var rest := TrimLeftExact(s[1..]);
      front := [s[0]] + rest;
    } else {
      front := [];
    }
  }

  lemma {:induction false} TrimRightExact(s: string) returns (back: string)
    ensures s == TrimRight(s) + back && AllBlank(back)
    ensures TrimRight(s) != [] ==> !IsSpace(TrimRight(s)[|TrimRight(s)| - 1]) && TrimRight(s)[0] == s[0]
  {
    if s != [] && IsSpace(s[|s| - 1]) {
      var rest := TrimRightExact(s[..|s| - 1]);
      back := rest + [s[|s| - 1]];
    } else {
      back := [];
    }
  }

  // Trimming cuts blanks at both ends and nothing else.
  lemma TrimSpaceExact(s: string)
    ensures exists front, back :: AllBlank(front) && AllBlank(back) && s == front + TrimSpace(s) + back
    ensures !BlankEdge(TrimSpace(s))
  {
    var front := TrimLeftExact(s);
    var back := TrimRightExact(TrimLeft(s));
    var t := TrimSpace(s);
    assert s == front + t + back;
    if BlankEdge(t) {
      var edge := if AllBlank([t[0]]) then t[0] else t[|t| - 1];
      assert IsSpace([edge][0]);
      assert false;
    }
  }

  predicate IsDigit(c: char) {
    '0' <= c <= '9'
  }

  predicate AllDigits(s: string) {
    forall i :: 0 <= i < |s| ==> IsDigit(s[i])
  }

  function DigitChar(n: nat): (c: char)
    requires n < 10
    ensures IsDigit(c)
  {
    (n + '0' as int) as char
  }

  function DigitVal(c: char): (n: nat)
    requires IsDigit(c)
    ensures n < 10
  {
    c as int - '0' as int
  }

  // strconv.Itoa on a natural number.
  function Dec(n: nat): (s: string)
    ensures s != []
  {
    if n < 10 then [DigitChar(n)] else Dec(n / 10) + [DigitChar(n % 10)]
  }

  function DecVal(s: string): nat
    requires AllDigits(s)
  {
    if s == [] then 0 else DecVal(s[..|s| - 1]) * 10 + DigitVal(s[|s| - 1])
  }

  lemma {:induction false} DecRoundTrip(n: nat)
    ensures AllDigits(Dec(n)) && DecVal(Dec(n)) == n
    ensures |Dec(n)| == 1 || Dec(n)[0] != '0'
    ensures n < 1000 ==> |Dec(n)| <= 3
  {
    if n >= 10 {
      DecRoundTrip(n / 10);
      var s := Dec(n);
      assert s[..|s| - 1] == Dec(n / 10);
      if n < 1000 {
        assert n / 10 < 100;
        assert n / 10 >= 10 ==> n / 10 / 10 < 10 && |Dec(n / 10 / 10)| == 1;
      }
      if |Dec(n / 10)| == 1 {
        DecOfSmall(n / 10);
      }
    }
  }

  lemma {:induction false} DecOfSmall(n: nat)
    requires |Dec(n)| == 1
    ensures n < 10 && Dec(n)[0] == DigitChar(n)
  {
  }

  // A digit string without a leading zero is the rendering of its value.
  lemma {:induction false} DecOfDecVal(s: string)
    requires s != [] && AllDigits(s) && (|s| == 1 || s[0] != '0')
    ensures Dec(DecVal(s)) == s
  {
    var front, last := s[..|s| - 1], s[|s| - 1];
    assert s == front + [last];
    if |s| == 1 {
      assert front == [];
      assert DecVal(s) == DigitVal(last);
    } else {
      DecOfDecVal(front);
      var v := DecVal(front);
      assert Dec(v) == front;
      assert s[0] == front[0];
      assert DecVal(s) / 10 == v && DecVal(s) % 10 == DigitVal(last);
    }
  }

  lemma {:induction false} DecInjective(m: nat, n: nat)
    requires Dec(m) == Dec(n)
    ensures m == n
  {
    DecRoundTrip(m);
    DecRoundTrip(n);
  }
}
