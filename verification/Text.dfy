/** String operations of Go's standard library that the repository relies on, with the
    inversion laws (join/split, print/parse) that its own formats are proved with. */
module Text {

  datatype Option<+T> = None | Some(value: T)

  /** unicode.IsSpace: the characters that strings.TrimSpace removes. */
  predicate IsSpace(c: char) {
    var n := c as int;
    || 9 <= n <= 13 || n == 32 || n == 0x85 || n == 0xA0 || n == 0x1680
    || 0x2000 <= n <= 0x200A || n == 0x2028 || n == 0x2029 || n == 0x202F
    || n == 0x205F || n == 0x3000
  }

  function TrimLeft(s: string, p: char -> bool): string {
    if s != [] && p(s[0]) then TrimLeft(s[1..], p) else s
  }

  function TrimRight(s: string, p: char -> bool): string {
    if s != [] && p(s[|s| - 1]) then TrimRight(s[..|s| - 1], p) else s
  }

  /** strings.Trim and strings.TrimSpace. */
  function Trim(s: string, p: char -> bool): string {
    TrimRight(TrimLeft(s, p), p)
  }

  /** Neither end of `s` is a character that trimming would remove. */
  predicate BareEnds(s: string, p: char -> bool) {
    s != [] ==> !p(s[0]) && !p(s[|s| - 1])
  }

  /** Trimming removes exactly a padding made of trimmed characters. */
  lemma {:induction false} TrimPadded(left: string, s: string, right: string, p: char -> bool)
    requires forall c :: c in left || c in right ==> p(c)
    requires BareEnds(s, p)
    ensures Trim(left + s + right, p) == s
  {
    if s == [] {
      TrimLeftAll(left + s + right, p);
    } else {
      TrimLeftPrefix(left, s + right, p);
      assert left + s + right == left + (s + right);
      TrimRightSuffix(s, right, p);
    }
  }

  lemma {:induction false} TrimLeftAll(s: string, p: char -> bool)
    requires forall c :: c in s ==> p(c)
    ensures TrimLeft(s, p) == []
  {
    if s != [] {
      assert s[0] in s;
      TrimLeftAll(s[1..], p);
    }
  }

  lemma {:induction false} TrimLeftPrefix(left: string, s: string, p: char -> bool)
    requires forall c :: c in left ==> p(c)
    requires s != [] && !p(s[0])
    ensures TrimLeft(left + s, p) == s
  {
    if left == [] {
      assert left + s == s;
    } else {
      assert left[0] in left;
      assert (left + s)[1..] == left[1..] + s;
      TrimLeftPrefix(left[1..], s, p);
    }
  }

  lemma {:induction false} TrimRightSuffix(s: string, right: string, p: char -> bool)
    requires forall c :: c in right ==> p(c)
    requires s != [] && !p(s[|s| - 1])
    ensures TrimRight(s + right, p) == s
  {
    if right == [] {
      assert s + right == s;
    } else {
      assert right[|right| - 1] in right;
      assert (s + right)[..|s + right| - 1] == s + right[..|right| - 1];
      TrimRightSuffix(s, right[..|right| - 1], p);
    }
  }

  /** Position of the first `c` in `s`, or the length of `s`. */
  function Find(s: string, c: char): (i: nat)
    ensures i <= |s|
    ensures forall k :: 0 <= k < i ==> s[k] != c
    ensures i < |s| ==> s[i] == c
  {
    if s == [] || s[0] == c then 0 else 1 + Find(s[1..], c)
  }

  lemma FindSeparator(before: string, c: char, after: string)
    requires c !in before
    ensures Find(before + [c] + after, c) == |before|
  {
    var s := before + [c] + after;
    assert s[|before|] == c;
    assert forall k :: 0 <= k < |before| ==> s[k] == before[k] && before[k] in before;
  }

  /** strings.Split with a one-character separator. */
  function Split(s: string, sep: char): (parts: seq<string>)
    ensures parts != []
    ensures forall k :: 0 <= k < |parts| ==> sep !in parts[k]
    decreases |s|
  {
    var i := Find(s, sep);
    if i == |s| then [s] else [s[..i]] + Split(s[i + 1..], sep)
  }

  predicate Distinct<T(==)>(s: seq<T>) {
    forall i, j :: 0 <= i < j < |s| ==> s[i] != s[j]
  }

  /** strings.Join. */
  function Join(parts: seq<string>, sep: string): string {
    if parts == [] then ""
    else if |parts| == 1 then parts[0]
    else parts[0] + sep + Join(parts[1..], sep)
  }

  lemma SplitWhole(s: string, sep: char)
    requires sep !in s
    ensures Split(s, sep) == [s]
  {
    assert Find(s, sep) == |s|;
  }

  lemma SplitFirst(before: string, sep: char, after: string)
    requires sep !in before
    ensures Split(before + [sep] + after, sep) == [before] + Split(after, sep)
  {
    var s := before + [sep] + after;
    FindSeparator(before, sep, after);
    assert s[..|before|] == before;
    assert s[|before| + 1..] == after;
  }

  /** Splitting undoes joining when no part holds the separator. */
  lemma {:induction false} SplitJoin(parts: seq<string>, sep: char)
    requires parts != []
    requires forall k :: 0 <= k < |parts| ==> sep !in parts[k]
    ensures Split(Join(parts, [sep]), sep) == parts
  {
    if |parts| == 1 {
      SplitWhole(parts[0], sep);
    } else {
      var rest := parts[1..];
      SplitFirst(parts[0], sep, Join(rest, [sep]));
      SplitJoin(rest, sep);
      assert parts == [parts[0]] + rest;
    }
  }

  lemma JoinThree(a: string, b: string, c: string, sep: string)
    ensures Join([a, b, c], sep) == a + sep + b + sep + c
  {
    var tail := b + sep + c;
    assert [a, b, c][1..] == [b, c] && [b, c][1..] == [c];
    calc {
      Join([a, b, c], sep);
      a + sep + Join([b, c], sep);
      a + sep + tail;
      a + sep + b + sep + c;
    }
  }

  /** Every string made of three separator-free parts has exactly these three parts. */
  lemma SplitThree(a: string, b: string, c: string, sep: char)
    requires sep !in a && sep !in b && sep !in c
    ensures Split(a + [sep] + b + [sep] + c, sep) == [a, b, c]
  {
    JoinThree(a, b, c, [sep]);
    SplitJoin([a, b, c], sep);
  }

  predicate IsDigit(c: char) { '0' <= c <= '9' }

  predicate AllDigits(s: string) {
    s != [] && forall k :: 0 <= k < |s| ==> IsDigit(s[k])
  }

  /** The number written by a string of digits. */
  function Value(s: string): nat
    requires forall k :: 0 <= k < |s| ==> IsDigit(s[k])
  {
    if s == [] then 0
    else
      assert IsDigit(s[|s| - 1]);
      10 * Value(s[..|s| - 1]) + (s[|s| - 1] as int - '0' as int)
  }

  function Digit(d: nat): (c: char)
    requires d < 10
    ensures IsDigit(c) && c as int - '0' as int == d
  {
    ('0' as int + d) as char
  }

  /** The decimal form of a natural number, as %d prints it. */
  function Decimal(n: nat): (s: string)
    ensures AllDigits(s)
  {
    if n < 10 then [Digit(n)] else Decimal(n / 10) + [Digit(n % 10)]
  }

  lemma {:induction false} DecimalValue(n: nat)
    ensures Value(Decimal(n)) == n
  {
    if n >= 10 {
      DecimalValue(n / 10);
      var s := Decimal(n);
      assert s[..|s| - 1] == Decimal(n / 10);
    } else {
      assert Decimal(n)[..0] == [];
    }
  }

  /** The decimal form of an integer, with a sign when it is negative. */
  function DecimalInt(n: int): string {
    if n < 0 then "-" + Decimal(-n) else Decimal(n)
  }

  function Zeros(n: nat): (s: string)
    ensures |s| == n && forall k :: 0 <= k < n ==> s[k] == '0'
  {
    if n == 0 then [] else ['0'] + Zeros(n - 1)
  }

  /** fmt's %0wd for a natural number: at least `width` digits, zeros in front. */
  function Padded(n: nat, width: nat): (s: string)
    ensures AllDigits(s) && |s| >= width
  {
    var d := Decimal(n);
    if |d| >= width then d else Zeros(width - |d|) + d
  }

  lemma {:induction false} LeadingZeros(zeros: string, s: string)
    requires forall k :: 0 <= k < |zeros| ==> zeros[k] == '0'
    requires forall k :: 0 <= k < |s| ==> IsDigit(s[k])
    ensures forall k :: 0 <= k < |zeros + s| ==> IsDigit((zeros + s)[k])
    ensures Value(zeros + s) == Value(s)
  {
    if s != [] {
      LeadingZeros(zeros, s[..|s| - 1]);
      assert (zeros + s)[..|zeros + s| - 1] == zeros + s[..|s| - 1];
    } else if zeros != [] {
      assert zeros + s == zeros;
      var shorter := zeros[..|zeros| - 1];
      LeadingZeros(shorter, s);
      assert shorter + s == shorter;
    }
  }

  lemma PaddedValue(n: nat, width: nat)
    ensures Value(Padded(n, width)) == n
  {
    var d := Decimal(n);
    DecimalValue(n);
    if |d| < width {
      LeadingZeros(Zeros(width - |d|), d);
    }
  }
}
