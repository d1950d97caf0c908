/** The printed form of durations, for durations of whole seconds. */
module Durations {
  import opened Text

  function Unit(n: nat, one: string, many: string): string {
    if n == 1 then one else many
  }

  /** The words "n unit" of one part. */
  function Part(n: nat, one: string, many: string): string {
    Decimal(n) + " " + Unit(n, one, many)
  }

  function Parts(seconds: nat): seq<string> {
    var h, m, s := seconds / 3600, seconds / 60 % 60, seconds % 60;
    var parts := (if h > 0 then [Part(h, "hour", "hours")] else [])
               + (if m > 0 then [Part(m, "minute", "minutes")] else []);
    parts + if s > 0 || parts == [] then [Part(s, "second", "seconds")] else []
  }

  function JoinParts(parts: seq<string>): string {
    if |parts| == 0 then ""
    else if |parts| == 1 then parts[0]
    else if |parts| == 2 then parts[0] + " " + parts[1]
    else parts[0] + " " + parts[1] + " " + parts[2]
  }

  method PrettyDuration(seconds: nat) returns (r: string)
    ensures Read(r) == Some(seconds)
    ensures r == Join(Parts(seconds), " ")
    ensures Split(r, ' ') == Spelled(seconds / 3600, seconds / 60 % 60, seconds % 60)
  {
    var h, m, s := seconds / 3600, seconds / 60 % 60, seconds % 60;
    var parts := [];
    if h > 0 {
      var unit := "hour";
      if h > 1 {
        unit := "hours";
      }
      parts := parts + [Decimal(h) + " " + unit];
    }
    if m > 0 {
      var unit := "minute";
      if m > 1 {
        unit := "minutes";
      }
      parts := parts + [Decimal(m) + " " + unit];
    }
    if s > 0 || |parts| == 0 {
      var unit := "second";
      if s != 1 {
        unit := "seconds";
      }
      parts := parts + [Decimal(s) + " " + unit];
    }
    assert parts == Parts(seconds);
    JoinedParts(parts);
    ReadsBack(seconds);
    SplitsIntoWords(seconds);
    r := JoinParts(parts);
  }

  lemma JoinedParts(parts: seq<string>)
    requires |parts| <= 3
    ensures JoinParts(parts) == Join(parts, " ")
  {
    if |parts| == 3 {
      assert parts == [parts[0], parts[1], parts[2]];
      JoinThree(parts[0], parts[1], parts[2], " ");
    } else if |parts| == 2 {
      assert parts[1..] == [parts[1]];
    }
  }

  // ---- reading it back ----

  function UnitSeconds(unit: string): Option<nat> {
    if unit == "hour" || unit == "hours" then Some(3600)
    else if unit == "minute" || unit == "minutes" then Some(60)
    else if unit == "second" || unit == "seconds" then Some(1)
    else None
  }

  /** Adds up the number-unit pairs of a list of words. */
  function SumWords(words: seq<string>): Option<nat> {
    if words == [] then Some(0)
    else if |words| == 1 || !AllDigits(words[0]) then None
    else
      var unit, rest := UnitSeconds(words[1]), SumWords(words[2..]);
      if unit.None? || rest.None? then None else Some(Value(words[0]) * unit.value + rest.value)
  }

  function Read(s: string): Option<nat> {
    SumWords(Split(s, ' '))
  }

  function WordsOf(n: nat, one: string, many: string): seq<string> {
    [Decimal(n), Unit(n, one, many)]
  }

  /** All the words printed for a duration. */
  function Words(seconds: nat): seq<string> {
    var h, m, s := seconds / 3600, seconds / 60 % 60, seconds % 60;
    (if h > 0 then WordsOf(h, "hour", "hours") else [])
    + (if m > 0 then WordsOf(m, "minute", "minutes") else [])
    + (if s > 0 || (h == 0 && m == 0) then WordsOf(s, "second", "seconds") else [])
  }

  lemma NoBlankInDecimal(n: nat)
    ensures ' ' !in Decimal(n)
  {
    var d := Decimal(n);
    assert forall i :: 0 <= i < |d| ==> IsDigit(d[i]);
  }

  lemma {:induction false} JoinAppend(a: seq<string>, b: seq<string>, sep: string)
    requires a != [] && b != []
    ensures Join(a + b, sep) == Join(a, sep) + sep + Join(b, sep)
  {
    if |a| == 1 {
      assert (a + b)[1..] == b;
    } else {
      assert (a + b)[1..] == a[1..] + b;
      JoinAppend(a[1..], b, sep);
    }
  }

  lemma JoinPart(n: nat, one: string, many: string)
    ensures Join(WordsOf(n, one, many), " ") == Part(n, one, many)
  {
    assert WordsOf(n, one, many)[1..] == [Unit(n, one, many)];
  }

  /** Printing the parts joined by blanks prints their words joined by blanks. */
  lemma PartsAreWords(a: seq<string>, p: string, words: seq<string>, last: seq<string>)
    requires a != [] && words != [] && last != []
    requires Join(a, " ") == Join(words, " ") && p == Join(last, " ")
    ensures Join(a + [p], " ") == Join(words + last, " ")
  {
    JoinAppend(a, [p], " ");
    JoinAppend(words, last, " ");
  }

  lemma PrintedWords(seconds: nat)
    ensures Join(Parts(seconds), " ") == Join(Words(seconds), " ")
    ensures Words(seconds) != []
  {
    var h, m, s := seconds / 3600, seconds / 60 % 60, seconds % 60;
    JoinPart(h, "hour", "hours");
    JoinPart(m, "minute", "minutes");
    JoinPart(s, "second", "seconds");
    var ph, pm, ps := Part(h, "hour", "hours"), Part(m, "minute", "minutes"), Part(s, "second", "seconds");
    var wh, wm, ws := WordsOf(h, "hour", "hours"), WordsOf(m, "minute", "minutes"), WordsOf(s, "second", "seconds");
    PartsAreWords([ph], pm, wh, wm);
    PartsAreWords([ph], ps, wh, ws);
    PartsAreWords([pm], ps, wm, ws);
    PartsAreWords([ph] + [pm], ps, wh + wm, ws);
    var parts, words := Parts(seconds), Words(seconds);
    if h > 0 && m > 0 {
      assert parts == if s > 0 then [ph] + [pm] + [ps] else [ph] + [pm];
      assert words == if s > 0 then wh + wm + ws else wh + wm;
    } else if h > 0 {
      assert parts == if s > 0 then [ph] + [ps] else [ph];
      assert words == if s > 0 then wh + ws else wh;
    } else if m > 0 {
      assert parts == if s > 0 then [pm] + [ps] else [pm];
      assert words == if s > 0 then wm + ws else wm;
    } else {
      assert parts == [ps] && words == ws;
    }
  }

  lemma SumPair(n: nat, one: string, many: string, unit: nat, rest: seq<string>, sum: nat)
    requires UnitSeconds(one) == Some(unit) == UnitSeconds(many) && SumWords(rest) == Some(sum)
    ensures SumWords(WordsOf(n, one, many) + rest) == Some(n * unit + sum)
  {
    var words := WordsOf(n, one, many) + rest;
    assert words[2..] == rest && words[0] == Decimal(n) && words[1] == Unit(n, one, many);
    DecimalValue(n);
  }

  lemma SumOptional(n: nat, one: string, many: string, unit: nat, rest: seq<string>, sum: nat)
    requires UnitSeconds(one) == Some(unit) == UnitSeconds(many) && SumWords(rest) == Some(sum)
    ensures SumWords((if n > 0 then WordsOf(n, one, many) else []) + rest) == Some(n * unit + sum)
  {
    if n > 0 {
      SumPair(n, one, many, unit, rest, sum);
    } else {
      assert [] + rest == rest;
    }
  }

  lemma SumSeconds(s: nat, shown: bool)
    requires shown || s == 0
    ensures SumWords(if shown then WordsOf(s, "second", "seconds") else []) == Some(s)
  {
    SumPair(s, "second", "seconds", 1, [], 0);
    assert WordsOf(s, "second", "seconds") + [] == WordsOf(s, "second", "seconds");
  }

  lemma HoursMinutesSeconds(n: nat)
    ensures n == 3600 * (n / 3600) + 60 * (n / 60 % 60) + n % 60
  {
    assert n == 60 * (n / 60) + n % 60;
    assert n / 60 == 60 * (n / 60 / 60) + n / 60 % 60;
    assert n / 60 / 60 == n / 3600;
  }

  lemma SumSpelled(h: nat, m: nat, s: nat)
    ensures SumWords(Spelled(h, m, s)) == Some(3600 * h + 60 * m + s)
  {
    var ws := if s > 0 || h + m == 0 then WordsOf(s, "second", "seconds") else [];
    var wm := (if m > 0 then WordsOf(m, "minute", "minutes") else []) + ws;
    SumSeconds(s, s > 0 || h + m == 0);
    SumOptional(m, "minute", "minutes", 60, ws, s);
    SumOptional(h, "hour", "hours", 3600, wm, m * 60 + s);
    SpelledParts(h, m, s);
  }

  lemma SpelledParts(h: nat, m: nat, s: nat)
    ensures Spelled(h, m, s)
         == (if h > 0 then WordsOf(h, "hour", "hours") else [])
            + ((if m > 0 then WordsOf(m, "minute", "minutes") else [])
               + (if s > 0 || h + m == 0 then WordsOf(s, "second", "seconds") else []))
  {}

  lemma WordsSum(seconds: nat)
    ensures SumWords(Words(seconds)) == Some(seconds)
  {
    HoursMinutesSeconds(seconds);
    WordsSpelled(seconds);
    SumSpelled(seconds / 3600, seconds / 60 % 60, seconds % 60);
  }

  lemma NoBlankInWords(seconds: nat)
    ensures forall i :: 0 <= i < |Words(seconds)| ==> ' ' !in Words(seconds)[i]
  {
    NoBlankInDecimal(seconds / 3600);
    NoBlankInDecimal(seconds / 60 % 60);
    NoBlankInDecimal(seconds % 60);
  }

  /** h hours, m minutes and s seconds in words: the parts that are not zero, largest first, each
      with its unit in the singular or the plural; no time at all is zero seconds. */
  function Spelled(h: nat, m: nat, s: nat): seq<string> {
    (if h == 0 then [] else [Decimal(h), if h == 1 then "hour" else "hours"])
    + (if m == 0 then [] else [Decimal(m), if m == 1 then "minute" else "minutes"])
    + (if s == 0 && h + m > 0 then [] else [Decimal(s), if s == 1 then "second" else "seconds"])
  }

  lemma WordsSpelled(seconds: nat)
    ensures Words(seconds) == Spelled(seconds / 3600, seconds / 60 % 60, seconds % 60)
  {}

  lemma SplitsIntoWords(seconds: nat)
    ensures Split(Join(Parts(seconds), " "), ' ') == Spelled(seconds / 3600, seconds / 60 % 60, seconds % 60)
  {
    PrintedWords(seconds);
    NoBlankInWords(seconds);
    SplitJoin(Words(seconds), ' ');
    WordsSpelled(seconds);
  }

  lemma TakenApart(seconds: nat, h: nat, m: nat, s: nat)
    requires m < 60 && s < 60 && seconds == 3600 * h + 60 * m + s
    ensures seconds / 3600 == h && seconds / 60 % 60 == m && seconds % 60 == s
  {
    assert seconds == 60 * (60 * h + m) + s;
    assert seconds / 60 == 60 * h + m;
  }

  /** What is printed for h hours, m minutes and s seconds are the words that spell it. */
  lemma PrintedShape(seconds: nat, h: nat, m: nat, s: nat)
    requires m < 60 && s < 60 && seconds == 3600 * h + 60 * m + s
    ensures Split(Join(Parts(seconds), " "), ' ') == Spelled(h, m, s)
  {
    TakenApart(seconds, h, m, s);
    SplitsIntoWords(seconds);
  }

  /** The printed form of a duration reads back as the same number of seconds. */
  lemma ReadsBack(seconds: nat)
    ensures Read(Join(Parts(seconds), " ")) == Some(seconds)
  {
    PrintedWords(seconds);
    NoBlankInWords(seconds);
    SplitJoin(Words(seconds), ' ');
    WordsSum(seconds);
  }

  /** So distinct durations print differently, and no omitted zero part loses anything. */
  lemma PrintsInjectively(a: nat, b: nat)
    ensures Join(Parts(a), " ") == Join(Parts(b), " ") <==> a == b
  {
    ReadsBack(a);
    ReadsBack(b);
  }
}
