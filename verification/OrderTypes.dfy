/** The `--order-types` list of a kitchen worker. */
module OrderTypes {
  import opened Text
  import opened Orders

  /** The non-blank entries of the split list, trimmed, in input order. */
  function Cleaned(parts: seq<string>): seq<string> {
    if parts == [] then []
    else
      var t := Trim(parts[|parts| - 1], IsSpace);
      Cleaned(parts[..|parts| - 1]) + if t == "" then [] else [t]
  }

  function Entries(input: string): seq<string> {
    Cleaned(Split(input, ','))
  }

  predicate AllValid(s: seq<string>) {
    forall i :: 0 <= i < |s| ==> s[i] in AllOrderTypes
  }

  /** The empty string, or a list with at least one entry, all valid and distinct. */
  predicate Accepted(input: string) {
    input == "" || (Entries(input) != [] && AllValid(Entries(input)) && Distinct(Entries(input)))
  }

  datatype Outcome = Types(kinds: seq<string>) | Duplicate(entry: string) | Invalid(entry: string) | Empty

  /** Entry number `i` is the first to break a rule: it repeats an earlier one, or is unknown. */
  predicate Offends(entries: seq<string>, i: nat, r: Outcome) {
    && i < |entries|
    && AllValid(entries[..i]) && Distinct(entries[..i])
    && (if entries[i] in entries[..i] then r == Duplicate(entries[i])
        else entries[i] !in AllOrderTypes && r == Invalid(entries[i]))
  }

  method ValidateOrderTypes(input: string) returns (r: Outcome)
    ensures r.Types? <==> Accepted(input)
    ensures r.Types? ==> r.kinds == if input == "" then AllOrderTypes else Entries(input)
    ensures r.Empty? <==> input != "" && Entries(input) == []
    ensures r.Duplicate? || r.Invalid? ==> exists i :: Offends(Entries(input), i, r)
  {
    if input == "" {
      return Types(AllOrderTypes);
    }
    r := ValidateEntries(Split(input, ','));
  }

  method ValidateEntries(raw: seq<string>) returns (r: Outcome)
    ensures r.Types? <==> Cleaned(raw) != [] && AllValid(Cleaned(raw)) && Distinct(Cleaned(raw))
    ensures r.Types? ==> r.kinds == Cleaned(raw)
    ensures r.Empty? <==> Cleaned(raw) == []
    ensures r.Duplicate? || r.Invalid? ==> exists i :: Offends(Cleaned(raw), i, r)
  {
    var kinds: seq<string> := [];
    var seen: set<string> := {};
    for i := 0 to |raw|
      invariant kinds == Cleaned(raw[..i])
      invariant AllValid(kinds) && Distinct(kinds)
      invariant forall k :: k in seen <==> k in kinds
    {
      var trimmed := Trim(raw[i], IsSpace);
      CleanedNext(raw, i);
      if trimmed == "" {
        continue;
      }
      CleanedPrefix(raw, i + 1);
      if trimmed in seen {
        r := Duplicate(trimmed);
        FirstOffence(Cleaned(raw), kinds, trimmed, r);
        return;
      }
      seen := seen + {trimmed};
      if trimmed !in AllOrderTypes {
        r := Invalid(trimmed);
        FirstOffence(Cleaned(raw), kinds, trimmed, r);
        return;
      }
      kinds := kinds + [trimmed];
    }
    assert raw[..|raw|] == raw;
    if |kinds| == 0 {
      return Empty;
    }
    return Types(kinds);
  }

  lemma FirstOffence(entries: seq<string>, good: seq<string>, bad: string, r: Outcome)
    requires good + [bad] <= entries && AllValid(good) && Distinct(good)
    requires if bad in good then r == Duplicate(bad) else bad !in AllOrderTypes && r == Invalid(bad)
    ensures Offends(entries, |good|, r)
    ensures entries != [] && !(AllValid(entries) && Distinct(entries))
  {
    assert (good + [bad])[..|good|] == good;
    assert entries[..|good|] == good && entries[|good|] == bad;
    if bad in good {
      var i :| 0 <= i < |good| && good[i] == bad;
      assert entries[i] == entries[|good|];
    }
  }

  lemma CleanedNext(parts: seq<string>, i: nat)
    requires i < |parts|
    ensures var t := Trim(parts[i], IsSpace);
      Cleaned(parts[..i + 1]) == Cleaned(parts[..i]) + if t == "" then [] else [t]
  {
    assert parts[..i + 1][..i] == parts[..i];
  }

  lemma {:induction false} CleanedPrefix(parts: seq<string>, n: nat)
    requires n <= |parts|
    ensures Cleaned(parts[..n]) <= Cleaned(parts)
  {
    if n < |parts| {
      var front := parts[..|parts| - 1];
      CleanedPrefix(front, n);
      assert front[..n] == parts[..n];
    } else {
      assert parts[..n] == parts;
    }
  }

  /** Three distinct types are all there are. */
  lemma AtMostThree(kinds: seq<string>)
    requires AllValid(kinds) && Distinct(kinds)
    ensures |kinds| <= 3
  {
    var used := set k | k in kinds;
    var all := {"dine_in", "takeout", "delivery"};
    DistinctMembers(kinds);
    assert used <= all;
    assert all == used + (all - used);
  }

  lemma {:induction false} DistinctMembers(kinds: seq<string>)
    requires Distinct(kinds)
    ensures |set k | k in kinds| == |kinds|
  {
    if kinds != [] {
      var front, last := kinds[..|kinds| - 1], kinds[|kinds| - 1];
      DistinctMembers(front);
      assert last !in front;
      assert (set k | k in kinds) == (set k | k in front) + {last};
    }
  }

  lemma ValidTypesAreWords(kind: string)
    requires kind in AllOrderTypes
    ensures kind != "" && ',' !in kind && '.' !in kind && Trim(kind, IsSpace) == kind
  {
    TrimPadded("", kind, "", IsSpace);
    assert "" + kind + "" == kind;
  }

  predicate Word(s: string) {
    s != "" && Trim(s, IsSpace) == s
  }

  /** Words that trimming leaves alone are the entries. */
  lemma {:induction false} CleanedWords(kinds: seq<string>)
    requires forall i :: 0 <= i < |kinds| ==> Word(kinds[i])
    ensures Cleaned(kinds) == kinds
  {
    if kinds != [] {
      var n := |kinds| - 1;
      CleanedWords(kinds[..n]);
      CleanedNext(kinds, n);
      assert kinds[..n + 1] == kinds && Word(kinds[n]);
    }
  }

  /** The list of a registered worker, joined with commas as registration stores it, is accepted
      again and gives the same list of at most three types. */
  lemma RegisteredListReads(input: string)
    requires Accepted(input)
    ensures var kinds := if input == "" then AllOrderTypes else Entries(input);
      && |kinds| <= 3
      && Join(kinds, ",") != ""
      && Accepted(Join(kinds, ","))
      && Entries(Join(kinds, ",")) == kinds
  {
    var kinds := if input == "" then AllOrderTypes else Entries(input);
    AtMostThree(kinds);
    forall i | 0 <= i < |kinds|
      ensures ',' !in kinds[i] && Word(kinds[i])
    {
      ValidTypesAreWords(kinds[i]);
    }
    SplitJoin(kinds, ',');
    CleanedWords(kinds);
  }

  // ---- lists as people write them ----

  /** A comma-separated piece: nothing but spaces, or a type with spaces around it. */
  datatype Piece = Blank(pad: string) | Padded(left: string, kind: string, right: string)

  predicate Spaces(s: string) {
    forall i :: 0 <= i < |s| ==> IsSpace(s[i])
  }

  predicate PieceOk(p: Piece) {
    match p
    case Blank(pad) => Spaces(pad)
    case Padded(left, kind, right) => Spaces(left) && Spaces(right) && kind in AllOrderTypes
  }

  function PieceText(p: Piece): string {
    match p
    case Blank(pad) => pad
    case Padded(left, kind, right) => left + kind + right
  }

  function Texts(pieces: seq<Piece>): seq<string> {
    seq(|pieces|, i requires 0 <= i < |pieces| => PieceText(pieces[i]))
  }

  /** The types of the pieces that name one, in order. */
  function Named(pieces: seq<Piece>): seq<string> {
    if pieces == [] then []
    else
      Named(pieces[..|pieces| - 1])
      + match pieces[|pieces| - 1] case Blank(_) => [] case Padded(_, kind, _) => [kind]
  }

  lemma TrimmedPiece(p: Piece)
    requires PieceOk(p)
    ensures Trim(PieceText(p), IsSpace) == if p.Blank? then "" else p.kind
    ensures ',' !in PieceText(p)
    ensures p.Padded? ==> p.kind != ""
  {
    if p.Padded? {
      ValidTypesAreWords(p.kind);
      TrimPadded(p.left, p.kind, p.right, IsSpace);
    } else {
      TrimPadded(p.pad, "", "", IsSpace);
      assert p.pad + "" + "" == p.pad;
    }
  }

  lemma {:induction false} CleanedPieces(pieces: seq<Piece>)
    requires forall i :: 0 <= i < |pieces| ==> PieceOk(pieces[i])
    ensures Cleaned(Texts(pieces)) == Named(pieces)
  {
    if pieces != [] {
      var n := |pieces| - 1;
      CleanedPieces(pieces[..n]);
      CleanedNext(Texts(pieces), n);
      assert Texts(pieces)[..n + 1] == Texts(pieces) && Texts(pieces)[..n] == Texts(pieces[..n]);
      TrimmedPiece(pieces[n]);
    }
  }

  /** Spaces around entries and blank entries make no difference: a list that names distinct types,
      at least one, is read as those types. */
  lemma PaddedListReads(pieces: seq<Piece>)
    requires pieces != [] && forall i :: 0 <= i < |pieces| ==> PieceOk(pieces[i])
    ensures Entries(Join(Texts(pieces), ",")) == Named(pieces)
    ensures Named(pieces) != [] && Distinct(Named(pieces)) ==> Accepted(Join(Texts(pieces), ","))
  {
    forall i | 0 <= i < |pieces|
      ensures ',' !in Texts(pieces)[i]
    {
      TrimmedPiece(pieces[i]);
    }
    SplitJoin(Texts(pieces), ',');
    CleanedPieces(pieces);
    NamedValid(pieces);
  }

  lemma {:induction false} NamedValid(pieces: seq<Piece>)
    requires forall i :: 0 <= i < |pieces| ==> PieceOk(pieces[i])
    ensures AllValid(Named(pieces))
  {
    if pieces != [] {
      assert PieceOk(pieces[|pieces| - 1]);
      NamedValid(pieces[..|pieces| - 1]);
    }
  }
}
