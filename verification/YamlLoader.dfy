/** The indentation-stack loader of configuration files. It reads lines and sets environment
    variables; `upper` is the per-character mapping of strings.ToUpper. */
module YamlLoader {
  import opened Text

  type Env = map<string, string>

  predicate IsBlank(c: char) { c == ' ' }

  predicate IsQuote(c: char) { c == '"' || c == '\'' }

  function UpperAll(s: string, upper: char -> char): string {
    seq(|s|, i requires 0 <= i < |s| => upper(s[i]))
  }

  /** What os.Setenv accepts. */
  predicate Settable(key: string, value: string) {
    key != "" && '=' !in key && '\0' !in key && '\0' !in value
  }

  function LeadingBlanks(line: string): (n: nat)
    ensures n <= |line|
  {
    if line != [] && line[0] == ' ' then 1 + LeadingBlanks(line[1..]) else 0
  }

  /** The prefix stack after the pop loop. */
  function Popped(indent: int, current: int, stack: seq<string>): seq<string>
    decreases |stack|
  {
    if indent < current && stack != [] then Popped(indent, current - 2, stack[..|stack| - 1]) else stack
  }

  /** The loop's state; `ok` until a variable cannot be set. */
  datatype Loader = Loader(ok: bool, indent: int, stack: seq<string>, env: Env)

  predicate Skipped(line: string) {
    var t := TrimRight(line, IsBlank);
    t == "" || t[0] == '#'
  }

  function FullKey(stack: seq<string>, key: string, upper: char -> char): string {
    UpperAll(Join(stack + [key], "_"), upper)
  }

  function Assigned(st: Loader, full: string, value: string): Loader {
    if Settable(full, value) then st.(env := st.env[full := value]) else st.(ok := false)
  }

  /** What the loader does with `content` once the stack is set. */
  function Content(st: Loader, content: string, upper: char -> char): Loader {
    var i := Find(content, ':');
    if content != "" && content[|content| - 1] == ':' then
      st.(stack := st.stack + [content[..|content| - 1]], indent := st.indent + 2)
    else if i == |content| then
      st
    else
      var key := Trim(content[..i], IsSpace);
      var value := Trim(Trim(content[i + 1..], IsSpace), IsQuote);
      Assigned(st, FullKey(st.stack, key, upper), if value == "" then "true" else value)
  }

  function Line(st: Loader, raw: string, upper: char -> char): Loader {
    if !st.ok || Skipped(raw) then st
    else
      var line := TrimRight(raw, IsBlank);
      var indent := LeadingBlanks(line);
      Content(st.(indent := indent, stack := Popped(indent, st.indent, st.stack)),
              Trim(line, IsSpace), upper)
  }

  function Lines(st: Loader, lines: seq<string>, upper: char -> char): Loader
    decreases |lines|
  {
    if lines == [] then st else Lines(Line(st, lines[0], upper), lines[1..], upper)
  }

  method CountIndent(line: string) returns (indent: nat)
    ensures indent == LeadingBlanks(line)
  {
    indent := 0;
    while indent < |line| && line[indent] == ' '
      invariant indent <= |line|
      invariant LeadingBlanks(line) == indent + LeadingBlanks(line[indent..])
    {
      indent := indent + 1;
    }
  }

  method PopSections(indent: int, current: int, stack: seq<string>) returns (prefixStack: seq<string>)
    ensures prefixStack == Popped(indent, current, stack)
  {
    prefixStack := stack;
    var currentIndent := current;
    while indent < currentIndent && |prefixStack| > 0
      invariant Popped(indent, current, stack) == Popped(indent, currentIndent, prefixStack)
      decreases |prefixStack|
    {
      prefixStack := prefixStack[..|prefixStack| - 1];
      currentIndent := currentIndent - 2;
    }
  }

  /** The second half of the loop's body: a section or a setting. */
  method ReadContent(before: Loader, content: string, upper: char -> char) returns (st: Loader)
    ensures st == Content(before, content, upper)
  {
    if content != "" && content[|content| - 1] == ':' {
      var section := content[..|content| - 1];
      return before.(stack := before.stack + [section], indent := before.indent + 2);
    }
    var i := Find(content, ':');
    if i == |content| {
      return before;
    }
    var key := Trim(content[..i], IsSpace);
    var value := Trim(Trim(content[i + 1..], IsSpace), IsQuote);
    if value == "" {
      value := "true";
    }
    var full := FullKey(before.stack, key, upper);
    if !Settable(full, value) {
      return before.(ok := false);
    }
    return before.(env := before.env[full := value]);
  }

  /** The body of the loop, for a line that is not skipped. */
  method ReadLine(before: Loader, line: string, upper: char -> char) returns (st: Loader)
    requires before.ok && !Skipped(line) && TrimRight(line, IsBlank) == line
    ensures st == Line(before, line, upper)
  {
    var indent := CountIndent(line);
    var prefixStack := PopSections(indent, before.indent, before.stack);
    st := ReadContent(before.(indent := indent, stack := prefixStack), Trim(line, IsSpace), upper);
  }

  /** LoadYamlFile over the lines of the file. */
  method Load(lines: seq<string>, env: Env, upper: char -> char) returns (ok: bool, result: Env)
    ensures var end := Lines(Loader(true, 0, [], env), lines, upper); ok == end.ok && result == end.env
  {
    ghost var goal := Lines(Loader(true, 0, [], env), lines, upper);
    var st := Loader(true, 0, [], env);
    for n := 0 to |lines|
      invariant st.ok && goal == Lines(st, lines[n..], upper)
    {
      var line := TrimRight(lines[n], IsBlank);
      TrimRightTwice(lines[n]);
      assert goal == Lines(Line(st, line, upper), lines[n + 1..], upper) by {
        assert lines[n..][1..] == lines[n + 1..];
      }
      if line == "" || line[0] == '#' {
        continue;
      }
      st := ReadLine(st, line, upper);
      if !st.ok {
        NotOk(st, lines[n + 1..], upper);
        return false, st.env;
      }
    }
    return true, st.env;
  }

  lemma {:induction false} TrimRightTwice(s: string)
    ensures TrimRight(TrimRight(s, IsBlank), IsBlank) == TrimRight(s, IsBlank)
  {
    if s != "" && s[|s| - 1] == ' ' {
      TrimRightTwice(s[..|s| - 1]);
    }
  }

  lemma {:induction false} NotOk(st: Loader, lines: seq<string>, upper: char -> char)
    requires !st.ok
    ensures Lines(st, lines, upper) == st
  {
    if lines != [] {
      NotOk(st, lines[1..], upper);
    }
  }

  // ---- documents ----

  /** A document: sections, settings with a plain or quoted value, and lines that are blank or
      comments, each followed by the rest of its level. */
  datatype Doc =
    | End
    | Section(name: string, body: Doc, rest: Doc)
    | Setting(name: string, quote: Option<char>, value: string, rest: Doc)
    | Filler(line: string, rest: Doc)

  function Blanks(n: nat): (s: string)
    ensures |s| == n && forall i :: 0 <= i < n ==> s[i] == ' '
  {
    seq(n, _ => ' ')
  }

  function Rendered(quote: Option<char>, value: string): string {
    match quote
    case None => value
    case Some(q) => [q] + value + [q]
  }

  /** The document's lines, indented by two blanks per level. */
  function Print(doc: Doc, depth: nat): seq<string> {
    match doc
    case End => []
    case Section(name, body, rest) =>
      [Blanks(2 * depth) + name + ":"] + Print(body, depth + 1) + Print(rest, depth)
    case Setting(name, quote, value, rest) =>
      [Blanks(2 * depth) + name + ": " + Rendered(quote, value)] + Print(rest, depth)
    case Filler(line, rest) => [line] + Print(rest, depth)
  }

  datatype Entry = Entry(path: seq<string>, value: string)

  /** The settings of a document with the names of their enclosing sections, in document order;
      an empty value means "true". */
  function Entries(doc: Doc, path: seq<string>): seq<Entry> {
    match doc
    case End => []
    case Section(name, body, rest) => Entries(body, path + [name]) + Entries(rest, path)
    case Setting(name, _, value, rest) =>
      [Entry(path + [name], if value == "" then "true" else value)] + Entries(rest, path)
    case Filler(_, rest) => Entries(rest, path)
  }

  /** The environment with each entry assigned in turn under its upper-cased joined path. */
  function Overlay(env: Env, entries: seq<Entry>, upper: char -> char): Env
    decreases |entries|
  {
    if entries == [] then env
    else Overlay(env[UpperAll(Join(entries[0].path, "_"), upper) := entries[0].value], entries[1..], upper)
  }

  predicate PlainValue(v: string) {
    v != "" && BareEnds(v, IsSpace) && BareEnds(v, IsQuote) && v[|v| - 1] != ':'
  }

  /** A name that does not turn its line into a comment. */
  predicate NotComment(name: string, depth: nat) {
    depth == 0 && name != "" ==> name[0] != '#'
  }

  predicate WellFormed(doc: Doc, path: seq<string>, upper: char -> char) {
    match doc
    case End => true
    case Section(name, body, rest) =>
      && (name != "" ==> !IsSpace(name[0])) && NotComment(name, |path|)
      && WellFormed(body, path + [name], upper) && WellFormed(rest, path, upper)
    case Setting(name, quote, value, rest) =>
      && BareEnds(name, IsSpace) && ':' !in name && NotComment(name, |path|)
      && (match quote
          case None => PlainValue(value)
          case Some(q) => (q == '"' || q == '\'') && BareEnds(value, IsQuote))
      && Settable(FullKey(path, name, upper), if value == "" then "true" else value)
      && WellFormed(rest, path, upper)
    case Filler(line, rest) => (AllBlank(line) || IsComment(line)) && WellFormed(rest, path, upper)
  }

  predicate AllBlank(line: string) {
    forall i :: 0 <= i < |line| ==> line[i] == ' '
  }

  predicate IsComment(line: string) {
    line != "" && line[0] == '#'
  }

  // ---- lines without effect ----

  lemma {:induction false} TrimmedBlanks(line: string)
    ensures TrimRight(line, IsBlank) == "" <==> AllBlank(line)
    ensures TrimRight(line, IsBlank) != "" ==> TrimRight(line, IsBlank)[0] == line[0]
  {
    if line != "" && line[|line| - 1] == ' ' {
      var front := line[..|line| - 1];
      TrimmedBlanks(front);
      assert AllBlank(line) <==> AllBlank(front) by {
        assert forall i :: 0 <= i < |front| ==> front[i] == line[i];
      }
    }
  }

  /** The loader passes over exactly the lines that are blank or start with '#'. */
  lemma SkippedExactly(line: string)
    ensures Skipped(line) <==> AllBlank(line) || IsComment(line)
  {
    TrimmedBlanks(line);
  }

  /** Such a line changes nothing, whatever the state. */
  lemma FillerLine(st: Loader, line: string, upper: char -> char)
    requires AllBlank(line) || IsComment(line)
    ensures Line(st, line, upper) == st
  {
    SkippedExactly(line);
  }

  lemma BlankLine(st: Loader, n: nat, upper: char -> char)
    ensures Line(st, Blanks(n), upper) == st
  {
    FillerLine(st, Blanks(n), upper);
  }

  lemma CommentLine(st: Loader, text: string, upper: char -> char)
    ensures Line(st, "#" + text, upper) == st
  {
    FillerLine(st, "#" + text, upper);
  }

  /** Any other line is read at its own indent. */
  lemma OtherLine(st: Loader, line: string, upper: char -> char)
    requires st.ok && !AllBlank(line) && !IsComment(line)
    ensures var st' := Line(st, line, upper);
      var indent := LeadingBlanks(TrimRight(line, IsBlank));
      st'.indent == indent || (st'.indent == indent + 2 && st'.stack != [] && st'.env == st.env)
  {
    SkippedExactly(line);
  }

  /** Content without a colon sets nothing. */
  lemma NoColon(st: Loader, content: string, upper: char -> char)
    requires ':' !in content
    ensures Content(st, content, upper) == st
  {
    assert forall i :: 0 <= i < |content| ==> content[i] in content;
  }

  // ---- keys and values ----

  /** A key is the upper-cased names of its path with underscores between them. */
  lemma KeyByParts(first: string, rest: seq<string>, key: string, upper: char -> char)
    requires upper('_') == '_'
    ensures |FullKey([], key, upper)| == |key|
    ensures forall i :: 0 <= i < |key| ==> FullKey([], key, upper)[i] == upper(key[i])
    ensures FullKey([first] + rest, key, upper) == FullKey([], first, upper) + "_" + FullKey(rest, key, upper)
  {
    var path := [first] + rest + [key];
    assert [] + [key] == [key] && [] + [first] == [first];
    assert path[1..] == rest + [key];
    assert Join(path, "_") == first + "_" + Join(rest + [key], "_");
  }

  function KeyOf(e: Entry, upper: char -> char): string {
    UpperAll(Join(e.path, "_"), upper)
  }

  /** Entry `i` sets `key` and no later entry does. */
  predicate SetsLast(entries: seq<Entry>, i: int, key: string, upper: char -> char) {
    && 0 <= i < |entries| && KeyOf(entries[i], upper) == key
    && forall j :: i < j < |entries| ==> KeyOf(entries[j], upper) != key
  }

  predicate NeverSets(entries: seq<Entry>, key: string, upper: char -> char) {
    forall j :: 0 <= j < |entries| ==> KeyOf(entries[j], upper) != key
  }

  /** The last entry of a key gives its value, and a key without entry keeps what it had. */
  lemma {:induction false} LaterEntriesWin(env: Env, entries: seq<Entry>, key: string, upper: char -> char)
    ensures var end := Overlay(env, entries, upper);
      && (forall i :: SetsLast(entries, i, key, upper) ==> key in end && end[key] == entries[i].value)
      && (NeverSets(entries, key, upper) ==>
            (key in end <==> key in env) && (key in env ==> end[key] == env[key]))
    decreases |entries|
  {
    if entries != [] {
      var rest := entries[1..];
      var next := env[KeyOf(entries[0], upper) := entries[0].value];
      LaterEntriesWin(next, rest, key, upper);
      assert forall j :: 1 <= j < |entries| ==> entries[j] == rest[j - 1];
      forall i | SetsLast(entries, i, key, upper)
        ensures var end := Overlay(env, entries, upper); key in end && end[key] == entries[i].value
      {
        if i == 0 {
          assert NeverSets(rest, key, upper);
        } else {
          assert SetsLast(rest, i - 1, key, upper);
        }
      }
      assert NeverSets(entries, key, upper) ==> NeverSets(rest, key, upper) && KeyOf(entries[0], upper) != key;
    }
  }

  // ---- reading a printed line ----

  lemma {:induction false} LeadingBlanksOf(n: nat, s: string)
    requires s != "" && s[0] != ' '
    ensures LeadingBlanks(Blanks(n) + s) == n
  {
    if n == 0 {
      assert Blanks(0) + s == s;
    } else {
      assert (Blanks(n) + s)[1..] == Blanks(n - 1) + s;
      LeadingBlanksOf(n - 1, s);
    }
  }

  /** A printed line is not skipped, and is taken apart into its indent and its content. */
  lemma LineParts(n: nat, content: string)
    requires content != "" && BareEnds(content, IsSpace)
    requires n == 0 ==> content[0] != '#'
    ensures var raw := Blanks(n) + content;
      && !Skipped(raw)
      && TrimRight(raw, IsBlank) == raw
      && LeadingBlanks(raw) == n
      && Trim(raw, IsSpace) == content
  {
    var raw := Blanks(n) + content;
    assert raw[|raw| - 1] == content[|content| - 1];
    LeadingBlanksOf(n, content);
    assert forall c :: c in Blanks(n) ==> IsSpace(c);
    TrimPadded(Blanks(n), content, "", IsSpace);
    assert raw + "" == raw;
    assert raw[0] == if n == 0 then content[0] else ' ';
  }

  /** The pop loop goes back to the enclosing section. */
  lemma {:induction false} PopsToDepth(depth: nat, stack: seq<string>)
    requires depth <= |stack|
    ensures Popped(2 * depth, 2 * |stack|, stack) == stack[..depth]
  {
    if depth < |stack| {
      var shorter := stack[..|stack| - 1];
      PopsToDepth(depth, shorter);
      assert shorter[..depth] == stack[..depth];
    } else {
      assert stack[..depth] == stack;
    }
  }

  /** At any indent, the loop leaves one section for each two columns, or part of them, by which the
      line stands further left, as long as there are sections. */
  lemma {:induction false} PopsByIndent(indent: int, current: int, stack: seq<string>)
    ensures var left := if indent < current then (current - indent + 1) / 2 else 0;
      Popped(indent, current, stack) == stack[..if left < |stack| then |stack| - left else 0]
    decreases |stack|
  {
    if indent < current && stack != [] {
      var shorter := stack[..|stack| - 1];
      PopsByIndent(indent, current - 2, shorter);
      assert forall k :: 0 <= k <= |shorter| ==> shorter[..k] == stack[..k];
    }
  }

  /** Between lines, the indent counts the stack, and the stack starts with the path of the
      section being read. */
  ghost predicate Aligned(st: Loader, path: seq<string>) {
    st.ok && st.indent == 2 * |st.stack| && path <= st.stack
  }

  lemma HeaderLine(st: Loader, path: seq<string>, name: string, upper: char -> char)
    requires Aligned(st, path)
    requires (name != "" ==> !IsSpace(name[0])) && NotComment(name, |path|)
    ensures Line(st, Blanks(2 * |path|) + name + ":", upper)
         == Loader(true, 2 * |path| + 2, path + [name], st.env)
  {
    var content := name + ":";
    assert Blanks(2 * |path|) + name + ":" == Blanks(2 * |path|) + content;
    LineParts(2 * |path|, content);
    PopsToDepth(|path|, st.stack);
    assert content[..|content| - 1] == name;
  }

  lemma RenderedValue(quote: Option<char>, value: string)
    requires match quote
             case None => PlainValue(value)
             case Some(q) => (q == '"' || q == '\'') && BareEnds(value, IsQuote)
    ensures var r := Rendered(quote, value);
      && r != "" && BareEnds(r, IsSpace) && r[|r| - 1] != ':'
      && Trim(r, IsQuote) == value
  {
    if quote.None? {
      TrimPadded("", value, "", IsQuote);
      assert "" + value + "" == value;
    } else {
      TrimPadded([quote.value], value, [quote.value], IsQuote);
    }
  }

  lemma SettingParts(name: string, r: string)
    requires BareEnds(name, IsSpace) && ':' !in name
    requires r != "" && BareEnds(r, IsSpace)
    ensures var content := name + ": " + r;
      && Find(content, ':') == |name|
      && Trim(content[..|name|], IsSpace) == name
      && Trim(content[|name| + 1..], IsSpace) == r
  {
    var content := name + ": " + r;
    var tail := " " + r;
    assert content == name + [':'] + tail;
    FindSeparator(name, ':', tail);
    assert content[..|name|] == name;
    assert content[|name| + 1..] == tail;
    TrimPadded("", name, "", IsSpace);
    assert "" + name + "" == name;
    TrimPadded(" ", r, "", IsSpace);
    assert " " + r + "" == tail;
  }

  lemma SettingContent(st: Loader, name: string, r: string, value: string, upper: char -> char)
    requires BareEnds(name, IsSpace) && ':' !in name
    requires r != "" && BareEnds(r, IsSpace) && r[|r| - 1] != ':' && Trim(r, IsQuote) == value
    ensures Content(st, name + ": " + r, upper)
         == Assigned(st, FullKey(st.stack, name, upper), if value == "" then "true" else value)
  {
    var content := name + ": " + r;
    SettingParts(name, r);
    assert content[|content| - 1] == r[|r| - 1];
  }

  lemma SettingLine(st: Loader, path: seq<string>, name: string, quote: Option<char>, value: string, upper: char -> char)
    requires Aligned(st, path)
    requires BareEnds(name, IsSpace) && ':' !in name && NotComment(name, |path|)
    requires match quote
             case None => PlainValue(value)
             case Some(q) => (q == '"' || q == '\'') && BareEnds(value, IsQuote)
    requires Settable(FullKey(path, name, upper), if value == "" then "true" else value)
    ensures Line(st, Blanks(2 * |path|) + name + ": " + Rendered(quote, value), upper)
         == Loader(true, 2 * |path|, path,
                   st.env[FullKey(path, name, upper) := if value == "" then "true" else value])
  {
    var r := Rendered(quote, value);
    RenderedValue(quote, value);
    var content := name + ": " + r;
    assert content[0] == if name == "" then ':' else name[0];
    assert content[|content| - 1] == r[|r| - 1];
    assert Blanks(2 * |path|) + name + ": " + r == Blanks(2 * |path|) + content;
    LineParts(2 * |path|, content);
    PopsToDepth(|path|, st.stack);
    assert st.stack[..|path|] == path;
    SettingContent(st.(indent := 2 * |path|, stack := path), name, r, value, upper);
  }

  // ---- reading a printed document ----

  lemma {:induction false} LinesAppend(st: Loader, a: seq<string>, b: seq<string>, upper: char -> char)
    ensures Lines(st, a + b, upper) == Lines(Lines(st, a, upper), b, upper)
    decreases |a|
  {
    if a == [] {
      assert a + b == b;
    } else {
      assert (a + b)[1..] == a[1..] + b;
      LinesAppend(Line(st, a[0], upper), a[1..], b, upper);
    }
  }

  lemma LinesOne(st: Loader, line: string, upper: char -> char)
    ensures Lines(st, [line], upper) == Line(st, line, upper)
  {
    assert [line][1..] == [];
  }

  lemma {:induction false} OverlayAppend(env: Env, a: seq<Entry>, b: seq<Entry>, upper: char -> char)
    ensures Overlay(env, a + b, upper) == Overlay(Overlay(env, a, upper), b, upper)
    decreases |a|
  {
    if a == [] {
      assert a + b == b;
    } else {
      assert (a + b)[1..] == a[1..] + b;
      OverlayAppend(env[UpperAll(Join(a[0].path, "_"), upper) := a[0].value], a[1..], b, upper);
    }
  }

  /** Reading a printed part of a document inside section `path` performs its assignments, in
      order and with later ones winning, and comes back to that section. */
  lemma {:induction false} ReadsPrinted(doc: Doc, path: seq<string>, st: Loader, upper: char -> char)
    requires WellFormed(doc, path, upper) && Aligned(st, path)
    ensures var end := Lines(st, Print(doc, |path|), upper);
      Aligned(end, path) && end.env == Overlay(st.env, Entries(doc, path), upper)
  {
    match doc
    case End =>
    case Filler(line, rest) =>
      FillerLine(st, line, upper);
      LinesAppend(st, [line], Print(rest, |path|), upper);
      LinesOne(st, line, upper);
      ReadsPrinted(rest, path, st, upper);
    case Setting(name, quote, value, rest) =>
      var line := Blanks(2 * |path|) + name + ": " + Rendered(quote, value);
      var next := Line(st, line, upper);
      SettingLine(st, path, name, quote, value, upper);
      LinesAppend(st, [line], Print(rest, |path|), upper);
      LinesOne(st, line, upper);
      ReadsPrinted(rest, path, next, upper);
      var entry := Entry(path + [name], if value == "" then "true" else value);
      OverlayAppend(st.env, [entry], Entries(rest, path), upper);
      assert [entry][1..] == [];
      assert Overlay(st.env, [entry], upper) == next.env;
    case Section(name, body, rest) =>
      var line := Blanks(2 * |path|) + name + ":";
      var inside := Line(st, line, upper);
      HeaderLine(st, path, name, upper);
      ReadsPrinted(body, path + [name], inside, upper);
      var after := Lines(inside, Print(body, |path| + 1), upper);
      ReadsPrinted(rest, path, after, upper);
      LinesOne(st, line, upper);
      LinesAppend(st, [line], Print(body, |path| + 1), upper);
      LinesAppend(st, [line] + Print(body, |path| + 1), Print(rest, |path|), upper);
      OverlayAppend(st.env, Entries(body, path + [name]), Entries(rest, path), upper);
  }

  /** Loading a printed document sets exactly the variables its tree says, later lines winning. */
  lemma LoadsDocument(doc: Doc, env: Env, upper: char -> char)
    requires WellFormed(doc, [], upper)
    ensures var end := Lines(Loader(true, 0, [], env), Print(doc, 0), upper);
      end.ok && end.env == Overlay(env, Entries(doc, []), upper)
  {
    ReadsPrinted(doc, [], Loader(true, 0, [], env), upper);
  }

  /** Key by key: the last setting of a key gives its value, and no other variable changes. */
  lemma LoadsEachKey(doc: Doc, env: Env, key: string, upper: char -> char)
    requires WellFormed(doc, [], upper)
    ensures var end, entries := Lines(Loader(true, 0, [], env), Print(doc, 0), upper).env, Entries(doc, []);
      && (forall i :: SetsLast(entries, i, key, upper) ==> key in end && end[key] == entries[i].value)
      && (NeverSets(entries, key, upper) ==>
            (key in end <==> key in env) && (key in env ==> end[key] == env[key]))
  {
    LoadsDocument(doc, env, upper);
    LaterEntriesWin(env, Entries(doc, []), key, upper);
  }

  /** A variable that cannot be set ends the loading: what was set before stays, later lines are
      not read. */
  lemma StopsAtBadKey(st: Loader, line: string, more: seq<string>, upper: char -> char)
    requires st.ok && !Line(st, line, upper).ok
    ensures var end := Lines(st, [line] + more, upper); !end.ok && end.env == st.env
  {
    var bad := Line(st, line, upper);
    LinesAppend(st, [line], more, upper);
    LinesOne(st, line, upper);
    NotOk(bad, more, upper);
  }

  // ---- empty values ----

  /** A field without a value, `key:`, opens a section and sets no variable, whatever the state:
      the default for empty fields never applies to it. */
  lemma BareFieldSetsNothing(st: Loader, raw: string, upper: char -> char)
    requires st.ok && !Skipped(raw)
    requires var c := Trim(TrimRight(raw, IsBlank), IsSpace); c != "" && c[|c| - 1] == ':'
    ensures var st' := Line(st, raw, upper);
      st'.env == st.env && st'.ok && |st'.stack| > 0 && st'.indent == LeadingBlanks(TrimRight(raw, IsBlank)) + 2
  {}

  lemma {:induction false} TrimsToNothing(s: string, p: char -> bool)
    ensures Trim(s, p) == "" <==> forall c :: c in s ==> p(c)
  {
    if forall c :: c in s ==> p(c) {
      TrimLeftAll(s, p);
    } else {
      TrimLeftSome(s, p);
      TrimRightSome(TrimLeft(s, p), p);
    }
  }

  lemma {:induction false} TrimLeftSome(s: string, p: char -> bool)
    requires exists c :: c in s && !p(c)
    ensures var t := TrimLeft(s, p); t != "" && !p(t[0])
  {
    if p(s[0]) {
      assert s == [s[0]] + s[1..];
      TrimLeftSome(s[1..], p);
    }
  }

  lemma {:induction false} TrimRightSome(s: string, p: char -> bool)
    requires s != "" && !p(s[0])
    ensures TrimRight(s, p) != ""
  {
    if p(s[|s| - 1]) {
      TrimRightSome(s[..|s| - 1], p);
    }
  }

  /** What a setting assigns: the text after its first colon, without edge spaces and then quotes. */
  lemma ContentSets(st: Loader, content: string, i: nat, upper: char -> char)
    requires i < |content| && content[|content| - 1] != ':' && i == Find(content, ':')
    ensures var value := Trim(Trim(content[i + 1..], IsSpace), IsQuote);
      Content(st, content, upper)
        == Assigned(st, FullKey(st.stack, Trim(content[..i], IsSpace), upper), if value == "" then "true" else value)
  {}

  /** The default "true" is given exactly to a setting whose text after the first colon is made of
      quotes once its edge spaces are gone. */
  lemma DefaultOnlyForQuotes(st: Loader, content: string, upper: char -> char)
    requires ':' in content && content[|content| - 1] != ':'
    ensures var i := Find(content, ':');
      && i < |content|
      && var text := Trim(content[i + 1..], IsSpace);
         var full := FullKey(st.stack, Trim(content[..i], IsSpace), upper);
         Content(st, content, upper)
           == Assigned(st, full, if forall c :: c in text ==> IsQuote(c) then "true" else Trim(text, IsQuote))
  {
    var i := Find(content, ':');
    assert i < |content|;
    ContentSets(st, content, i, upper);
    TrimsToNothing(Trim(content[i + 1..], IsSpace), IsQuote);
  }
}
