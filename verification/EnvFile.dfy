/**
  The `.env` printer of the CLI and the parser that loads the file back.  A table of key groups
  fixes which keys are printed and in what order; `env` is the environment of the plan.
 */
module EnvFile {
  import opened Common

  datatype Group = Group(title: string, keys: seq<string>)

  // ---------------------------------------------------------------- string primitives

  // What trim() removes and \s matches.
  predicate IsSpace(c: char) {
    c == ' ' || '\t' <= c <= '\r' || c == '\U{A0}' || c == '\U{1680}' || '\U{2000}' <= c <= '\U{200A}'
    || c == '\U{2028}' || c == '\U{2029}' || c == '\U{202F}' || c == '\U{205F}' || c == '\U{3000}' || c == '\U{FEFF}'
  }

  function TrimStart(s: string): string {
    if s != "" && IsSpace(s[0]) then TrimStart(s[1..]) else s
  }

  function TrimEnd(s: string): string {
    if s != "" && IsSpace(s[|s| - 1]) then TrimEnd(s[..|s| - 1]) else s
  }

  function Trim(s: string): string {
    TrimEnd(TrimStart(s))
  }

  // A character in front of split text: a newline starts a line, anything else joins the first line.
  function Prepend(c: char, lines: seq<string>): (r: seq<string>)
    requires |lines| >= 1
    ensures |r| >= 1
  {
    if c == '\n' then [""] + lines else [[c] + lines[0]] + lines[1..]
  }

  function Split(s: string): (r: seq<string>)
    ensures |r| >= 1
  {
    if s == "" then [""] else Prepend(s[0], Split(s[1..]))
  }

  function Join(lines: seq<string>): string {
    if lines == [] then "" else if |lines| == 1 then lines[0] else lines[0] + "\n" + Join(lines[1..])
  }

  function IndexOf(s: string, c: char): (r: Option<nat>)
    ensures r.Some? ==> r.value < |s| && s[r.value] == c
  {
    if s == "" then None
    else if s[0] == c then Some(0)
    else match IndexOf(s[1..], c)
      case None => None
      case Some(i) => Some(i + 1)
  }

  predicate CommentAt(s: string) {
    |s| >= 3 && s[0] == ' ' && s[1] == ' ' && s[2] == '#'
  }

  function CommentIndex(s: string): (r: Option<nat>)
    ensures r.Some? ==> r.value < |s|
  {
    if s == "" then None
    else if CommentAt(s) then Some(0)
    else match CommentIndex(s[1..])
      case None => None
      case Some(i) => Some(i + 1)
  }

  // ---------------------------------------------------------------- the parser

  function Unquote(v: string): string {
    if v != "" && ((v[0] == '"' && v[|v| - 1] == '"') || (v[0] == '\'' && v[|v| - 1] == '\'')) then
      if |v| == 1 then "" else v[1..|v| - 1]
    else v
  }

  function CutComment(v: string): string {
    match CommentIndex(v)
    case None => v
    case Some(i) => Trim(v[..i])
  }

  datatype Binding = Binding(key: string, value: string)

  function ParseLine(line: string): Option<Binding> {
    var t := Trim(line);
    if t == "" || t[0] == '#' then None
    else match IndexOf(t, '=')
      case None => None
      case Some(i) => Some(Binding(Trim(t[..i]), CutComment(Unquote(Trim(t[i + 1..])))))
  }

  // An existing variable is not overridden.
  function Bind(env: map<string, string>, b: Option<Binding>): map<string, string> {
    if b.Some? && b.value.key !in env then env[b.value.key := b.value.value] else env
  }

  function LoadLines(lines: seq<string>, env: map<string, string>): map<string, string>
    decreases lines
  {
    if lines == [] then env else LoadLines(lines[1..], Bind(env, ParseLine(lines[0])))
  }

  function Load(text: string, env: map<string, string>): map<string, string> {
    LoadLines(Split(text), env)
  }

  // ---------------------------------------------------------------- the printer

  predicate IsSpecial(c: char) {
    IsSpace(c) || c in "#\"'\\$`!"
  }

  predicate NeedsQuotes(v: string) {
    exists c | c in v :: IsSpecial(c)
  }

  function Escape(v: string): string {
    if v == "" then ""
    else (if v[0] == '\\' || v[0] == '"' then ['\\', v[0]] else [v[0]]) + Escape(v[1..])
  }

  function ValueLine(key: string, v: string): string {
    if NeedsQuotes(v) then key + "=\"" + Escape(v) + "\"" else key + "=" + v
  }

  function KeyLines(key: string, v: string): seq<string> {
    if v == "" then ["# TODO: fill in " + key, key + "="] else [ValueLine(key, v)]
  }

  function Present(keys: seq<string>, env: map<string, string>): seq<string> {
    if keys == [] then [] else (if keys[0] in env then [keys[0]] else []) + Present(keys[1..], env)
  }

  function ValueOf(env: map<string, string>, key: string): string {
    if key in env then env[key] else ""
  }

  function PrintKeys(keys: seq<string>, env: map<string, string>): seq<string> {
    if keys == [] then [] else KeyLines(keys[0], ValueOf(env, keys[0])) + PrintKeys(keys[1..], env)
  }

  function PrintGroup(g: Group, env: map<string, string>): seq<string> {
    var keys := Present(g.keys, env);
    if keys == [] then [] else ["# " + g.title] + PrintKeys(keys, env) + [""]
  }

  function PrintGroups(groups: seq<Group>, env: map<string, string>): seq<string> {
    if groups == [] then [] else PrintGroup(groups[0], env) + PrintGroups(groups[1..], env)
  }

  const SEE_ALSO := "# See .env.example" + " for the full list" + " of available variables."

  function Header(date: string): seq<string> {
    ["# Generated by: yclaw init", "# Date: " + date, SEE_ALSO, ""]
  }

  function Print(groups: seq<Group>, env: map<string, string>, date: string): string {
    Join(Header(date) + PrintGroups(groups, env))
  }

  lemma {:induction false} PresentAreIn(keys: seq<string>, env: map<string, string>)
    ensures forall k :: k in Present(keys, env) <==> k in keys && k in env
  {
    if keys != [] {
      PresentAreIn(keys[1..], env);
    }
  }

  // ---------------------------------------------------------------- the table of keys

  predicate IsKeyChar(c: char) {
    'A' <= c <= 'Z' || '0' <= c <= '9' || c == '_'
  }

  predicate IsKey(k: string) {
    k != "" && forall c | c in k :: IsKeyChar(c)
  }

  function AllKeys(groups: seq<Group>): seq<string> {
    if groups == [] then [] else groups[0].keys + AllKeys(groups[1..])
  }

  predicate OneLine(s: string) {
    '\n' !in s
  }

  ghost predicate GoodTable(groups: seq<Group>) {
    && (forall g | g in groups :: OneLine(g.title))
    && (forall k | k in AllKeys(groups) :: IsKey(k))
  }

  // The values that survive: no double quote, no backslash, no newline, no two spaces before a '#'.
  predicate Clean(v: string) {
    '"' !in v && '\\' !in v && CommentIndex(v).None?
  }

  predicate Survives(v: string) {
    Clean(v) && OneLine(v)
  }

  // ---------------------------------------------------------------- trimming and splitting

  lemma TrimIsIdentity(s: string)
    requires s == "" || (!IsSpace(s[0]) && !IsSpace(s[|s| - 1]))
    ensures Trim(s) == s
  {
  }

  lemma {:induction false} TrimEndIsPrefix(s: string)
    ensures TrimEnd(s) <= s
  {
    if s != "" && IsSpace(s[|s| - 1]) {
      TrimEndIsPrefix(s[..|s| - 1]);
    }
  }

  lemma {:induction false} TrimStartIsSuffix(s: string) returns (i: nat)
    ensures i <= |s| && TrimStart(s) == s[i..]
  {
    i := 0;
    if s != "" && IsSpace(s[0]) {
      i := TrimStartIsSuffix(s[1..]);
      i := i + 1;
    }
  }

  // Trimming the end stops at the last part that does not end in a space.
  lemma {:induction false} TrimEndKeeps(a: string, b: string)
    requires a != "" && !IsSpace(a[|a| - 1])
    ensures a <= TrimEnd(a + b)
    decreases |b|
  {
    if b == "" {
      assert a + b == a;
    } else if IsSpace(b[|b| - 1]) {
      assert (a + b)[..|a + b| - 1] == a + b[..|b| - 1];
      TrimEndKeeps(a, b[..|b| - 1]);
    }
  }

  lemma PrependAppend(c: char, a: seq<string>, b: seq<string>)
    requires |a| >= 1
    ensures Prepend(c, a + b) == Prepend(c, a) + b
  {
    assert (a + b)[1..] == a[1..] + b;
  }

  lemma {:induction false} SplitAtNewline(a: string, b: string)
    ensures Split(a + "\n" + b) == Split(a) + Split(b)
  {
    var s := a + "\n" + b;
    if a == "" {
      assert s[1..] == b;
    } else {
      assert s[1..] == a[1..] + "\n" + b && s[0] == a[0];
      SplitAtNewline(a[1..], b);
      PrependAppend(a[0], Split(a[1..]), Split(b));
    }
  }

  lemma {:induction false} SplitOneLine(s: string)
    requires OneLine(s)
    ensures Split(s) == [s]
  {
    if s != "" {
      SplitOneLine(s[1..]);
      assert [s[0]] + s[1..] == s;
    }
  }

  lemma {:induction false} SplitPrefix(a: string, b: string)
    requires OneLine(a)
    ensures Split(a + b)[0] == a + Split(b)[0] && Split(a + b)[1..] == Split(b)[1..]
  {
    if a == "" {
      assert a + b == b;
    } else {
      SplitPrefix(a[1..], b);
      assert (a + b)[1..] == a[1..] + b;
    }
  }

  lemma {:induction false} LoadLinesAppend(a: seq<string>, b: seq<string>, env: map<string, string>)
    ensures LoadLines(a + b, env) == LoadLines(b, LoadLines(a, env))
    decreases a
  {
    if a == [] {
      assert a + b == b;
    } else {
      assert (a + b)[1..] == a[1..] + b;
      LoadLinesAppend(a[1..], b, Bind(env, ParseLine(a[0])));
    }
  }

  // Loading printed lines one at a time; a printed line may hold newlines of its own.
  function LoadEach(lines: seq<string>, env: map<string, string>): map<string, string>
    decreases lines
  {
    if lines == [] then env else LoadEach(lines[1..], Load(lines[0], env))
  }

  lemma {:induction false} LoadJoined(lines: seq<string>, env: map<string, string>)
    requires lines != []
    ensures Load(Join(lines), env) == LoadEach(lines, env)
    decreases lines
  {
    if |lines| > 1 {
      SplitAtNewline(lines[0], Join(lines[1..]));
      LoadLinesAppend(Split(lines[0]), Split(Join(lines[1..])), env);
      LoadJoined(lines[1..], Load(lines[0], env));
    }
  }

  lemma {:induction false} LoadEachAppend(a: seq<string>, b: seq<string>, env: map<string, string>)
    ensures LoadEach(a + b, env) == LoadEach(b, LoadEach(a, env))
    decreases a
  {
    if a == [] {
      assert a + b == b;
    } else {
      assert (a + b)[1..] == a[1..] + b;
      LoadEachAppend(a[1..], b, Load(a[0], env));
    }
  }

  lemma CommentLineIsSkipped(line: string, env: map<string, string>)
    requires OneLine(line) && (line == "" || line[0] == '#')
    ensures Load(line, env) == env
  {
    SplitOneLine(line);
    assert LoadLines([line], env) == LoadLines([line][1..], Bind(env, ParseLine(line)));
    if line != "" {
      TrimEndKeeps([line[0]], line[1..]);
      assert [line[0]] + line[1..] == line;
      assert TrimStart(line) == line;
    }
  }

  // ---------------------------------------------------------------- one value, printed and parsed

  lemma {:induction false} IndexAfter(k: string, rest: string)
    requires '=' !in k
    ensures IndexOf(k + "=" + rest, '=') == Some(|k|)
  {
    if k != "" {
      assert (k + "=" + rest)[1..] == k[1..] + "=" + rest;
      IndexAfter(k[1..], rest);
    }
  }

  // A trimmed line `key=rest` binds the key to what the parser makes of the rest.
  lemma ParseAssignment(line: string, k: string, rest: string)
    requires IsKey(k) && Trim(line) == k + "=" + rest
    ensures ParseLine(line) == Some(Binding(k, CutComment(Unquote(Trim(rest)))))
  {
    var t := k + "=" + rest;
    assert forall c | c in k :: c != '=';
    IndexAfter(k, rest);
    assert t[..|k|] == k && t[|k| + 1..] == rest;
    assert k[0] in k && k[|k| - 1] in k && t[0] == k[0];
    TrimIsIdentity(k);
  }

  lemma {:induction false} EscapeOfClean(v: string)
    ensures |Escape(v)| >= |v|
    ensures '"' !in v && '\\' !in v ==> Escape(v) == v
    ensures '"' in v || '\\' in v ==> |Escape(v)| > |v|
    ensures OneLine(v) ==> OneLine(Escape(v))
  {
    if v != "" {
      EscapeOfClean(v[1..]);
      assert v == [v[0]] + v[1..];
    }
  }

  lemma {:induction false} CommentFromEscape(v: string)
    requires CommentIndex(Escape(v)).Some?
    ensures CommentIndex(v).Some?
  {
    if v != "" {
      var e, rest := Escape(v), Escape(v[1..]);
      if v[0] == '\\' || v[0] == '"' {
        assert e[1..][1..] == rest;
        assert !CommentAt(e) && !CommentAt(e[1..]);
        CommentFromEscape(v[1..]);
      } else {
        assert e[1..] == rest;
        if CommentAt(e) {
          EscapeHead(v[1..]);
          EscapeHead(v[2..]);
          assert CommentAt(v);
        } else {
          CommentFromEscape(v[1..]);
        }
      }
    }
  }

  lemma EscapeHead(v: string)
    ensures Escape(v) != "" ==> v != "" && (Escape(v)[0] != '\\' ==> v[0] == Escape(v)[0] && Escape(v)[1..] == Escape(v[1..]))
  {
  }

  lemma {:induction false} NoCommentBefore(s: string, i: nat, n: nat)
    requires CommentIndex(s) == Some(i) && n <= i
    ensures CommentIndex(s[..n]).None?
    decreases |s|
  {
    if n > 0 {
      assert s[..n][1..] == s[1..][..n - 1];
      NoCommentBefore(s[1..], i - 1, n - 1);
      assert CommentAt(s[..n]) ==> CommentAt(s);
    }
  }

  lemma {:induction false} NoCommentWithin(s: string, i: nat)
    requires CommentIndex(s).None? && i <= |s|
    ensures CommentIndex(s[i..]).None?
    decreases i
  {
    if i > 0 {
      assert s[1..][i - 1..] == s[i..];
      NoCommentWithin(s[1..], i - 1);
    }
  }

  lemma {:induction false} NoCommentInPrefix(s: string, n: nat)
    requires CommentIndex(s).None? && n <= |s|
    ensures CommentIndex(s[..n]).None?
    decreases |s|
  {
    if n > 0 {
      assert s[..n][1..] == s[1..][..n - 1];
      NoCommentInPrefix(s[1..], n - 1);
      assert CommentAt(s[..n]) ==> CommentAt(s);
    }
  }

  // What is left of a cut value holds no comment.
  lemma CutHasNoComment(s: string)
    ensures CommentIndex(CutComment(s)).None?
  {
    if CommentIndex(s).Some? {
      var i := CommentIndex(s).value;
      var p := s[..i];
      NoCommentBefore(s, i, i);
      var j := TrimStartIsSuffix(p);
      NoCommentWithin(p, j);
      TrimEndIsPrefix(p[j..]);
      NoCommentInPrefix(p[j..], |Trim(p)|);
      assert p[j..][..|Trim(p)|] == Trim(p);
    }
  }

  // What a quoted value comes back as, and when that is the value itself.
  lemma QuotedComesBackIff(v: string)
    ensures CutComment(Escape(v)) == v <==> Clean(v)
  {
    EscapeOfClean(v);
    CutHasNoComment(Escape(v));
    if CommentIndex(Escape(v)).Some? {
      CommentFromEscape(v);
    }
  }

  // What the parser stores for a printed single-line value.
  function ComesBackAs(v: string): string {
    if NeedsQuotes(v) then CutComment(Escape(v)) else v
  }

  lemma {:induction false} PlainHasNoComment(v: string)
    requires '#' !in v
    ensures CommentIndex(v).None?
  {
    if v != "" {
      PlainHasNoComment(v[1..]);
    }
  }

  lemma PlainIsClean(v: string)
    requires !NeedsQuotes(v)
    ensures Clean(v) && OneLine(v) && Unquote(v) == v && Trim(v) == v && CutComment(v) == v
  {
    assert forall c | c in v :: !IsSpecial(c);
    assert '#' !in v && '"' !in v && '\\' !in v && '\'' !in v && '\n' !in v;
    PlainHasNoComment(v);
    if v != "" {
      assert v[0] in v && v[|v| - 1] in v;
      TrimIsIdentity(v);
    }
  }

  lemma ComesBackIff(v: string)
    ensures ComesBackAs(v) == v <==> Clean(v)
  {
    if NeedsQuotes(v) {
      QuotedComesBackIff(v);
    } else {
      PlainIsClean(v);
    }
  }

  lemma QuotedLineParses(k: string, e: string)
    requires IsKey(k)
    ensures ParseLine(k + "=\"" + e + "\"") == Some(Binding(k, CutComment(e)))
  {
    var line, q := k + "=\"" + e + "\"", "\"" + e + "\"";
    assert line == k + "=" + q;
    assert k[0] in k && line[0] == k[0] && line[|line| - 1] == '"';
    TrimIsIdentity(line);
    TrimIsIdentity(q);
    ParseAssignment(line, k, q);
    assert q[1..|q| - 1] == e;
  }

  lemma PlainLineParses(k: string, v: string)
    requires IsKey(k) && !NeedsQuotes(v)
    ensures ParseLine(k + "=" + v) == Some(Binding(k, v))
  {
    var line := k + "=" + v;
    PlainIsClean(v);
    assert k[0] in k && line[0] == k[0];
    if v == "" {
      assert line[|line| - 1] == '=';
    } else {
      assert v[|v| - 1] in v && line[|line| - 1] == v[|v| - 1];
    }
    TrimIsIdentity(line);
    ParseAssignment(line, k, v);
  }

  lemma KeyIsOneLine(k: string)
    requires IsKey(k)
    ensures OneLine(k)
  {
  }

  lemma LoadOneLine(line: string, env: map<string, string>)
    requires OneLine(line)
    ensures Load(line, env) == Bind(env, ParseLine(line))
  {
    SplitOneLine(line);
    assert LoadLines([line], env) == LoadLines([line][1..], Bind(env, ParseLine(line)));
  }

  // A single-line value binds its own key and nothing else.
  lemma LoadKeyLines(k: string, v: string, env: map<string, string>)
    requires IsKey(k) && OneLine(v)
    ensures LoadEach(KeyLines(k, v), env) == Bind(env, Some(Binding(k, ComesBackAs(v))))
  {
    KeyIsOneLine(k);
    if v == "" {
      var todo, line := "# TODO: fill in " + k, k + "=";
      CommentLineIsSkipped(todo, env);
      LoadOneLine(line, env);
      assert !NeedsQuotes(v);
      PlainLineParses(k, v);
      assert k + "=" + v == line;
      assert LoadEach([todo, line], env) == LoadEach([line], Load(todo, env));
      assert LoadEach([line], env) == LoadEach([line][1..], Load(line, env));
    } else {
      var line := ValueLine(k, v);
      EscapeOfClean(v);
      assert OneLine(line);
      LoadOneLine(line, env);
      if NeedsQuotes(v) {
        QuotedLineParses(k, Escape(v));
      } else {
        PlainLineParses(k, v);
      }
      assert LoadEach([line], env) == LoadEach([line][1..], Load(line, env));
    }
  }

  // Bindings stay: loading never removes or changes one.
  lemma {:induction false} LoadLinesKeeps(lines: seq<string>, env: map<string, string>)
    ensures forall k | k in env :: k in LoadLines(lines, env) && LoadLines(lines, env)[k] == env[k]
    decreases lines
  {
    if lines != [] {
      LoadLinesKeeps(lines[1..], Bind(env, ParseLine(lines[0])));
    }
  }

  lemma {:induction false} LoadEachKeeps(lines: seq<string>, env: map<string, string>)
    ensures forall k | k in env :: k in LoadEach(lines, env) && LoadEach(lines, env)[k] == env[k]
    decreases lines
  {
    if lines != [] {
      LoadLinesKeeps(Split(lines[0]), env);
      LoadEachKeeps(lines[1..], Load(lines[0], env));
    }
  }

  // The lines of a text hold no newline, and neither does what is parsed from them.
  lemma {:induction false} SplitLinesAreOneLine(s: string)
    ensures forall l | l in Split(s) :: OneLine(l)
  {
    if s != "" {
      SplitLinesAreOneLine(s[1..]);
      var rest := Split(s[1..]);
      assert OneLine(rest[0]);
      if s[0] != '\n' {
        assert OneLine([s[0]] + rest[0]);
      }
      assert forall l | l in rest[1..] :: l in rest;
    }
  }

  lemma TrimIsOneLine(s: string)
    requires OneLine(s)
    ensures OneLine(Trim(s))
  {
    var i := TrimStartIsSuffix(s);
    TrimEndIsPrefix(s[i..]);
  }

  lemma ParsedIsOneLine(line: string)
    requires OneLine(line)
    ensures ParseLine(line).Some? ==> OneLine(ParseLine(line).value.value)
  {
    TrimIsOneLine(line);
    if ParseLine(line).Some? {
      var t := Trim(line);
      var raw := t[IndexOf(t, '=').value + 1..];
      TrimIsOneLine(raw);
      var v := Unquote(Trim(raw));
      assert OneLine(v);
      if CommentIndex(v).Some? {
        TrimIsOneLine(v[..CommentIndex(v).value]);
      }
    }
  }

  ghost predicate AllOneLine(env: map<string, string>) {
    forall k | k in env :: OneLine(env[k])
  }

  lemma {:induction false} LoadLinesOneLine(lines: seq<string>, env: map<string, string>)
    requires AllOneLine(env) && forall l | l in lines :: OneLine(l)
    ensures AllOneLine(LoadLines(lines, env))
    decreases lines
  {
    if lines != [] {
      ParsedIsOneLine(lines[0]);
      LoadLinesOneLine(lines[1..], Bind(env, ParseLine(lines[0])));
    }
  }

  lemma LoadedIsOneLine(text: string, env: map<string, string>)
    requires AllOneLine(env)
    ensures AllOneLine(Load(text, env))
  {
    SplitLinesAreOneLine(text);
    LoadLinesOneLine(Split(text), env);
  }

  // The line that opens a quoted value binds the key, however the value goes on.
  lemma OpeningLineBinds(k: string, rest: string)
    requires IsKey(k)
    ensures ParseLine(k + "=\"" + rest).Some? && ParseLine(k + "=\"" + rest).value.key == k
  {
    var quote := k + "=\"";
    var line := quote + rest;
    assert k[0] in k && line[0] == k[0];
    assert TrimStart(line) == line;
    TrimEndKeeps(quote, rest);
    var t := Trim(line);
    assert t[..|quote|] == quote;
    var tail := t[|k| + 1..];
    assert t == k + "=" + tail;
    ParseAssignment(line, k, tail);
  }

  // Whatever the rest of a text holds, the key assigned by its first line is bound.
  lemma FirstLineBinds(lines: seq<string>, env: map<string, string>)
    requires lines != [] && ParseLine(lines[0]).Some?
    ensures ParseLine(lines[0]).value.key in LoadLines(lines, env)
  {
    var now := Bind(env, ParseLine(lines[0]));
    assert LoadLines(lines, env) == LoadLines(lines[1..], now);
    LoadLinesKeeps(lines[1..], now);
  }

  // Whatever the value, even with newlines, the key's own line still binds the key.
  lemma KeyLineBinds(k: string, v: string, env: map<string, string>)
    requires IsKey(k) && NeedsQuotes(v)
    ensures k in LoadEach(KeyLines(k, v), env)
  {
    assert v != "";
    var line, quote, rest := ValueLine(k, v), k + "=\"", Escape(v) + "\"";
    Associates(quote, Escape(v), "\"");
    SplitPrefix(quote, rest);
    OpeningLineBinds(k, Split(rest)[0]);
    FirstLineBinds(Split(line), env);
    LoadOne(line, env);
  }

  lemma LoadOne(line: string, env: map<string, string>)
    ensures LoadEach([line], env) == Load(line, env)
  {
    assert [line][1..] == [];
  }

  // ---------------------------------------------------------------- a whole file, printed and parsed

  function PrintedKeys(groups: seq<Group>, env: map<string, string>): seq<string> {
    Present(AllKeys(groups), env)
  }

  // The effect of loading the lines of some printed keys.
  function LoadKeys(keys: seq<string>, env: map<string, string>, acc: map<string, string>): map<string, string>
    requires forall k | k in keys :: k in env
    decreases keys
  {
    if keys == [] then acc else LoadKeys(keys[1..], env, LoadEach(KeyLines(keys[0], env[keys[0]]), acc))
  }

  lemma {:induction false} LoadPrintedKeys(keys: seq<string>, env: map<string, string>, acc: map<string, string>)
    requires forall k | k in keys :: k in env
    ensures LoadEach(PrintKeys(keys, env), acc) == LoadKeys(keys, env, acc)
    decreases keys
  {
    if keys != [] {
      var lines := KeyLines(keys[0], env[keys[0]]);
      LoadEachAppend(lines, PrintKeys(keys[1..], env), acc);
      LoadPrintedKeys(keys[1..], env, LoadEach(lines, acc));
    }
  }

  lemma {:induction false} LoadKeysAppend(a: seq<string>, b: seq<string>, env: map<string, string>, acc: map<string, string>)
    requires forall k | k in a + b :: k in env
    ensures forall k | k in a :: k in a + b
    ensures forall k | k in b :: k in a + b
    ensures LoadKeys(a + b, env, acc) == LoadKeys(b, env, LoadKeys(a, env, acc))
    decreases a
  {
    assert forall k | k in a :: k in a + b;
    assert forall k | k in b :: k in a + b;
    if a == [] {
      assert a + b == b;
    } else {
      assert (a + b)[1..] == a[1..] + b;
      LoadKeysAppend(a[1..], b, env, LoadEach(KeyLines(a[0], env[a[0]]), acc));
    }
  }

  lemma {:induction false} PresentAppend(a: seq<string>, b: seq<string>, env: map<string, string>)
    ensures Present(a + b, env) == Present(a, env) + Present(b, env)
  {
    if a == [] {
      assert a + b == b;
    } else {
      assert (a + b)[1..] == a[1..] + b;
      PresentAppend(a[1..], b, env);
    }
  }

  lemma LoadPrintedGroup(g: Group, env: map<string, string>, acc: map<string, string>)
    requires OneLine(g.title)
    ensures forall k | k in Present(g.keys, env) :: k in env
    ensures LoadEach(PrintGroup(g, env), acc) == LoadKeys(Present(g.keys, env), env, acc)
  {
    var keys := Present(g.keys, env);
    PresentAreIn(g.keys, env);
    if keys != [] {
      var head, body := "# " + g.title, PrintKeys(keys, env);
      LoadPrintedKeys(keys, env, acc);
      CommentLineIsSkipped(head, acc);
      assert LoadEach([head], acc) == LoadEach([head][1..], Load(head, acc));
      LoadEachAppend([head], body, acc);
      var end := LoadKeys(keys, env, acc);
      CommentLineIsSkipped("", end);
      assert LoadEach([""], end) == LoadEach([""][1..], Load("", end));
      LoadEachAppend([head] + body, [""], acc);
    }
  }

  lemma {:induction false} LoadPrintedGroups(groups: seq<Group>, env: map<string, string>, acc: map<string, string>)
    requires forall g | g in groups :: OneLine(g.title)
    ensures forall k | k in PrintedKeys(groups, env) :: k in env
    ensures LoadEach(PrintGroups(groups, env), acc) == LoadKeys(PrintedKeys(groups, env), env, acc)
    decreases groups
  {
    PresentAreIn(AllKeys(groups), env);
    if groups != [] {
      var g, rest := groups[0], groups[1..];
      LoadPrintedGroup(g, env, acc);
      var mid := LoadKeys(Present(g.keys, env), env, acc);
      LoadPrintedGroups(rest, env, mid);
      LoadEachAppend(PrintGroup(g, env), PrintGroups(rest, env), acc);
      PresentAppend(g.keys, AllKeys(rest), env);
      LoadKeysAppend(Present(g.keys, env), PrintedKeys(rest, env), env, acc);
    }
  }

  ghost predicate IsComment(line: string) {
    OneLine(line) && (line == "" || line[0] == '#')
  }

  lemma {:induction false} CommentsAreSkipped(lines: seq<string>, acc: map<string, string>)
    requires forall l | l in lines :: IsComment(l)
    ensures LoadEach(lines, acc) == acc
    decreases lines
  {
    if lines != [] {
      assert IsComment(lines[0]);
      CommentLineIsSkipped(lines[0], acc);
      CommentsAreSkipped(lines[1..], acc);
    }
  }

  lemma HeaderIsComments(date: string)
    requires OneLine(date)
    ensures forall l | l in Header(date) :: IsComment(l)
  {
    var h := Header(date);
    assert IsComment(h[0]);
    assert IsComment(h[1]);
    assert OneLine(SEE_ALSO) by {
      var a, b, c := "# See .env.example", " for the full list", " of available variables.";
      assert OneLine(a) && OneLine(b) && OneLine(c);
      assert SEE_ALSO == a + b + c;
    }
    assert IsComment(h[2]);
    assert IsComment(h[3]);
  }

  lemma LoadHeader(date: string, rest: seq<string>, acc: map<string, string>)
    requires OneLine(date)
    ensures Load(Join(Header(date) + rest), acc) == LoadEach(rest, acc)
  {
    var h := Header(date);
    HeaderIsComments(date);
    CommentsAreSkipped(h, acc);
    LoadEachAppend(h, rest, acc);
    LoadJoined(h + rest, acc);
  }

  /** Reading a printed file back. */
  function Reloaded(groups: seq<Group>, env: map<string, string>, date: string): map<string, string> {
    Load(Print(groups, env, date), map[])
  }

  lemma ReloadedIsKeys(groups: seq<Group>, env: map<string, string>, date: string)
    requires GoodTable(groups) && OneLine(date)
    ensures forall k | k in PrintedKeys(groups, env) :: k in env && k in AllKeys(groups)
    ensures Reloaded(groups, env, date) == LoadKeys(PrintedKeys(groups, env), env, map[])
  {
    PresentAreIn(AllKeys(groups), env);
    LoadHeader(date, PrintGroups(groups, env), map[]);
    LoadPrintedGroups(groups, env, map[]);
  }

  ghost predicate KeysOf(keys: seq<string>, env: map<string, string>) {
    forall k | k in keys :: k in env && IsKey(k)
  }

  lemma OneKeyBinds(k: string, v: string, acc: map<string, string>)
    requires IsKey(k)
    ensures k in LoadEach(KeyLines(k, v), acc)
  {
    if OneLine(v) {
      LoadKeyLines(k, v, acc);
    } else {
      assert '\n' in v && IsSpecial('\n');
      KeyLineBinds(k, v, acc);
    }
  }

  lemma {:induction false} LoadKeysKeeps(keys: seq<string>, env: map<string, string>, acc: map<string, string>)
    requires KeysOf(keys, env)
    ensures forall k | k in acc :: k in LoadKeys(keys, env, acc) && LoadKeys(keys, env, acc)[k] == acc[k]
    ensures forall k | k in keys :: k in LoadKeys(keys, env, acc)
    decreases keys
  {
    if keys != [] {
      var lines := KeyLines(keys[0], env[keys[0]]);
      LoadEachKeeps(lines, acc);
      OneKeyBinds(keys[0], env[keys[0]], acc);
      LoadKeysKeeps(keys[1..], env, LoadEach(lines, acc));
    }
  }

  // While no value holds a newline, exactly the printed keys are bound, each to its own value read back.
  lemma {:induction false} LoadOneLineKeys(keys: seq<string>, env: map<string, string>, acc: map<string, string>)
    requires KeysOf(keys, env)
    requires forall k | k in keys :: OneLine(env[k])
    ensures LoadKeys(keys, env, acc).Keys == acc.Keys + set k | k in keys
    ensures forall k | k in keys && k !in acc :: LoadKeys(keys, env, acc)[k] == ComesBackAs(env[k])
    decreases keys
  {
    if keys != [] {
      var k0 := keys[0];
      LoadKeyLines(k0, env[k0], acc);
      var mid := LoadEach(KeyLines(k0, env[k0]), acc);
      LoadKeysKeeps(keys[1..], env, mid);
      LoadOneLineKeys(keys[1..], env, mid);
      forall k | k in keys && k !in acc
        ensures LoadKeys(keys, env, acc)[k] == ComesBackAs(env[k])
      {
        if k != k0 {
          assert k in keys[1..];
        }
      }
      assert forall k | k in keys :: k == k0 || k in keys[1..];
    }
  }

  // ---------------------------------------------------------------- the round trip

  /** Every printed key comes back, whatever the values hold. */
  lemma EveryPrintedKeyComesBack(groups: seq<Group>, env: map<string, string>, date: string, k: string)
    requires GoodTable(groups) && OneLine(date)
    requires k in AllKeys(groups) && k in env
    ensures k in Reloaded(groups, env, date)
  {
    ReloadedIsKeys(groups, env, date);
    PresentAreIn(AllKeys(groups), env);
    LoadKeysKeeps(PrintedKeys(groups, env), env, map[]);
  }

  lemma UnionsAssociate(a: map<string, string>, b: map<string, string>, c: map<string, string>)
    ensures a + (b + c) == a + b + c
  {
  }

  lemma BindOver(b: Option<Binding>, env: map<string, string>)
    ensures Bind(env, b) == Bind(map[], b) + env
  {
  }

  // Loading over an environment adds to it what loading into an empty one binds.
  lemma {:induction false} LoadLinesOver(lines: seq<string>, env: map<string, string>)
    ensures LoadLines(lines, env) == LoadLines(lines, map[]) + env
    decreases lines
  {
    if lines != [] {
      var b := ParseLine(lines[0]);
      var rest := LoadLines(lines[1..], map[]);
      LoadLinesOver(lines[1..], Bind(env, b));
      LoadLinesOver(lines[1..], Bind(map[], b));
      BindOver(b, env);
      UnionsAssociate(rest, Bind(map[], b), env);
    }
  }

  lemma {:induction false} LoadEachOver(lines: seq<string>, env: map<string, string>)
    ensures LoadEach(lines, env) == LoadEach(lines, map[]) + env
    decreases lines
  {
    if lines != [] {
      var own, rest := Load(lines[0], map[]), LoadEach(lines[1..], map[]);
      LoadLinesOver(Split(lines[0]), env);
      LoadEachOver(lines[1..], own + env);
      LoadEachOver(lines[1..], own);
      UnionsAssociate(rest, own, env);
    }
  }

  lemma {:induction false} LoadKeysOver(keys: seq<string>, env: map<string, string>, acc: map<string, string>)
    requires forall k | k in keys :: k in env
    ensures LoadKeys(keys, env, acc) == LoadKeys(keys, env, map[]) + acc
    decreases keys
  {
    if keys != [] {
      var lines := KeyLines(keys[0], env[keys[0]]);
      var own, rest := LoadEach(lines, map[]), LoadKeys(keys[1..], env, map[]);
      LoadEachOver(lines, acc);
      LoadKeysOver(keys[1..], env, own + acc);
      LoadKeysOver(keys[1..], env, own);
      UnionsAssociate(rest, own, acc);
    }
  }

  // What the first of these keys whose printed lines bind k binds it to.
  function FirstBinding(keys: seq<string>, env: map<string, string>, k: string): Option<string>
    requires forall j | j in keys :: j in env
  {
    if keys == [] then None
    else
      var own := LoadEach(KeyLines(keys[0], env[keys[0]]), map[]);
      if k in own then Some(own[k]) else FirstBinding(keys[1..], env, k)
  }

  lemma {:induction false} FirstBindingWins(keys: seq<string>, env: map<string, string>, k: string)
    requires forall j | j in keys :: j in env
    ensures var mid := LoadKeys(keys, env, map[]);
            FirstBinding(keys, env, k) == if k in mid then Some(mid[k]) else None
  {
    if keys != [] {
      FirstBindingWins(keys[1..], env, k);
      LoadKeysOver(keys[1..], env, LoadEach(KeyLines(keys[0], env[keys[0]]), map[]));
    }
  }

  // The binding of k once its own lines have been loaded.
  lemma OwnLineBinds(k: string, v: string, acc: map<string, string>)
    requires IsKey(k)
    ensures var now := LoadEach(KeyLines(k, v), acc);
            k in now && (k in acc ==> now[k] == acc[k]) && (k !in acc && OneLine(v) ==> now[k] == ComesBackAs(v))
  {
    OneKeyBinds(k, v, acc);
    LoadEachKeeps(KeyLines(k, v), acc);
    if OneLine(v) {
      LoadKeyLines(k, v, acc);
    }
  }

  // The binding of k does not depend on what is printed after it.
  lemma LaterKeysDoNotMatter(groups: seq<Group>, env: map<string, string>, date: string,
                             before: seq<string>, k: string, after: seq<string>)
    requires GoodTable(groups) && OneLine(date)
    requires PrintedKeys(groups, env) == before + [k] + after
    ensures k in env && IsKey(k) && k in Reloaded(groups, env, date) && forall j | j in before :: j in env && IsKey(j)
    ensures var now := LoadEach(KeyLines(k, env[k]), LoadKeys(before, env, map[]));
            k in now && Reloaded(groups, env, date)[k] == now[k]
  {
    var keys := before + [k] + after;
    ReloadedIsKeys(groups, env, date);
    assert k in keys && forall j | j in before :: j in keys;
    assert forall j | j in before + [k] :: j in keys;
    LoadKeysAppend(before + [k], after, env, map[]);
    LoadKeysAppend(before, [k], env, map[]);
    var mid := LoadKeys(before, env, map[]);
    assert [k][1..] == [];
    assert LoadKeys([k], env, mid) == LoadEach(KeyLines(k, env[k]), mid);
    OwnLineBinds(k, env[k], mid);
    LoadKeysKeeps(after, env, LoadKeys(before + [k], env, map[]));
  }

  /**
    A value comes back exactly when the lines printed before it leave its key alone and it is clean
    and on one line, or when they already bind the key to that very value.
   */
  lemma ValueSurvivesIff(groups: seq<Group>, env: map<string, string>, date: string,
                         before: seq<string>, k: string, after: seq<string>)
    requires GoodTable(groups) && OneLine(date)
    requires PrintedKeys(groups, env) == before + [k] + after
    ensures k in env && k in Reloaded(groups, env, date) && forall j | j in before :: j in env
    ensures Reloaded(groups, env, date)[k] == env[k]
       <==> match FirstBinding(before, env, k)
            case Some(v) => v == env[k]
            case None => Survives(env[k])
  {
    LaterKeysDoNotMatter(groups, env, date, before, k, after);
    FirstBindingWins(before, env, k);
    OwnLineBinds(k, env[k], LoadKeys(before, env, map[]));
    if OneLine(env[k]) {
      ComesBackIff(env[k]);
    } else {
      LoadedIsOneLine(Print(groups, env, date), map[]);
    }
  }

  lemma {:induction false} OneLinersBindThemselves(keys: seq<string>, env: map<string, string>, k: string)
    requires KeysOf(keys, env)
    requires forall j | j in keys :: OneLine(env[j])
    ensures FirstBinding(keys, env, k) == if k in keys then Some(ComesBackAs(env[k])) else None
  {
    if keys != [] {
      LoadKeyLines(keys[0], env[keys[0]], map[]);
      OneLinersBindThemselves(keys[1..], env, k);
    }
  }

  /** So, as long as no value printed before it has a newline, a value survives exactly when it is clean and on one line. */
  lemma ValueSurvivesAfterOneLinersIff(groups: seq<Group>, env: map<string, string>, date: string,
                                       before: seq<string>, k: string, after: seq<string>)
    requires GoodTable(groups) && OneLine(date)
    requires PrintedKeys(groups, env) == before + [k] + after
    requires forall j | j in before && j in env :: OneLine(env[j])
    ensures k in env && k in Reloaded(groups, env, date)
    ensures Reloaded(groups, env, date)[k] == env[k] <==> Survives(env[k])
  {
    LaterKeysDoNotMatter(groups, env, date, before, k, after);
    ValueSurvivesIff(groups, env, date, before, k, after);
    OneLinersBindThemselves(before, env, k);
    ComesBackIff(env[k]);
  }

  function Selected(groups: seq<Group>, env: map<string, string>): map<string, string> {
    map k | k in env && k in AllKeys(groups) :: env[k]
  }

  lemma SurvivingFileRoundTrips(groups: seq<Group>, env: map<string, string>, date: string)
    requires GoodTable(groups) && OneLine(date)
    requires forall k | k in AllKeys(groups) && k in env :: Survives(env[k])
    ensures Reloaded(groups, env, date) == Selected(groups, env)
  {
    var keys := PrintedKeys(groups, env);
    ReloadedIsKeys(groups, env, date);
    PresentAreIn(AllKeys(groups), env);
    LoadOneLineKeys(keys, env, map[]);
    forall k | k in keys
      ensures ComesBackAs(env[k]) == env[k]
    {
      ComesBackIff(env[k]);
    }
    SelectedIs(groups, env, Reloaded(groups, env, date));
  }

  lemma SelectedIs(groups: seq<Group>, env: map<string, string>, m: map<string, string>)
    requires forall k :: k in m <==> k in env && k in AllKeys(groups)
    requires forall k | k in m :: m[k] == env[k]
    ensures m == Selected(groups, env)
  {
  }

  lemma RoundTripMeansSurviving(groups: seq<Group>, env: map<string, string>, date: string, k: string)
    requires GoodTable(groups) && OneLine(date)
    requires Reloaded(groups, env, date) == Selected(groups, env)
    requires k in AllKeys(groups) && k in env
    ensures Survives(env[k])
  {
    var keys := PrintedKeys(groups, env);
    ReloadedIsKeys(groups, env, date);
    PresentAreIn(AllKeys(groups), env);
    LoadedIsOneLine(Print(groups, env, date), map[]);
    assert forall j | j in keys :: env[j] == Selected(groups, env)[j];
    LoadOneLineKeys(keys, env, map[]);
    ComesBackIff(env[k]);
  }

  /** The file reads back as exactly the printed part of the environment if and only if every printed value survives. */
  lemma FileRoundTripsIff(groups: seq<Group>, env: map<string, string>, date: string)
    requires GoodTable(groups) && OneLine(date)
    ensures Reloaded(groups, env, date) == Selected(groups, env)
       <==> forall k | k in AllKeys(groups) && k in env :: Survives(env[k])
  {
    if Reloaded(groups, env, date) == Selected(groups, env) {
      forall k | k in AllKeys(groups) && k in env
        ensures Survives(env[k])
      {
        RoundTripMeansSurviving(groups, env, date, k);
      }
    }
    if forall k | k in AllKeys(groups) && k in env :: Survives(env[k]) {
      SurvivingFileRoundTrips(groups, env, date);
    }
  }

  lemma ParseClosing(k: string, v: string)
    requires IsKey(k) && !NeedsQuotes(v)
    ensures ParseLine(k + "=" + v + "\"") == Some(Binding(k, CutComment(Unquote(v + "\""))))
  {
    var line, rest := k + "=" + v + "\"", v + "\"";
    PlainIsClean(v);
    assert line == k + "=" + rest && k[0] in k;
    assert line[0] == k[0] && line[|line| - 1] == '"';
    TrimIsIdentity(line);
    if v != "" {
      assert v[0] in v;
    }
    TrimIsIdentity(rest);
    ParseAssignment(line, k, rest);
  }

  lemma LoadTwoLines(a: string, b: string, env: map<string, string>)
    requires OneLine(a) && OneLine(b)
    ensures Load(a + "\n" + b, env) == Bind(Bind(env, ParseLine(a)), ParseLine(b))
  {
    SplitAtNewline(a, b);
    SplitOneLine(a);
    SplitOneLine(b);
    LoadLinesAppend([a], [b], env);
    LoadOneLine(a, env);
    LoadOneLine(b, Bind(env, ParseLine(a)));
  }

  lemma InjectedValueLine(a: string, b: string, y: string)
    requires IsKey(b) && !NeedsQuotes(y)
    ensures KeyLines(a, "\n" + b + "=" + y) == [a + "=\"" + "\n" + (b + "=" + y + "\"")]
  {
    var v := "\n" + b + "=" + y;
    InjectedNeedsQuotes(b, y);
    var tail := b + "=" + y;
    assert v == "\n" + tail;
    assert a + "=\"" + v + "\"" == a + "=\"" + "\n" + (tail + "\"");
  }

  // What the two lines of such a value bind.
  lemma TwoLinesBind(a: string, b: string, y: string, env: map<string, string>)
    requires IsKey(a) && IsKey(b) && a != b && b !in env && !NeedsQuotes(y) && y != ""
    ensures var now := Load(a + "=\"" + "\n" + (b + "=" + y + "\""), env);
            b in now && now[b] == y + "\""
  {
    OpeningLine(a);
    ClosingLine(b, y);
    LoadTwoLines(a + "=\"", b + "=" + y + "\"", env);
  }

  lemma OpeningLine(a: string)
    requires IsKey(a)
    ensures OneLine(a + "=\"") && ParseLine(a + "=\"").Some? && ParseLine(a + "=\"").value.key == a
  {
    KeyIsOneLine(a);
    ParseClosing(a, "");
    assert a + "=" + "" + "\"" == a + "=\"";
  }

  lemma ClosingLine(b: string, y: string)
    requires IsKey(b) && !NeedsQuotes(y) && y != ""
    ensures OneLine(b + "=" + y + "\"") && ParseLine(b + "=" + y + "\"") == Some(Binding(b, y + "\""))
  {
    KeyIsOneLine(b);
    PlainIsClean(y);
    ParseClosing(b, y);
    ClosedPlainValue(y);
  }

  // A value that starts with a newline and then assigns another key, printed for the key a.
  lemma SecondLineBinds(a: string, b: string, y: string, env: map<string, string>)
    requires IsKey(a) && IsKey(b) && a != b && b !in env && !NeedsQuotes(y) && y != ""
    ensures var now := LoadEach(KeyLines(a, "\n" + b + "=" + y), env);
            b in now && now[b] == y + "\""
  {
    InjectedValueLine(a, b, y);
    TwoLinesBind(a, b, y, env);
    LoadOne(a + "=\"" + "\n" + (b + "=" + y + "\""), env);
  }

  lemma ClosedPlainValue(y: string)
    requires !NeedsQuotes(y) && y != ""
    ensures CutComment(Unquote(y + "\"")) == y + "\""
  {
    assert forall c | c in y :: !IsSpecial(c);
    PlainHasNoComment(y + "\"");
    assert y[0] in y;
  }

  lemma InjectedNeedsQuotes(b: string, y: string)
    requires IsKey(b) && !NeedsQuotes(y)
    ensures NeedsQuotes("\n" + b + "=" + y) && Escape("\n" + b + "=" + y) == "\n" + b + "=" + y
  {
    var v := "\n" + b + "=" + y;
    assert v[0] in v && IsSpecial(v[0]);
    PlainIsClean(y);
    EscapeOfClean(v);
  }

  /**
    A newline in one value can bind another key: a value printed later that would survive is then lost,
    for any two keys and any plain, nonempty text y other than the value itself.
   */
  lemma NewlineOverridesALaterKey(a: string, b: string, y: string, z: string, date: string)
    requires OneLine(date) && IsKey(a) && IsKey(b) && a != b
    requires !NeedsQuotes(y) && y != "" && Survives(z)
    ensures var groups, env := [Group("G", [a, b])], map[a := "\n" + b + "=" + y, b := z];
            GoodTable(groups) && b in Reloaded(groups, env, date) && Reloaded(groups, env, date)[b] == y + "\"" != z
  {
    var groups, env := [Group("G", [a, b])], map[a := "\n" + b + "=" + y, b := z];
    assert AllKeys(groups) == [a, b] + AllKeys(groups[1..]) == [a, b];
    assert Present([a, b][1..], env) == [b] + Present([b][1..], env) == [b];
    assert PrintedKeys(groups, env) == [a, b];
    ReloadedIsKeys(groups, env, date);
    SecondLineBinds(a, b, y, map[]);
    var now := LoadEach(KeyLines(a, env[a]), map[]);
    assert [a, b][1..] == [b];
    assert LoadKeys([a, b], env, map[]) == LoadKeys([b], env, now);
    LoadKeysKeeps([b], env, now);
    assert (y + "\"")[|y|] == '"';
  }

  // ---------------------------------------------------------------- what a line of the file may look like

  predicate AllSpace(s: string) {
    forall c | c in s :: IsSpace(c)
  }

  predicate Trimmed(s: string) {
    s == "" || (!IsSpace(s[0]) && !IsSpace(s[|s| - 1]))
  }

  lemma {:induction false} TrimStartSkips(a: string, s: string)
    requires AllSpace(a)
    ensures TrimStart(a + s) == TrimStart(s)
  {
    if a == "" {
      assert a + s == s;
    } else {
      assert (a + s)[1..] == a[1..] + s && a[0] in a;
      TrimStartSkips(a[1..], s);
    }
  }

  lemma {:induction false} TrimEndSkips(s: string, d: string)
    requires AllSpace(d)
    ensures TrimEnd(s + d) == TrimEnd(s)
    decreases |d|
  {
    if d == "" {
      assert s + d == s;
    } else {
      assert (s + d)[..|s + d| - 1] == s + d[..|d| - 1] && d[|d| - 1] in d;
      TrimEndSkips(s, d[..|d| - 1]);
    }
  }

  lemma {:induction false} TrimPadded(a: string, x: string, d: string)
    requires AllSpace(a) && AllSpace(d) && Trimmed(x)
    ensures Trim(a + x + d) == x
  {
    assert a + x + d == a + (x + d);
    TrimStartSkips(a, x + d);
    if x == "" {
      assert x + d == d == d + "";
      TrimStartSkips(d, "");
    } else {
      assert TrimStart(x + d) == x + d;
      TrimEndSkips(x, d);
    }
  }

  lemma {:induction false} KeyWithSpace(line: string, k: string, b: string, rest: string)
    requires AllSpace(b) && IsKey(k) && Trim(line) == k + b + "=" + rest
    ensures ParseLine(line) == Some(Binding(k, CutComment(Unquote(Trim(rest)))))
  {
    var t := k + b + "=" + rest;
    assert forall x | x in k + b :: x != '=';
    IndexAfter(k + b, rest);
    assert t[..|k + b|] == k + b && t[|k + b| + 1..] == rest;
    assert k[0] in k && k[|k| - 1] in k && t[0] == k[0];
    TrimPadded("", k, b);
    assert "" + k + b == k + b;
  }

  // Space around the line, around the key and before the value does not matter.
  lemma {:induction false} SpacedLineParses(a: string, k: string, b: string, c: string, v: string, d: string)
    requires AllSpace(a) && AllSpace(b) && AllSpace(c) && AllSpace(d) && IsKey(k) && Trimmed(v)
    ensures ParseLine(a + (k + b + "=" + c + v) + d) == Some(Binding(k, CutComment(Unquote(v))))
  {
    var line, head := a + (k + b + "=" + c + v) + d, k + b + "=";
    assert k[0] in k && head[0] == k[0];
    if v == "" {
      assert line == a + head + (c + d) && head == k + b + "=" + "";
      TrimPadded(a, head, c + d);
      KeyWithSpace(line, k, b, "");
    } else {
      var t := head + (c + v);
      assert t == k + b + "=" + c + v && t[|t| - 1] == v[|v| - 1] && t[0] == k[0];
      TrimPadded(a, t, d);
      KeyWithSpace(line, k, b, c + v);
      assert c + v == c + v + "";
      TrimPadded(c, v, "");
    }
  }

  lemma {:induction false} CommentAfter(v: string, note: string)
    requires CommentIndex(v).None? && (v == "" || v[|v| - 1] != ' ')
    ensures CommentIndex(v + "  #" + note) == Some(|v|)
  {
    var s := v + "  #" + note;
    if v != "" {
      assert s[1..] == v[1..] + "  #" + note;
      assert |v| >= 3 ==> s[0] == v[0] && s[1] == v[1] && s[2] == v[2];
      assert !CommentAt(s);
      CommentAfter(v[1..], note);
    }
  }

  // A value in double or in single quotes is what stands between them.
  lemma {:induction false} QuotedLineLoads(a: string, k: string, b: string, c: string, q: char, e: string, d: string)
    requires AllSpace(a) && AllSpace(b) && AllSpace(c) && AllSpace(d) && IsKey(k)
    requires (q == '"' || q == '\'') && CommentIndex(e).None?
    ensures ParseLine(a + (k + b + "=" + c + ([q] + e + [q])) + d) == Some(Binding(k, e))
  {
    var v := [q] + e + [q];
    SpacedLineParses(a, k, b, c, v, d);
    assert v[1..|v| - 1] == e;
  }

  // Any other value is the rest of the line without the space around it.
  lemma {:induction false} PlainLineLoads(a: string, k: string, b: string, c: string, v: string, d: string)
    requires AllSpace(a) && AllSpace(b) && AllSpace(c) && AllSpace(d) && IsKey(k) && Trimmed(v)
    requires v != "" ==> v[0] != v[|v| - 1] || (v[0] != '"' && v[0] != '\'')
    requires CommentIndex(v).None?
    ensures ParseLine(a + (k + b + "=" + c + v) + d) == Some(Binding(k, v))
  {
    SpacedLineParses(a, k, b, c, v, d);
  }

  // A comment after the value goes, but then quotes around the value stay: they are not at the end of the line.
  lemma {:induction false} CommentedLineLoads(a: string, k: string, b: string, c: string, v: string, note: string, d: string)
    requires AllSpace(a) && AllSpace(b) && AllSpace(c) && AllSpace(d) && IsKey(k)
    requires v != "" && Trimmed(v) && CommentIndex(v).None?
    requires note != "" ==> !IsSpace(note[|note| - 1]) && note[|note| - 1] !in "\"'"
    ensures ParseLine(a + (k + b + "=" + c + (v + "  #" + note)) + d) == Some(Binding(k, v))
  {
    CommentCut(v, note);
    SpacedLineParses(a, k, b, c, v + "  #" + note, d);
  }

  lemma {:induction false} CommentCut(v: string, note: string)
    requires v != "" && Trimmed(v) && CommentIndex(v).None?
    requires note != "" ==> !IsSpace(note[|note| - 1]) && note[|note| - 1] !in "\"'"
    ensures Trimmed(v + "  #" + note) && CutComment(Unquote(v + "  #" + note)) == v
  {
    var w := v + "  #" + note;
    assert w[0] == v[0] && w[|w| - 1] == if note == "" then '#' else note[|note| - 1];
    assert Unquote(w) == w;
    CommentAfter(v, note);
    assert w[..|v|] == v;
    TrimIsIdentity(v);
  }

  // Comments, empty lines and lines without '=' bind nothing.
  lemma {:induction false} OtherLinesBindNothing(a: string, x: string, d: string)
    requires AllSpace(a) && AllSpace(d) && Trimmed(x) && (x == "" || x[0] == '#' || '=' !in x)
    ensures ParseLine(a + x + d) == None
  {
    TrimPadded(a, x, d);
  }

  // Escaping puts a backslash before each double quote and each backslash, and changes nothing else.
  lemma {:induction false} EscapeIsPerCharacter(a: string, b: string, c: char)
    ensures Escape(a + b) == Escape(a) + Escape(b)
    ensures Escape([c]) == if c == '"' || c == '\\' then ['\\', c] else [c]
  {
    assert [c][1..] == "" && Escape("") == "";
    if a == "" {
      assert a + b == b;
    } else {
      assert (a + b)[1..] == a[1..] + b && (a + b)[0] == a[0];
      EscapeIsPerCharacter(a[1..], b, c);
    }
  }

  lemma JoinTwo(x: string, rest: seq<string>)
    requires rest != []
    ensures Join([x] + rest) == x + ("\n" + Join(rest))
  {
    assert ([x] + rest)[1..] == rest;
    Associates(x, "\n", Join(rest));
  }

  lemma JoinGrows(c: char, x: string, rest: seq<string>)
    ensures Join([[c] + x] + rest) == [c] + Join([x] + rest)
  {
    if rest == [] {
      assert [[c] + x] + rest == [[c] + x] && [x] + rest == [x];
    } else {
      JoinTwo([c] + x, rest);
      JoinTwo(x, rest);
      Associates([c], x, "\n" + Join(rest));
    }
  }

  lemma JoinPrepend(c: char, lines: seq<string>)
    requires |lines| >= 1
    ensures Join(Prepend(c, lines)) == [c] + Join(lines)
  {
    if c == '\n' {
      JoinTwo("", lines);
    } else {
      JoinGrows(c, lines[0], lines[1..]);
      assert lines == [lines[0]] + lines[1..];
    }
  }

  // Splitting is undone by joining.
  lemma {:induction false} JoinSplit(s: string)
    ensures Join(Split(s)) == s
  {
    if s != "" {
      JoinSplit(s[1..]);
      JoinPrepend(s[0], Split(s[1..]));
      assert s == [s[0]] + s[1..];
    }
  }

  // ---------------------------------------------------------------- the two programs

  lemma PrintKeysStep(keys: seq<string>, i: nat, env: map<string, string>)
    requires i < |keys|
    ensures PrintKeys(keys[i..], env) == KeyLines(keys[i], ValueOf(env, keys[i])) + PrintKeys(keys[i + 1..], env)
  {
    assert keys[i..][1..] == keys[i + 1..];
  }

  // The lines of one key.
  method PushKey(pushed: seq<string>, key: string, value: string) returns (lines: seq<string>)
    ensures lines == pushed + KeyLines(key, value)
    ensures value == "" ==> lines == pushed + ["# TODO: fill in " + key, key + "="]
    ensures (exists c | c in value :: c in " \t\r\n#\"'\\$`!") ==> lines == pushed + [key + "=\"" + Escape(value) + "\""]
    ensures value != "" && (forall c | c in value :: '!' < c <= '~' && c !in "#\"'\\$`") ==> lines == pushed + [key + "=" + value]
  {
    assert forall c | c in " \t\r\n#\"'\\$`!" :: IsSpecial(c);
    assert forall c | '!' < c <= '~' && c !in "#\"'\\$`" :: !IsSpecial(c);
    lines := pushed;
    if value == "" {
      lines := lines + ["# TODO: fill in " + key];
      lines := lines + [key + "="];
      Associates(pushed, ["# TODO: fill in " + key], [key + "="]);
    } else if NeedsQuotes(value) {
      var escaped := Escape(value);
      lines := lines + [key + "=\"" + escaped + "\""];
    } else {
      lines := lines + [key + "=" + value];
    }
  }

  // The lines of one group, pushed key by key.
  method PushGroup(pushed: seq<string>, group: Group, env: map<string, string>) returns (lines: seq<string>)
    ensures lines == pushed + PrintGroup(group, env)
    ensures (forall k | k in group.keys :: k !in env) ==> lines == pushed
    ensures (exists k :: k in group.keys && k in env) ==>
              |lines| > |pushed| + 1 && lines[|pushed|] == "# " + group.title && lines[|lines| - 1] == ""
  {
    PresentAreIn(group.keys, env);
    var presentKeys := Present(group.keys, env);
    if presentKeys == [] {
      return pushed;
    }
    var heading := ["# " + group.title];
    lines := pushed + heading;
    ghost var body := PrintKeys(presentKeys, env);
    ghost var all := lines + body;
    for i := 0 to |presentKeys|
      invariant lines + PrintKeys(presentKeys[i..], env) == all
    {
      var key := presentKeys[i];
      var value := ValueOf(env, key);
      ghost var was, rest := lines, PrintKeys(presentKeys[i + 1..], env);
      PrintKeysStep(presentKeys, i, env);
      lines := PushKey(lines, key, value);
      Associates(was, KeyLines(key, value), rest);
    }
    assert lines == all;
    lines := lines + [""];
    Associates(pushed, heading, body);
    Associates(pushed, heading + body, [""]);
  }

  lemma StartsWithHeader(date: string, rest: seq<string>)
    ensures "# Generated by: yclaw init\n" + "# Date: " + date + "\n" <= Join(Header(date) + rest)
  {
    var lines := Header(date) + rest;
    var first, second := "# Generated by: yclaw init", "# Date: " + date;
    assert lines[0] == first && lines[1..][0] == second && |lines| >= 4;
    assert Join(lines) == first + "\n" + Join(lines[1..]);
    assert Join(lines[1..]) == second + "\n" + Join(lines[1..][1..]);
    assert "# Generated by: yclaw init\n" + "# Date: " + date + "\n" == first + "\n" + (second + "\n");
  }

  lemma PrintGroupsStep(groups: seq<Group>, g: nat, env: map<string, string>)
    requires g < |groups|
    ensures PrintGroups(groups[g..], env) == PrintGroup(groups[g], env) + PrintGroups(groups[g + 1..], env)
  {
    assert groups[g..][1..] == groups[g + 1..];
  }

  /** The printer: pushes the lines of every group in the order of the table. */
  method GenerateEnvFile(groups: seq<Group>, env: map<string, string>, date: string) returns (text: string)
    ensures text == Print(groups, env, date)
    ensures "# Generated by: yclaw init\n" + "# Date: " + date + "\n" <= text
  {
    var lines := Header(date);
    ghost var all := Header(date) + PrintGroups(groups, env);
    for g := 0 to |groups|
      invariant lines + PrintGroups(groups[g..], env) == all
    {
      ghost var was := lines;
      PrintGroupsStep(groups, g, env);
      lines := PushGroup(lines, groups[g], env);
      Associates(was, PrintGroup(groups[g], env), PrintGroups(groups[g + 1..], env));
    }
    assert lines == all;
    text := Join(lines);
    StartsWithHeader(date, PrintGroups(groups, env));
  }

  /** The process environment, which loading a file merges into. */
  class ProcessEnv {
    var env: map<string, string>

    constructor (env: map<string, string>)
      ensures this.env == env
    {
      this.env := env;
    }

    // One line of the file.
    method MergeLine(line: string)
      modifies this
      ensures env == Bind(old(env), ParseLine(line))
    {
      var trimmed := Trim(line);
      if trimmed == "" || trimmed[0] == '#' {
        assert ParseLine(line) == None;
        return;
      }
      var eqIdx := IndexOf(trimmed, '=');
      if eqIdx.None? {
        assert ParseLine(line) == None;
        return;
      }
      ghost var all := trimmed[eqIdx.value + 1..];
      assert ParseLine(line) == Some(Binding(Trim(trimmed[..eqIdx.value]), CutComment(Unquote(Trim(all)))));
      var key := Trim(trimmed[..eqIdx.value]);
      var value := Trim(trimmed[eqIdx.value + 1..]);
      ghost var raw := value;
      if value != "" && ((value[0] == '"' && value[|value| - 1] == '"') || (value[0] == '\'' && value[|value| - 1] == '\'')) {
        value := if |value| == 1 then "" else value[1..|value| - 1];
      }
      assert value == Unquote(raw);
      ghost var whole := value;
      var commentIdx := CommentIndex(value);
      if commentIdx.Some? {
        value := Trim(value[..commentIdx.value]);
      }
      assert value == CutComment(whole);
      assert ParseLine(line) == Some(Binding(key, value));
      if key !in env {
        env := env[key := value];
      }
    }

    /** Without a file nothing changes; with one, no variable that is already set does. */
    method LoadProjectEnv(file: Option<string>)
      modifies this
      ensures env == if file.Some? then Load(file.value, old(env)) else old(env)
      ensures forall k | k in old(env) :: k in env && env[k] == old(env)[k]
    {
      if file.Some? {
        var lines := Split(file.value);
        LoadLinesKeeps(lines, env);
        for i := 0 to |lines|
          invariant LoadLines(lines[i..], env) == LoadLines(lines, old(env))
        {
          assert lines[i..][1..] == lines[i + 1..];
          MergeLine(lines[i]);
        }
      }
    }
  }
}
