/** Filling the placeholders of a parsed template (tools/render-configs.mjs:59, 97-135). */
module Templates {
  import opened Jsons
  import opened Names
  import opened Options

  datatype Binding = Value(text: string) | Lines(lines: seq<string>)

  datatype Issue = Unknown(path: string, name: string) | ListInside(path: string, name: string)

  predicate IsNameChar(c: char) {
    'A' <= c <= 'Z' || '0' <= c <= '9' || c == '_'
  }

  predicate IsName(s: string) {
    s != "" && forall i | 0 <= i < |s| :: IsNameChar(s[i])
  }

  /** The longest prefix of name characters. */
  function NameRun(s: string): (name: string)
    ensures |name| <= |s|
  {
    if s != "" && IsNameChar(s[0]) then [s[0]] + NameRun(s[1..]) else ""
  }

  /** The name of the placeholder `s` starts with. */
  function Hole(s: string): (name: Option<string>)
    ensures name.Some? ==> |name.value| + 3 <= |s|
  {
    if |s| < 2 || s[..2] != "${" then None else
    var name := NameRun(s[2..]);
    if name != "" && |name| + 2 < |s| && s[|name| + 2] == '}' then Some(name) else None
  }

  /** One string, every placeholder in it replaced and nothing replaced twice. */
  function Expand(s: string, bindings: map<string, Binding>, path: string): (string, seq<Issue>)
    decreases |s|
  {
    if s == "" then ("", []) else
    match Hole(s)
    case None =>
      var (more, issues) := Expand(s[1..], bindings, path);
      ([s[0]] + more, issues)
    case Some(name) =>
      var whole := s[..|name| + 3];
      var (more, issues) := Expand(s[|name| + 3..], bindings, path);
      if name !in bindings then (whole + more, [Unknown(path, name)] + issues)
      else match bindings[name]
        case Lines(_) => (whole + more, [ListInside(path, name)] + issues)
        case Value(v) => (v + more, issues)
  }

  /** The list a string stands for when it is nothing but that list's placeholder. */
  function Splice(node: Json, bindings: map<string, Binding>): Option<seq<string>> {
    if !node.Str? then None else
    match Hole(node.s)
    case None => None
    case Some(name) =>
      if |name| + 3 == |node.s| && name in bindings && bindings[name].Lines? then Some(bindings[name].lines) else None
  }

  function Strings(lines: seq<string>): seq<Json> {
    seq(|lines|, i requires 0 <= i < |lines| => Str(lines[i]))
  }

  function Substitute(node: Json, bindings: map<string, Binding>, path: string): (Json, seq<Issue>)
    decreases node
  {
    match node
    case Arr(items) =>
      var (r, issues) := SubstituteItems(items, bindings, path, 0);
      (Arr(r), issues)
    case Obj(fields) =>
      var (r, issues) := SubstituteFields(fields, bindings, path);
      (Obj(r), issues)
    case Str(s) =>
      var (r, issues) := Expand(s, bindings, path);
      (Str(r), issues)
    case _ => (node, [])
  }

  function SubstituteItems(items: seq<Json>, bindings: map<string, Binding>, path: string, at: nat)
    : (seq<Json>, seq<Issue>)
    decreases items
  {
    if items == [] then ([], []) else
    var (more, issues) := SubstituteItems(items[1..], bindings, path, at + 1);
    match Splice(items[0], bindings)
    case Some(lines) => (Strings(lines) + more, issues)
    case None =>
      var (r, e) := Substitute(items[0], bindings, path + "[" + Numeral(at, 10) + "]");
      ([r] + more, e + issues)
  }

  function SubstituteFields(fields: seq<Field>, bindings: map<string, Binding>, path: string): (seq<Field>, seq<Issue>)
    decreases fields
  {
    if fields == [] then ([], []) else
    var (more, issues) := SubstituteFields(fields[1..], bindings, path);
    var (r, e) := Substitute(fields[0].value, bindings, path + "." + fields[0].key);
    ([Field(fields[0].key, r)] + more, e + issues)
  }

  // ----- strings -----

  datatype Piece = Literal(text: string) | Named(name: string)

  ghost predicate ValidPiece(p: Piece, bindings: map<string, Binding>) {
    match p
    case Literal(text) => '$' !in text
    case Named(name) => IsName(name) && name in bindings && bindings[name].Value?
  }

  function Spelling(pieces: seq<Piece>): string {
    if pieces == [] then "" else
    (match pieces[0] case Literal(text) => text case Named(name) => "${" + name + "}") + Spelling(pieces[1..])
  }

  function Filling(pieces: seq<Piece>, bindings: map<string, Binding>): string
    requires forall i | 0 <= i < |pieces| :: ValidPiece(pieces[i], bindings)
  {
    if pieces == [] then "" else
    assert ValidPiece(pieces[0], bindings);
    (match pieces[0] case Literal(text) => text case Named(name) => bindings[name].text)
      + Filling(pieces[1..], bindings)
  }

  lemma {:induction false} ExpandLiteral(text: string, rest: string, bindings: map<string, Binding>, path: string)
    requires '$' !in text
    ensures Expand(text + rest, bindings, path)
            == (text + Expand(rest, bindings, path).0, Expand(rest, bindings, path).1)
    decreases |text|
  {
    if text == "" {
      assert text + rest == rest;
      assert "" + Expand(rest, bindings, path).0 == Expand(rest, bindings, path).0;
    } else {
      var s := text + rest;
      assert s[0] == text[0] != '$' && s[1..] == text[1..] + rest;
      assert Hole(s).None? by {
        if |s| >= 2 { assert s[..2][0] == s[0]; }
      }
      ExpandLiteral(text[1..], rest, bindings, path);
      hide Hole;
      var after := Expand(rest, bindings, path);
      assert [s[0]] + (text[1..] + after.0) == text + after.0;
    }
  }

  lemma {:induction false} RunStops(name: string, rest: string)
    requires (forall i | 0 <= i < |name| :: IsNameChar(name[i])) && (rest == "" || !IsNameChar(rest[0]))
    ensures NameRun(name + rest) == name
    decreases |name|
  {
    if name == "" {
      assert name + rest == rest;
    } else {
      assert (name + rest)[1..] == name[1..] + rest;
      RunStops(name[1..], rest);
    }
  }

  lemma HoleNamed(name: string, rest: string)
    requires IsName(name)
    ensures Hole("${" + name + "}" + rest) == Some(name)
  {
    var s := "${" + name + "}" + rest;
    assert s[..2] == "${" && s[2..] == name + ("}" + rest);
    RunStops(name, "}" + rest);
    hide NameRun;
  }

  /**
   Whatever the values hold, placeholders and dollar signs among it, a string of literal pieces and bound
   placeholders becomes the same pieces with the values in place.
   */
  lemma {:induction false} PiecesAreFilled(pieces: seq<Piece>, bindings: map<string, Binding>, path: string)
    requires forall i | 0 <= i < |pieces| :: ValidPiece(pieces[i], bindings)
    ensures Expand(Spelling(pieces), bindings, path) == (Filling(pieces, bindings), [])
    decreases |pieces|
  {
    if pieces == [] {
    } else {
      var rest := pieces[1..];
      PiecesAreFilled(rest, bindings, path);
      match pieces[0]
      case Literal(text) => ExpandLiteral(text, Spelling(rest), bindings, path);
      case Named(name) => ExpandNamed(name, Spelling(rest), bindings, path);
    }
  }

  lemma ExpandNamed(name: string, rest: string, bindings: map<string, Binding>, path: string)
    requires ValidPiece(Named(name), bindings)
    ensures Expand("${" + name + "}" + rest, bindings, path) ==
            (bindings[name].text + Expand(rest, bindings, path).0, Expand(rest, bindings, path).1)
  {
    var s := "${" + name + "}" + rest;
    HoleNamed(name, rest);
    assert s[|name| + 3..] == rest;
    hide Hole, NameRun;
  }

  // ----- trees -----

  /** Wherever it stands, `node` turns into `result` and nothing is reported. */
  ghost predicate Becomes(node: Json, bindings: map<string, Binding>, result: Json) {
    forall path :: Substitute(node, bindings, path) == (result, [])
  }

  lemma TextBecomes(name: string, bindings: map<string, Binding>)
    requires ValidPiece(Named(name), bindings)
    ensures Becomes(Str("${" + name + "}"), bindings, Str(bindings[name].text))
  {
    var s := "${" + name + "}";
    assert s + "" == s;
    forall path
      ensures Expand(s, bindings, path) == (bindings[name].text, [])
    {
      ExpandNamed(name, "", bindings, path);
      assert bindings[name].text + "" == bindings[name].text;
    }
  }

  lemma LiteralBecomes(text: string, bindings: map<string, Binding>)
    requires '$' !in text
    ensures Becomes(Str(text), bindings, Str(text))
  {
    assert text + "" == text;
    forall path
      ensures Expand(text, bindings, path) == (text, [])
    {
      ExpandLiteral(text, "", bindings, path);
    }
  }

  /** A list's placeholder alone in an array turns into the lines of the list. */
  lemma ListBecomes(name: string, bindings: map<string, Binding>)
    requires IsName(name) && name in bindings && bindings[name].Lines?
    ensures Becomes(Arr([Str("${" + name + "}")]), bindings, Arr(Strings(bindings[name].lines)))
  {
    var s := "${" + name + "}";
    HoleNamed(name, "");
    assert s + "" == s;
    hide Hole, NameRun;
    var lines := Strings(bindings[name].lines);
    var one := [Str(s)];
    assert one[1..] == [] && Splice(one[0], bindings) == Some(bindings[name].lines);
    forall path
      ensures Substitute(Arr(one), bindings, path) == (Arr(lines), [])
    {
      assert SubstituteItems(one[1..], bindings, path, 1) == ([], []);
      assert lines + [] == lines;
      assert SubstituteItems(one, bindings, path, 0) == (lines, []);
    }
  }

  lemma {:induction false} FieldsBecome(fields: seq<Field>, bindings: map<string, Binding>, results: seq<Field>,
                                        path: string)
    requires |fields| == |results|
    requires forall i | 0 <= i < |fields| ::
               fields[i].key == results[i].key && Becomes(fields[i].value, bindings, results[i].value)
    ensures SubstituteFields(fields, bindings, path) == (results, [])
    decreases |fields|
  {
    if fields == [] {
    } else {
      FieldsBecome(fields[1..], bindings, results[1..], path);
      var key := fields[0].key;
      assert Substitute(fields[0].value, bindings, path + "." + key) == (results[0].value, []);
      assert [Field(key, results[0].value)] + results[1..] == results;
      var none: seq<Issue> := [];
      assert none + none == none;
    }
  }

  /** Objects keep their keys in order; only values are filled. */
  lemma ObjectBecomes(fields: seq<Field>, bindings: map<string, Binding>, results: seq<Field>)
    requires |fields| == |results|
    requires forall i | 0 <= i < |fields| ::
               fields[i].key == results[i].key && Becomes(fields[i].value, bindings, results[i].value)
    ensures Becomes(Obj(fields), bindings, Obj(results))
  {
    forall path
      ensures SubstituteFields(fields, bindings, path) == (results, [])
    {
      FieldsBecome(fields, bindings, results, path);
    }
  }

  lemma {:induction false} ItemsBecome(items: seq<Json>, bindings: map<string, Binding>, results: seq<Json>,
                                       path: string, at: nat)
    requires |items| == |results|
    requires forall i | 0 <= i < |items| :: Splice(items[i], bindings).None? && Becomes(items[i], bindings, results[i])
    ensures SubstituteItems(items, bindings, path, at) == (results, [])
    decreases |items|
  {
    if items == [] {
    } else {
      ItemsBecome(items[1..], bindings, results[1..], path, at + 1);
      assert Substitute(items[0], bindings, path + "[" + Numeral(at, 10) + "]") == (results[0], []);
      assert [results[0]] + results[1..] == results;
      var none: seq<Issue> := [];
      assert none + none == none;
    }
  }

  lemma ArrayBecomes(items: seq<Json>, bindings: map<string, Binding>, results: seq<Json>)
    requires |items| == |results|
    requires forall i | 0 <= i < |items| :: Splice(items[i], bindings).None? && Becomes(items[i], bindings, results[i])
    ensures Becomes(Arr(items), bindings, Arr(results))
  {
    forall path
      ensures SubstituteItems(items, bindings, path, 0) == (results, [])
    {
      ItemsBecome(items, bindings, results, path, 0);
    }
  }

  /** Nothing in the tree has a dollar sign. */
  ghost predicate Plain(node: Json) {
    match node
    case Str(s) => '$' !in s
    case Arr(items) => forall i | 0 <= i < |items| :: Plain(items[i])
    case Obj(fields) => forall i | 0 <= i < |fields| :: Plain(fields[i].value)
    case _ => true
  }

  /** Filling in leaves everything else of a template as it is. */
  lemma {:induction false} PlainBecomes(node: Json, bindings: map<string, Binding>)
    requires Plain(node)
    ensures Becomes(node, bindings, node) && Splice(node, bindings).None?
    decreases node
  {
    match node
    case Str(s) =>
      LiteralBecomes(s, bindings);
      assert Hole(s).None? by {
        if |s| >= 2 { assert s[..2][0] == s[0]; }
      }
    case Arr(items) =>
      forall i | 0 <= i < |items|
        ensures Becomes(items[i], bindings, items[i]) && Splice(items[i], bindings).None?
      {
        PlainBecomes(items[i], bindings);
      }
      ArrayBecomes(items, bindings, items);
    case Obj(fields) =>
      forall i | 0 <= i < |fields|
        ensures Becomes(fields[i].value, bindings, fields[i].value)
      {
        PlainBecomes(fields[i].value, bindings);
      }
      ObjectBecomes(fields, bindings, fields);
    case _ =>
  }
}
