// Node ids as batch files spell them, and the one spelling the merged graph uses.
module NodeIds {
  import opened Wrappers

  const VALID_NODE_PREFIXES: set<string> := {
    "file", "func", "function", "class", "module", "concept", "config", "document", "service", "table",
    "endpoint", "pipeline", "schema", "resource", "domain", "flow", "step", "article", "entity", "topic",
    "claim", "source"
  }

  /** `TYPE_TO_PREFIX.get(kind, "file")`: every prefix names itself except the legacy `func`. */
  function PrefixOfType(kind: string): string {
    if kind == "func" then "function" else if kind in VALID_NODE_PREFIXES then kind else "file"
  }

  /** What normalization reads of a node besides its id; an absent `name` is None, an absent `filePath` empty. */
  datatype Shape = Shape(kind: Option<string>, name: Option<string>, filePath: string)

  /** Where the first colon is, if there is one. */
  function Colon(s: string): (at: Option<nat>)
    ensures at.Some? ==> at.value < |s| && s[at.value] == ':' && ':' !in s[..at.value]
    ensures at.None? ==> ':' !in s
  {
    if s == "" then None
    else if s[0] == ':' then Some(0)
    else match Colon(s[1..])
         case None => None
         case Some(i) => assert s[..i + 1] == [s[0]] + s[1..][..i]; Some(i + 1)
  }

  /** The text before the first colon, when it is one of the known prefixes. */
  function Prefix(id: string): (p: Option<string>)
    ensures p.Some? ==> p.value in VALID_NODE_PREFIXES && p.value + ":" <= id
  {
    match Colon(id)
    case None => None
    case Some(i) => if id[..i] in VALID_NODE_PREFIXES then Some(id[..i]) else None
  }

  function StripDouble(id: string): string {
    match Prefix(id)
    case None => id
    case Some(p) => if p + ":" + p + ":" <= id then id[|p| + 1..] else id
  }

  /** What `(.+)$` captures of a text that starts where it does: `.` takes no newline and `$` also
      matches before a final one. */
  function RestOfLine(s: string): (r: Option<string>)
    ensures r.Some? ==> r.value != "" && '\n' !in r.value && r.value <= s
  {
    var line := if s != "" && s[|s| - 1] == '\n' then s[..|s| - 1] else s;
    if line != "" && '\n' !in line then Some(line) else None
  }

  /** `<project>:<prefix>:<rest>` loses its first part, unless that is a known prefix itself. */
  function StripProject(id: string): string {
    match Colon(id)
    case None => id
    case Some(i) =>
      if i == 0 || id[..i] in VALID_NODE_PREFIXES then id
      else
        match Prefix(id[i + 1..])
        case None => id
        case Some(p) =>
          match RestOfLine(id[i + 1..][|p| + 1..])
          case None => id
          case Some(rest) => p + ":" + rest
  }

  function Modernize(id: string): string {
    if "func:" <= id then "function:" + id[5..] else id
  }

  /** The prefix steps of `normalize_node_id`; they look at nothing but the id. */
  function Respell(id: string): string {
    Modernize(StripProject(StripDouble(id)))
  }

  function AddPrefix(id: string, shape: Shape): string {
    var kind := if shape.kind.Some? then shape.kind.value else "file";
    var prefix := PrefixOfType(kind);
    if kind == "function" || kind == "class" then
      var name := if shape.name.Some? then shape.name.value else id;
      prefix + ":" + (if shape.filePath != "" then shape.filePath else "__nofilepath__") + ":" + name
    else
      prefix + ":" + id
  }

  /** `normalize_node_id`. */
  function NormalizeNodeId(id: string, shape: Shape): string {
    var respelled := Respell(id);
    if Prefix(respelled).Some? then respelled else AddPrefix(respelled, shape)
  }

  // ---- properties --------------------------------------------------------------------

  lemma {:induction false} ColonOf(p: string, rest: string)
    requires ':' !in p
    ensures Colon(p + ":" + rest) == Some(|p|)
  {
    var s := p + ":" + rest;
    if p != "" {
      assert s[1..] == p[1..] + ":" + rest;
      ColonOf(p[1..], rest);
    }
  }

  lemma PrefixOf(p: string, rest: string)
    requires p in VALID_NODE_PREFIXES
    ensures Prefix(p + ":" + rest) == Some(p)
  {
    ColonOf(p, rest);
    assert (p + ":" + rest)[..|p|] == p;
  }

  /** The first segment decides every `startswith` over the prefix set. */
  lemma PrefixDecides(id: string, p: string)
    requires p in VALID_NODE_PREFIXES
    ensures p + ":" <= id <==> Prefix(id) == Some(p)
  {
    if p + ":" <= id {
      assert id == p + ":" + id[|p| + 1..];
      PrefixOf(p, id[|p| + 1..]);
    }
  }

  predicate IsCallable(shape: Shape) {
    shape.kind.Some? && (shape.kind.value == "function" || shape.kind.value == "class")
  }

  lemma KnownPrefix(kind: string)
    ensures var p := PrefixOfType(kind); p in VALID_NODE_PREFIXES && p != "func" && ':' !in p
    ensures kind == "function" || kind == "class" ==> PrefixOfType(kind) == kind
  {}

  lemma Regroup(a: string, b: string, c: string)
    ensures a + ":" + b + ":" + c == a + ":" + (b + ":" + c)
  {}

  /** What is put before a bare id. */
  lemma AddedTo(id: string, shape: Shape) returns (p: string, rest: string, name: string)
    ensures AddPrefix(id, shape) == p + ":" + rest && p in VALID_NODE_PREFIXES && p != "func" && ':' !in p
    ensures !IsCallable(shape) ==> rest == id
    ensures IsCallable(shape) ==>
              && p == shape.kind.value
              && rest == (if shape.filePath != "" then shape.filePath else "__nofilepath__") + ":" + name
  {
    hide PrefixOfType, VALID_NODE_PREFIXES;
    var kind := if shape.kind.Some? then shape.kind.value else "file";
    KnownPrefix(kind);
    p := PrefixOfType(kind);
    var path := if shape.filePath != "" then shape.filePath else "__nofilepath__";
    name := if shape.name.Some? then shape.name.value else id;
    rest := if IsCallable(shape) then path + ":" + name else id;
    Regroup(p, path, name);
  }

  /** Every normalized id carries a known prefix, and never the legacy one. */
  lemma NormalizedCarriesPrefix(id: string, shape: Shape)
    ensures var r := NormalizeNodeId(id, shape);
            Prefix(r).Some? && Prefix(r) != Some("func")
  {
    hide Colon;
    var s := StripProject(StripDouble(id));
    var r := NormalizeNodeId(id, shape);
    if Prefix(Respell(id)).Some? {
      if "func:" <= s {
        PrefixOf("function", s[5..]);
        assert Respell(id) == "function" + ":" + s[5..];
      } else {
        PrefixDecides(s, "func");
      }
    } else {
      var p, rest, _ := AddedTo(Respell(id), shape);
      PrefixOf(p, rest);
    }
  }

  lemma StripDoubleChanges(id: string)
    ensures StripDouble(id) == id || Prefix(StripDouble(id)).Some?
  {
    hide Colon, Prefix;
    var d := StripDouble(id);
    if d != id {
      var p := Prefix(id).value;
      assert d == p + ":" + d[|p| + 1..];
      PrefixOf(p, d[|p| + 1..]);
    }
  }

  lemma StripProjectChanges(id: string)
    ensures StripProject(id) == id || Prefix(StripProject(id)).Some?
  {
    hide Colon, Prefix, RestOfLine;
    var s := StripProject(id);
    if s != id {
      var rest := id[Colon(id).value + 1..];
      var p := Prefix(rest).value;
      PrefixOf(p, RestOfLine(rest[|p| + 1..]).value);
    }
  }

  lemma ModernizeChanges(id: string)
    ensures Modernize(id) == id || Prefix(Modernize(id)).Some?
  {
    hide Colon, Prefix;
    if "func:" <= id {
      PrefixOf("function", id[5..]);
      assert Modernize(id) == "function" + ":" + id[5..];
    }
  }

  /** An id left without a known prefix was not respelled. */
  lemma RespellKeepsBare(id: string)
    requires Prefix(Respell(id)).None?
    ensures Respell(id) == id && Prefix(id).None?
  {
    hide Prefix, StripDouble, StripProject, Modernize;
    StripDoubleChanges(id);
    StripProjectChanges(StripDouble(id));
    ModernizeChanges(StripProject(StripDouble(id)));
  }

  /** Whether a node is renamed depends on its id alone, so all nodes sharing an id are renamed or none. */
  lemma RenamedByIdAlone(id: string, a: Shape, b: Shape)
    ensures NormalizeNodeId(id, a) == id <==> NormalizeNodeId(id, b) == id
  {
    if Prefix(Respell(id)).None? {
      RespellKeepsBare(id);
      NormalizedCarriesPrefix(id, a);
      NormalizedCarriesPrefix(id, b);
    }
  }

  // ---- normalizing again -----------------------------------------------------------------

  function Modern(prefix: string): string {
    if prefix == "func" then "function" else prefix
  }

  /** What follows the project's name and its colon, when `StripProject` would take both off. */
  function AfterProject(id: string): (rest: Option<string>)
    ensures rest.Some? ==> Prefix(rest.value).Some?
  {
    match Colon(id)
    case None => None
    case Some(i) =>
      var rest := id[i + 1..];
      if i == 0 || id[..i] in VALID_NODE_PREFIXES || Prefix(rest).None? then None
      else if RestOfLine(rest[|Prefix(rest).value| + 1..]).None? then None
      else Some(rest)
  }

  /** The prefix `p` of `id`, and again the same one in its modern spelling. */
  predicate PrefixedAgain(id: string, p: string)
    requires p + ":" <= id
  {
    Modern(p) + ":" <= id[|p| + 1..]
  }

  /** The ids that one pass leaves unfinished: once a doubled prefix or the project's name is off, the prefix still
      stands before itself; or a bare function or class lies in a file whose path begins with its prefix. */
  predicate NeedsAnotherPass(id: string, shape: Shape) {
    match Prefix(id)
    case Some(p) => PrefixedAgain(if p + ":" + p + ":" <= id then id[|p| + 1..] else id, p)
    case None =>
      match AfterProject(id)
      case Some(rest) => PrefixedAgain(rest, Prefix(rest).value)
      case None =>
        && IsCallable(shape)
        && (shape.filePath == shape.kind.value || shape.kind.value + ":" <= shape.filePath)
  }

  lemma ProjectStays(id: string)
    requires Prefix(id).Some?
    ensures StripProject(id) == id && AfterProject(id).None?
  {
    hide Colon, RestOfLine;
  }

  lemma ModernStays(id: string)
    requires Prefix(id).Some? && Prefix(id) != Some("func")
    ensures Modernize(id) == id
  {
    hide Prefix;
    PrefixDecides(id, "func");
    assert "func" + ":" == "func:";
  }

  lemma Doubled(id: string, p: string)
    requires p + ":" <= id
    ensures p + ":" + p + ":" <= id <==> p + ":" <= id[|p| + 1..]
  {
    assert id == p + ":" + id[|p| + 1..];
    var rest := id[|p| + 1..];
    if p + ":" <= rest {
      assert rest == p + ":" + rest[|p| + 1..];
      assert id == p + ":" + p + ":" + rest[|p| + 1..];
    }
    if p + ":" + p + ":" <= id {
      assert rest[..|p| + 1] == (p + ":" + p + ":")[|p| + 1..];
    }
  }

  /** A prefixed id that is not a legacy one loses one doubled prefix in a pass, and nothing else. */
  lemma PrefixedPass(id: string, shape: Shape)
    requires Prefix(id).Some? && Prefix(id) != Some("func")
    ensures NormalizeNodeId(id, shape) == StripDouble(id)
    ensures StripDouble(id) == id <==> !(Prefix(id).value + ":" <= id[|Prefix(id).value| + 1..])
  {
    hide Prefix, Colon, StripProject, Modernize, AddPrefix;
    var p, d := Prefix(id).value, StripDouble(id);
    Doubled(id, p);
    PrefixDecides(d, p);
    ProjectStays(d);
    ModernStays(d);
  }

  /** A normalized id is stable exactly when its prefix does not stand before itself. */
  lemma NormalizedAgain(id: string, shape: Shape, again: Shape)
    ensures var r := NormalizeNodeId(id, shape);
            && Prefix(r).Some?
            && (NormalizeNodeId(r, again) == r <==> !(Prefix(r).value + ":" <= r[|Prefix(r).value| + 1..]))
  {
    hide Prefix, NormalizeNodeId;
    NormalizedCarriesPrefix(id, shape);
    PrefixedPass(NormalizeNodeId(id, shape), again);
  }

  /** `p` before `rest`, in its modern spelling. */
  lemma ModernOf(p: string, rest: string)
    requires p in VALID_NODE_PREFIXES
    ensures Modernize(p + ":" + rest) == Modern(p) + ":" + rest
    ensures Prefix(Modern(p) + ":" + rest) == Some(Modern(p))
  {
    hide Prefix;
    var id := p + ":" + rest;
    PrefixOf(p, rest);
    PrefixOf(Modern(p), rest);
    if p == "func" {
      assert "func" + ":" == "func:" && id[5..] == rest;
      assert "function:" + rest == "function" + ":" + rest;
    } else {
      ModernStays(id);
    }
  }

  lemma AfterPrefix(p: string, rest: string)
    ensures p + ":" <= p + ":" + rest && (p + ":" + rest)[|p| + 1..] == rest
  {}

  /** The result of a pass over an id that has a prefix or a project before one. */
  lemma RespelledShape(id: string, p: string, rest: string, shape: Shape)
    requires p in VALID_NODE_PREFIXES && StripProject(StripDouble(id)) == p + ":" + rest
    ensures NormalizeNodeId(id, shape) == Modern(p) + ":" + rest
    ensures Prefix(NormalizeNodeId(id, shape)) == Some(Modern(p))
  {
    hide Prefix, StripProject, StripDouble, Modernize, AddPrefix;
    ModernOf(p, rest);
  }

  lemma StableOfShape(id: string, p: string, rest: string, shape: Shape, again: Shape)
    requires p in VALID_NODE_PREFIXES && StripProject(StripDouble(id)) == p + ":" + rest
    ensures var r := NormalizeNodeId(id, shape);
            NormalizeNodeId(r, again) == r <==> !(Modern(p) + ":" <= rest)
  {
    hide Prefix, NormalizeNodeId, StripProject, StripDouble;
    RespelledShape(id, p, rest, shape);
    NormalizedAgain(id, shape, again);
    AfterPrefix(Modern(p), rest);
  }

  lemma StablePrefixed(id: string, shape: Shape, again: Shape)
    requires Prefix(id).Some?
    ensures var r := NormalizeNodeId(id, shape);
            NormalizeNodeId(r, again) == r <==> !NeedsAnotherPass(id, shape)
  {
    hide Prefix, NormalizeNodeId, StripProject, AfterProject, Colon;
    var p, d := Prefix(id).value, StripDouble(id);
    Doubled(id, p);
    PrefixDecides(d, p);
    ProjectStays(d);
    assert d == p + ":" + d[|p| + 1..];
    StableOfShape(id, p, d[|p| + 1..], shape, again);
  }

  /** Of the text behind a project only a final newline can go, which no prefix ends with. */
  lemma RestStarts(s: string, p: string)
    requires RestOfLine(s).Some?
    ensures p + ":" <= s <==> p + ":" <= RestOfLine(s).value
  {
    if p + ":" <= s { assert s[|p|] == ':'; }
  }

  lemma StableProject(id: string, shape: Shape, again: Shape)
    requires Prefix(id).None? && AfterProject(id).Some?
    ensures var r := NormalizeNodeId(id, shape);
            NormalizeNodeId(r, again) == r <==> !NeedsAnotherPass(id, shape)
  {
    hide Prefix, NormalizeNodeId, Colon, RestOfLine;
    var rest := AfterProject(id).value;
    var p := Prefix(rest).value;
    var line := RestOfLine(rest[|p| + 1..]).value;
    assert StripDouble(id) == id;
    assert StripProject(id) == p + ":" + line;
    StableOfShape(id, p, line, shape, again);
    RestStarts(rest[|p| + 1..], Modern(p));
  }

  lemma BareKept(id: string, shape: Shape)
    requires Prefix(id).None? && AfterProject(id).None?
    ensures NormalizeNodeId(id, shape) == AddPrefix(id, shape)
  {
    hide Colon, RestOfLine, AddPrefix;
    assert StripDouble(id) == id;
    assert StripProject(id) == id;
    PrefixDecides(id, "func");
    assert "func" + ":" == "func:";
  }

  /** A path before a colon and a name begins with `p:` exactly when it is `p` or begins so itself. */
  lemma PathStarts(p: string, path: string, name: string)
    requires ':' !in p
    ensures p + ":" <= path + ":" + name <==> path == p || p + ":" <= path
  {
    var s := path + ":" + name;
    if p + ":" <= s {
      assert forall i :: 0 <= i < |p| ==> s[i] == p[i] != ':';
      assert s[|path|] == ':' && s[|p|] == ':';
      if |path| == |p| { assert path == s[..|p|]; }
      if |path| > |p| { assert path[..|p| + 1] == s[..|p| + 1]; }
    }
    if path == p { assert s[..|p| + 1] == p + ":"; }
  }

  lemma StableAdded(id: string, shape: Shape, again: Shape, p: string, rest: string)
    requires NormalizeNodeId(id, shape) == p + ":" + rest && p in VALID_NODE_PREFIXES
    ensures var r := NormalizeNodeId(id, shape);
            NormalizeNodeId(r, again) == r <==> !(p + ":" <= rest)
  {
    hide Prefix, NormalizeNodeId;
    PrefixOf(p, rest);
    NormalizedAgain(id, shape, again);
    AfterPrefix(p, rest);
  }

  lemma StableBare(id: string, shape: Shape, again: Shape)
    requires Prefix(id).None? && AfterProject(id).None?
    ensures var r := NormalizeNodeId(id, shape);
            NormalizeNodeId(r, again) == r <==> !NeedsAnotherPass(id, shape)
  {
    hide Prefix, NormalizeNodeId, AfterProject, AddPrefix;
    var p, rest, name := AddedTo(id, shape);
    BareKept(id, shape);
    StableAdded(id, shape, again, p, rest);
    if IsCallable(shape) {
      var path := if shape.filePath != "" then shape.filePath else "__nofilepath__";
      PathStarts(p, path, name);
      PlaceholderIsNoPrefix(p);
    } else {
      PrefixDecides(id, p);
    }
  }

  lemma ColonIn(p: string, s: string)
    ensures p + ":" <= s ==> ':' in s
  {
    if p + ":" <= s { assert s[|p|] == ':'; }
  }

  lemma PlaceholderIsNoPrefix(p: string)
    requires p in VALID_NODE_PREFIXES
    ensures "__nofilepath__" != p && !(p + ":" <= "__nofilepath__")
    ensures !(p + ":" <= "") && p != ""
  {
    ColonIn(p, "__nofilepath__");
  }

  /** Whether one pass is enough, told from the node as it came in. */
  lemma StableExactly(id: string, shape: Shape, again: Shape)
    ensures var r := NormalizeNodeId(id, shape);
            NormalizeNodeId(r, again) == r <==> !NeedsAnotherPass(id, shape)
  {
    hide Prefix, NormalizeNodeId, AfterProject, NeedsAnotherPass;
    if Prefix(id).Some? {
      StablePrefixed(id, shape, again);
    } else if AfterProject(id).Some? {
      StableProject(id, shape, again);
    } else {
      StableBare(id, shape, again);
    }
  }

  /** Each further pass that changes anything takes exactly one prefix off, so there are only finitely many. */
  lemma NextPassTakesOne(id: string, shape: Shape, again: Shape)
    requires NeedsAnotherPass(id, shape)
    ensures var r := NormalizeNodeId(id, shape);
            Prefix(r).Some? && NormalizeNodeId(r, again) == r[|Prefix(r).value| + 1..]
  {
    hide Prefix, NormalizeNodeId, NeedsAnotherPass;
    StableExactly(id, shape, again);
    NormalizedCarriesPrefix(id, shape);
    PrefixedPass(NormalizeNodeId(id, shape), again);
  }

  /** One input of each kind. */
  lemma UnfinishedIds(shape: Shape)
    ensures NeedsAnotherPass("file:file:file:a", shape)
    ensures NeedsAnotherPass("func:function:a", shape)
    ensures NeedsAnotherPass("x", Shape(Some("function"), Some("f"), "function"))
  {
    hide NeedsAnotherPass;
    StackedPrefixes(shape);
    LegacyBeforeModern(shape);
    PathLikeItsPrefix();
  }

  lemma StackedPrefixes(shape: Shape)
    ensures NeedsAnotherPass("file:file:file:a", shape)
  {
    hide Prefix;
    var id, rest := "file:file:file:a", "file:file:a";
    assert id == "file" + ":" + rest;
    PrefixOf("file", rest);
    assert id[5..] == rest && rest[5..] == "file:a" && "file:a"[..5] == "file" + ":";
  }

  lemma LegacyBeforeModern(shape: Shape)
    ensures NeedsAnotherPass("func:function:a", shape)
  {
    hide Prefix;
    var id, rest := "func:function:a", "function:a";
    assert id == "func" + ":" + rest;
    PrefixOf("func", rest);
    assert id[5..] == rest && rest[..9] == "function" + ":" && id[9] != ':';
  }

  lemma PathLikeItsPrefix()
    ensures NeedsAnotherPass("x", Shape(Some("function"), Some("f"), "function"))
  {
    assert Colon("x").None? by { assert "x"[1..] == ""; }
  }
}
