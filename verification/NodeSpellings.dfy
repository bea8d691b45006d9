// What normalization makes of each way to spell a node id.
module NodeSpellings {
  import opened Wrappers
  import opened NodeIds

  /** Text that a pattern matching to the end of the line accepts: one line, with or without a final newline. */
  predicate OneLine(s: string) {
    s != "" && s != "\n" && '\n' !in s[..|s| - 1]
  }

  predicate StartsKnown(id: string) {
    exists p :: p in VALID_NODE_PREFIXES && p + ":" <= id
  }

  /** `<project>:<prefix>:<rest>`, the project's name being the first `i` characters. */
  predicate ProjectForm(id: string, i: nat, p: string) {
    && 0 < i < |id| && id[i] == ':' && ':' !in id[..i]
    && p in VALID_NODE_PREFIXES && p + ":" <= id[i + 1..] && OneLine(id[i + 1 + |p| + 1..])
  }

  lemma LineOf(s: string)
    ensures RestOfLine(s) == if OneLine(s) then Some(if s[|s| - 1] == '\n' then s[..|s| - 1] else s) else None
  {
    if s != "" { assert s == s[..|s| - 1] + [s[|s| - 1]]; }
  }

  /** An id with a known prefix: a second one just like it goes, and `func` becomes `function`. */
  lemma PrefixedId(p: string, rest: string, shape: Shape)
    requires p in VALID_NODE_PREFIXES
    ensures var kept := if p + ":" <= rest then rest[|p| + 1..] else rest;
            NormalizeNodeId(p + ":" + rest, shape) == (if p == "func" then "function" else p) + ":" + kept
  {
    hide Prefix, Colon, NormalizeNodeId, StripProject, VALID_NODE_PREFIXES;
    var id := p + ":" + rest;
    PrefixOf(p, rest);
    AfterPrefix(p, rest);
    Doubled(id, p);
    var kept := if p + ":" <= rest then rest[|p| + 1..] else rest;
    assert StripDouble(id) == p + ":" + kept by {
      if p + ":" <= rest { assert rest == p + ":" + kept; }
    }
    PrefixOf(p, kept);
    ProjectStays(p + ":" + kept);
    RespelledShape(id, p, kept, shape);
  }

  /** A project's name before a known prefix goes, and with it a final newline; what looks like a second prefix
      behind it stays. */
  lemma ProjectId(id: string, i: nat, p: string, shape: Shape)
    requires !StartsKnown(id) && ProjectForm(id, i, p)
    ensures var rest := id[i + 1 + |p| + 1..];
            NormalizeNodeId(id, shape) ==
            (if p == "func" then "function" else p) + ":"
            + (if rest[|rest| - 1] == '\n' then rest[..|rest| - 1] else rest)
  {
    hide NormalizeNodeId, RestOfLine, OneLine, VALID_NODE_PREFIXES;
    var tail := id[i + 1..];
    FirstColon(id, i);
    PrefixDecides(tail, p);
    hide Prefix;
    Unprefixed(id);
    LineOf(tail[|p| + 1..]);
    assert tail[|p| + 1..] == id[i + 1 + |p| + 1..];
    StripsProject(id, i, p);
    RespelledShape(id, p, RestOfLine(tail[|p| + 1..]).value, shape);
  }

  lemma FirstColon(id: string, i: nat)
    requires i < |id| && id[i] == ':' && ':' !in id[..i]
    ensures Colon(id) == Some(i)
  {
    ColonOf(id[..i], id[i + 1..]);
    assert id == id[..i] + ":" + id[i + 1..];
  }

  lemma Unprefixed(id: string)
    ensures Prefix(id).Some? <==> StartsKnown(id)
  {
    hide VALID_NODE_PREFIXES;
    forall p | p in VALID_NODE_PREFIXES && p + ":" <= id ensures Prefix(id).Some? { PrefixDecides(id, p); }
    if Prefix(id).Some? { PrefixDecides(id, Prefix(id).value); }
  }

  lemma StripsProject(id: string, i: nat, p: string)
    requires Colon(id) == Some(i) && 0 < i && Prefix(id).None?
    requires Prefix(id[i + 1..]) == Some(p) && RestOfLine(id[i + 1..][|p| + 1..]).Some?
    ensures StripProject(StripDouble(id)) == p + ":" + RestOfLine(id[i + 1..][|p| + 1..]).value
  {
    hide RestOfLine, VALID_NODE_PREFIXES;
  }

  lemma ProjectFormed(id: string)
    ensures AfterProject(id).Some? ==> exists i: nat, p :: ProjectForm(id, i, p)
  {
    hide VALID_NODE_PREFIXES, RestOfLine;
    if AfterProject(id).Some? {
      var rest, i := AfterProject(id).value, Colon(id).value;
      var p := Prefix(rest).value;
      LineOf(rest[|p| + 1..]);
      assert rest[|p| + 1..] == id[i + 1 + |p| + 1..];
      assert ProjectForm(id, i, p);
    }
  }

  lemma KindPrefix(kind: string)
    ensures PrefixOfType(kind) ==
            if kind == "func" then "function" else if kind in VALID_NODE_PREFIXES then kind else "file"
    ensures kind == "function" || kind == "class" ==> kind in VALID_NODE_PREFIXES
  {}

  /** Every other id gets a prefix put before it: a function or a class its kind and the path of its file, any other
      node the prefix of its kind, where an unknown kind counts as a file. */
  lemma BareId(id: string, shape: Shape)
    requires !StartsKnown(id) && forall i: nat, p :: !ProjectForm(id, i, p)
    ensures var r := NormalizeNodeId(id, shape);
            match shape.kind
            case None => r == "file:" + id
            case Some(kind) =>
              if kind == "function" || kind == "class" then
                r == kind + ":" + (if shape.filePath == "" then "__nofilepath__" else shape.filePath) + ":"
                     + (if shape.name.Some? then shape.name.value else id)
              else if kind == "func" then r == "function:" + id
              else if kind in VALID_NODE_PREFIXES then r == kind + ":" + id
              else r == "file:" + id
  {
    hide NormalizeNodeId, Prefix, StartsKnown, ProjectForm, AfterProject, PrefixOfType, VALID_NODE_PREFIXES;
    Unprefixed(id);
    ProjectFormed(id);
    BareKept(id, shape);
    KindPrefix(if shape.kind.Some? then shape.kind.value else "file");
    assert "file" + ":" == "file:" && "function" + ":" == "function:";
  }
}
