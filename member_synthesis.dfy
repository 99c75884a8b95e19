/**
 * The second half of `JsonCodableMacro.expansion` (JsonCodableMacroPlugin.swift,
 * lines 23-71): from the ordered field list, the initializer, the fixed
 * `toJson`/`fromJson` templates and the `CodingKeys` enum, always in that
 * order. Declarations are kept structured; `Render` gives the text the macro
 * interpolates, one entry per line, before the macro system re-formats it.
 */
module MemberSynthesis {
  import opened Wrappers
  import opened SyntaxModel
  import opened NameConversion
  import opened FieldExtraction
  import opened Text

  /** `name: Type` in the initializer's parameter list. */
  datatype Param = Param(name: string, typeText: string)

  /** `self.property = value` in the initializer's body. */
  datatype Assignment = Assignment(property: string, value: string)

  /** `case name = "rawValue"` in the `CodingKeys` enum. */
  datatype CodingKeyCase = CodingKeyCase(name: string, rawValue: string)

  /** The four kinds of declaration the macro emits. */
  datatype Decl =
    | Initializer(params: seq<Param>, assignments: seq<Assignment>)
    | ToJsonMethod
    | FromJsonMethod
    | CodingKeysEnum(cases: seq<CodingKeyCase>)

  /**
   * The wire name of a field: `toSnakeCase() ?? name`. It has no upper-case
   * letter, and equals the identifier exactly when the identifier has none.
   */
  function WireName(name: string): (w: string)
    ensures NoUpper(w)
    ensures w == name <==> NoUpper(name)
  {
    SnakeOfNoUpper(name);
    SnakeOfIdentity(name);
    SnakeCased(name).GetOr(name)
  }

  /** The initializer: one parameter and one assignment per field, in field order. */
  function InitializerFor(fields: seq<Field>): (d: Decl)
    ensures d.Initializer? && |d.params| == |fields| && |d.assignments| == |fields|
  {
    Initializer(
      seq(|fields|, i requires 0 <= i < |fields| => Param(fields[i].name, fields[i].typeText)),
      seq(|fields|, i requires 0 <= i < |fields| => Assignment(fields[i].name, fields[i].name)))
  }

  /** The `CodingKeys` enum: one case per field, in field order. */
  function CodingKeysFor(fields: seq<Field>): (d: Decl)
    ensures d.CodingKeysEnum? && |d.cases| == |fields|
  {
    CodingKeysEnum(seq(|fields|, i requires 0 <= i < |fields| => CodingKeyCase(fields[i].name, WireName(fields[i].name))))
  }

  /** The macro expansion: nothing for a kind other than actor, class or struct. */
  function Expansion(decl: DeclGroup): (r: seq<Decl>)
    ensures !IsApplicable(decl.kind) ==> r == []
    ensures IsApplicable(decl.kind) ==>
      && |r| == 4
      && r[0].Initializer? && r[1] == ToJsonMethod && r[2] == FromJsonMethod && r[3].CodingKeysEnum?
  {
    if !IsApplicable(decl.kind) then []
    else
      var fields := Fields(decl.members);
      [InitializerFor(fields), ToJsonMethod, FromJsonMethod, CodingKeysFor(fields)]
  }

  /** The fields an initializer initialises, read back from its parameter list. */
  function ParamFields(d: Decl): seq<Field>
    requires d.Initializer?
  {
    seq(|d.params|, i requires 0 <= i < |d.params| => Field(d.params[i].name, d.params[i].typeText))
  }

  /** An initializer as the macro builds it: every parameter is stored into the property of the same name. */
  predicate StoresEachParam(d: Decl)
    requires d.Initializer?
  {
    && |d.assignments| == |d.params|
    && forall i :: 0 <= i < |d.params| ==>
         d.assignments[i].property == d.params[i].name && d.assignments[i].value == d.params[i].name
  }

  /** The initializer is determined by the fields and determines them: its parameter list reads back as the field list. */
  lemma InitializerRoundTrip(fields: seq<Field>)
    ensures InitializerFor(fields).Initializer?
    ensures ParamFields(InitializerFor(fields)) == fields
    ensures StoresEachParam(InitializerFor(fields))
  {
  }

  /** Case `i` of `CodingKeys` is field `i` under its wire name; the case names are unique exactly when the field names are. */
  lemma CodingKeysCases(fields: seq<Field>)
    ensures var d := CodingKeysFor(fields);
      && d.CodingKeysEnum?
      && (forall i :: 0 <= i < |fields| ==>
            d.cases[i].name == fields[i].name && d.cases[i].rawValue == WireName(fields[i].name))
      && ((forall i, j :: 0 <= i < j < |d.cases| ==> d.cases[i].name != d.cases[j].name)
          <==> (forall i, j :: 0 <= i < j < |fields| ==> fields[i].name != fields[j].name))
  {
  }

  /** The expansion's initializer and `CodingKeys` follow the extracted fields one for one, in member order. */
  lemma ExpansionFollowsFields(decl: DeclGroup)
    requires IsApplicable(decl.kind)
    ensures var r := Expansion(decl);
      var fields := Fields(decl.members);
      && |r| == 4 && r[0].Initializer? && r[3].CodingKeysEnum?
      && ParamFields(r[0]) == fields
      && StoresEachParam(r[0])
      && |r[3].cases| == |fields|
      && forall i :: 0 <= i < |fields| ==>
           r[3].cases[i] == CodingKeyCase(fields[i].name, WireName(fields[i].name))
  {
    InitializerRoundTrip(Fields(decl.members));
  }

  /** A member that does not qualify as a field changes nothing in the expansion, wherever it stands. */
  lemma ExpansionIgnoresDropped(kind: DeclKind, a: seq<Member>, m: Member, b: seq<Member>)
    requires !IsField(m)
    ensures Expansion(DeclGroup(kind, a + [m] + b)) == Expansion(DeclGroup(kind, a + b))
  {
    DroppedMember(a, m, b);
  }

  /** The two generated methods are the same for every applicable declaration, whatever its members. */
  lemma TemplatesFixed(d1: DeclGroup, d2: DeclGroup)
    requires IsApplicable(d1.kind) && IsApplicable(d2.kind)
    ensures Expansion(d1)[1..3] == Expansion(d2)[1..3] == [ToJsonMethod, FromJsonMethod]
  {
  }

  // Rendering.

  const ToJsonTemplate: seq<string> := [
    "public func toJson() -> String? {",
    "    let encoder = JSONEncoder()",
    "    guard let data = try? encoder.encode(self) else {",
    "        return nil",
    "    }",
    "    return String(data: data, encoding: .utf8)",
    "}"
  ]

  const FromJsonTemplate: seq<string> := [
    "public func fromJson(_ json: String) -> Self? {",
    "    let decoder = JSONDecoder()",
    "    guard let data = json.data(using: .utf8),",
    "          let object = try? decoder.decode(Self.self, from: data) else {",
    "        return nil",
    "    }",
    "    return object",
    "}"
  ]

  function ParamText(p: Param): string {
    p.name + ": " + p.typeText
  }

  function AssignmentText(a: Assignment): string {
    "self." + a.property + " = " + a.value
  }

  function CaseText(c: CodingKeyCase): string {
    "case " + c.name + " = \"" + c.rawValue + "\""
  }

  function ParamTexts(d: Decl): seq<string>
    requires d.Initializer?
  {
    seq(|d.params|, i requires 0 <= i < |d.params| => ParamText(d.params[i]))
  }

  function AssignmentTexts(d: Decl): seq<string>
    requires d.Initializer?
  {
    seq(|d.assignments|, i requires 0 <= i < |d.assignments| => AssignmentText(d.assignments[i]))
  }

  function CaseTexts(d: Decl): seq<string>
    requires d.CodingKeysEnum?
  {
    seq(|d.cases|, i requires 0 <= i < |d.cases| => CaseText(d.cases[i]))
  }

  /** The declaration text the macro hands to `DeclSyntax(stringLiteral:)`, without indentation. */
  function Render(d: Decl): string {
    match d
    case Initializer(_, _) =>
      Join(["init(", Join(ParamTexts(d), ",\n"), ") {", Join(AssignmentTexts(d), "\n"), "}"], "\n")
    case ToJsonMethod => Join(ToJsonTemplate, "\n")
    case FromJsonMethod => Join(FromJsonTemplate, "\n")
    case CodingKeysEnum(_) =>
      Join(["public enum CodingKeys: String, CodingKey {", Join(CaseTexts(d), "\n"), "}"], "\n")
  }

  /** No identifier or type of the fields spans two lines. */
  predicate SingleLineFields(fields: seq<Field>) {
    forall i :: 0 <= i < |fields| ==> '\n' !in fields[i].name && '\n' !in fields[i].typeText
  }

  /** No identifier of the fields spans two lines. */
  predicate SingleLineNames(fields: seq<Field>) {
    forall i :: 0 <= i < |fields| ==> '\n' !in fields[i].name
  }

  /** Lines of a text with a line break in the middle. */
  lemma LinesAround(a: string, b: string)
    ensures Lines(a + "\n" + b) == Lines(a) + Lines(b)
  {
    SplitAround(a, '\n', b);
  }

  /** Lines of `head`, then `x`, then `tail`, on lines of their own. */
  lemma LinesOfThree(head: string, x: string, tail: string)
    requires '\n' !in head && '\n' !in tail
    ensures Lines(Join([head, x, tail], "\n")) == [head] + Lines(x) + [tail]
  {
    assert Join([head, x, tail], "\n") == head + "\n" + (x + "\n" + tail) by {
      assert [head, x, tail][1..] == [x, tail];
      assert [x, tail][1..] == [tail];
      assert Join([tail], "\n") == tail;
      assert Join([x, tail], "\n") == x + "\n" + tail;
    }
    LinesAround(head, x + "\n" + tail);
    LinesAround(x, tail);
    SplitWhole(head, '\n');
    SplitWhole(tail, '\n');
  }

  /** Lines of `head`, then `x`, then `mid`, then `y`, then `tail`, on lines of their own. */
  lemma LinesOfFive(head: string, x: string, mid: string, y: string, tail: string)
    requires '\n' !in head && '\n' !in mid && '\n' !in tail
    ensures Lines(Join([head, x, mid, y, tail], "\n")) == [head] + Lines(x) + [mid] + Lines(y) + [tail]
  {
    assert Join([head, x, mid, y, tail], "\n") == head + "\n" + (x + "\n" + Join([mid, y, tail], "\n")) by {
      assert [head, x, mid, y, tail][1..] == [x, mid, y, tail];
      assert [x, mid, y, tail][1..] == [mid, y, tail];
    }
    LinesAround(head, x + "\n" + Join([mid, y, tail], "\n"));
    LinesAround(x, Join([mid, y, tail], "\n"));
    SplitWhole(head, '\n');
    LinesOfThree(mid, y, tail);
  }

  /** A header line, one line per entry of `xs`, and a closing line. */
  lemma LinesOfBlock(header: string, xs: seq<string>, tail: string)
    requires '\n' !in header && '\n' !in tail
    requires forall k :: 0 <= k < |xs| ==> '\n' !in xs[k]
    ensures Lines(Join([header, Join(xs, "\n"), tail], "\n")) == [header] + (if xs == [] then [""] else xs) + [tail]
  {
    LinesOfJoin(xs, "");
    PunctuateNothing(xs);
    assert "" + "\n" == "\n";
    LinesOfThree(header, Join(xs, "\n"), tail);
  }

  /** A header line, one comma-terminated line per entry of `xs`, a middle line, one line per entry of `ys`, a closing line. */
  lemma LinesOfTwoBlocks(head: string, xs: seq<string>, mid: string, ys: seq<string>, tail: string)
    requires '\n' !in head && '\n' !in mid && '\n' !in tail
    requires forall k :: 0 <= k < |xs| ==> '\n' !in xs[k]
    requires forall k :: 0 <= k < |ys| ==> '\n' !in ys[k]
    ensures Lines(Join([head, Join(xs, ",\n"), mid, Join(ys, "\n"), tail], "\n")) ==
      [head] + (if xs == [] then [""] else Punctuate(xs, ",")) + [mid] + (if ys == [] then [""] else ys) + [tail]
  {
    LinesOfJoin(xs, ",");
    LinesOfJoin(ys, "");
    PunctuateNothing(ys);
    assert ",\n" == "," + "\n" && "\n" == "" + "\n";
    LinesOfFive(head, Join(xs, ",\n"), mid, Join(ys, "\n"), tail);
  }

  /**
   * The rendered initializer is `init(`, one `name: Type` line per field
   * (all but the last ending in a comma), `) {`, one `self.name = name`
   * line per field and `}`.
   */
  lemma InitializerLines(fields: seq<Field>)
    requires SingleLineFields(fields)
    ensures var d := InitializerFor(fields);
      Lines(Render(d)) ==
        ["init("]
        + (if fields == [] then [""] else Punctuate(ParamTexts(d), ","))
        + [") {"]
        + (if fields == [] then [""] else AssignmentTexts(d))
        + ["}"]
  {
    var d := InitializerFor(fields);
    var ps, assigns := ParamTexts(d), AssignmentTexts(d);
    assert Lines(Join(["init(", Join(ps, ",\n"), ") {", Join(assigns, "\n"), "}"], "\n")) ==
      ["init("] + (if ps == [] then [""] else Punctuate(ps, ",")) + [") {"]
      + (if assigns == [] then [""] else assigns) + ["}"] by {
      forall i | 0 <= i < |ps| ensures '\n' !in ps[i] {
        assert ps[i] == fields[i].name + ": " + fields[i].typeText;
      }
      forall i | 0 <= i < |assigns| ensures '\n' !in assigns[i] {
        assert assigns[i] == "self." + fields[i].name + " = " + fields[i].name;
      }
      LinesOfTwoBlocks("init(", ps, ") {", assigns, "}");
    }
    assert Render(d) == Join(["init(", Join(ps, ",\n"), ") {", Join(assigns, "\n"), "}"], "\n");
  }

  /** A wire name spans one line when its identifier does. */
  lemma WireNameSingleLine(name: string)
    requires '\n' !in name
    ensures '\n' !in WireName(name)
  {
    SnakeOfKeepsOut(name, '\n');
  }

  /** Every case line of the enum is one line when the fields' identifiers are. */
  lemma CaseTextsSingleLine(fields: seq<Field>)
    requires SingleLineNames(fields)
    ensures var cs := CaseTexts(CodingKeysFor(fields));
      forall i :: 0 <= i < |cs| ==> '\n' !in cs[i]
  {
    var d := CodingKeysFor(fields);
    forall i | 0 <= i < |d.cases| ensures '\n' !in CaseText(d.cases[i]) {
      WireNameSingleLine(fields[i].name);
      assert CaseText(d.cases[i]) == "case " + fields[i].name + " = \"" + WireName(fields[i].name) + "\"";
    }
  }

  /**
   * The rendered `CodingKeys` enum is its header line, one
   * `case name = "wire_name"` line per field, and `}`.
   */
  lemma CodingKeysLines(fields: seq<Field>)
    requires SingleLineNames(fields)
    ensures var d := CodingKeysFor(fields);
      Lines(Render(d)) ==
        ["public enum CodingKeys: String, CodingKey {"]
        + (if fields == [] then [""] else CaseTexts(d))
        + ["}"]
  {
    var d := CodingKeysFor(fields);
    var header, cs := "public enum CodingKeys: String, CodingKey {", CaseTexts(d);
    assert Lines(Join([header, Join(cs, "\n"), "}"], "\n")) == [header] + (if cs == [] then [""] else cs) + ["}"] by {
      CaseTextsSingleLine(fields);
      LinesOfBlock(header, cs, "}");
    }
    assert Render(d) == Join([header, Join(cs, "\n"), "}"], "\n");
  }
}
