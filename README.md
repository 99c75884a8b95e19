# JsonCodable member macro — a Dafny model

`@JsonCodable` is a Swift member macro. Attached to a class, struct or actor,
it reads every variable declaration of the type whose first binding is an
identifier with a type annotation, and adds four members:

- an initializer taking one parameter per such declaration, in declaration
  order;
- a fixed `toJson()` method;
- a fixed `fromJson(_:)` method;
- a `CodingKeys` enum that gives each such identifier a wire name. The wire
  name is the identifier converted from camelCase to snake_case by
  `String.toSnakeCase`.

A declaration without a type annotation (`let x = 1`) or with a tuple
pattern (`let (a, b): (Int, Int)`) is skipped. A computed property with a type
annotation (`var y: Int { 1 }`) and a `static` one are kept, because the
guards look at neither the accessor block nor the modifiers; the model has no
modifiers for the same reason.

The model has the same three parts as `JsonCodableMacroPlugin.swift`.

- **Field extraction** (`FieldExtraction`, over the syntax in `SyntaxModel`).
  - The kind guard: only actor, class and struct declarations expand.
  - The `compactMap` over the members. It keeps a variable declaration when
    its first binding is a plain identifier with a type annotation, and drops
    everything else.
  - Proved: the fields are exactly the qualifying members, in member order.
    A dropped member changes nothing. Only the first binding of a
    declaration counts.
- **Name conversion** (`NameConversion`).
  - `toSnakeCase` is the method `ToSnakeCase`. It keeps the source's loop and
    its `shouldAddUnderscore` flag.
  - It is proved equal to a recursive specification, `SnakeOf`.
  - Properties of that specification:
    - its length;
    - prefixes map to prefixes;
    - where each character lands, and where separators go;
    - no leading underscore is added;
    - the output has no upper-case letter;
    - the output is unchanged exactly when the input has no upper-case
      letter;
    - the conversion is idempotent;
    - it agrees with an independent head-first definition.
- **Member synthesis** (`MemberSynthesis`, with line splitting in `Text`).
  - The four declarations are built as structured values from the field list.
  - `Render` gives the text the macro interpolates. It is proved to lay the
    initializer and `CodingKeys` out as one line per field.
  - `ExpansionExamples` restates the three expansion tests of the repository
    (Person, Book, Library) as lemmas about the model. It also covers the
    acronym and collision behaviour of wire names.

Upper case means ASCII `A`–`Z`. Lower-casing adds 32 to the code point.

The model follows the code in these places:

- Other declaration kinds (enum, extension, protocol) get no members at all
  (`Expansion`, `InapplicableKinds`).
- Duplicate property names are not rejected. `CodingKeysCases` instead proves
  that the case names are unique exactly when the property names are.
- A computed `var` with a type annotation is kept as a field, because the
  guard never looks at the accessor block (`ComputedPropertyKept`).
- Fields carry no optionality flag. The type is passed through as written,
  `Date?` included.

## Model

| member | source | states |
|---|---|---|
| NameConversion.Lower | Sources/JsonCodableMacroPlugin/JsonCodableMacroPlugin.swift:94 | the lowered character is never upper case; an upper-case letter maps to its lower-case partner; every other character is left alone |
| NameConversion.ToSnakeCase | Sources/JsonCodableMacroPlugin/JsonCodableMacroPlugin.swift:83-103 | returns no result exactly for the empty string; otherwise the loop's result is the specification `SnakeOf` of the whole input |
| NameConversion.SnakeOfLength | Sources/JsonCodableMacroPlugin/JsonCodableMacroPlugin.swift:89-100 | the output is the input's length plus one underscore for every upper-case letter after the first position |
| NameConversion.SnakeOfPrefix | Sources/JsonCodableMacroPlugin/JsonCodableMacroPlugin.swift:89-100 | converting a prefix of the name gives a prefix of the converted name: the output only grows as the loop runs |
| NameConversion.SnakeOfAt | Sources/JsonCodableMacroPlugin/JsonCodableMacroPlugin.swift:90-99 | character i lands, lowered, at i plus the separators up to it; an upper-case letter after the first position is preceded by an underscore; the previous character sits one place earlier, or two when an underscore was inserted |
| NameConversion.NoLeadingUnderscore | Sources/JsonCodableMacroPlugin/JsonCodableMacroPlugin.swift:87-93 | the first output character is the lowered first input character, so a leading capital never produces a leading underscore |
| NameConversion.SnakeOfNoUpper | Sources/JsonCodableMacroPlugin/JsonCodableMacroPlugin.swift:90-99 | the output contains no upper-case letter |
| NameConversion.SnakeOfIdentity | Sources/JsonCodableMacroPlugin/JsonCodableMacroPlugin.swift:90-99 | the output equals the input if and only if the input has no upper-case letter |
| NameConversion.SnakeOfAppendNoUpper | Sources/JsonCodableMacroPlugin/JsonCodableMacroPlugin.swift:96-99 | after a non-empty prefix, text without upper-case letters is copied unchanged |
| NameConversion.SnakeOfCamel | Sources/JsonCodableMacroPlugin/JsonCodableMacroPlugin.swift:90-99 | a camelCase boundary after a non-empty prefix becomes an underscore followed by the lowered letter |
| NameConversion.SnakeOfIdempotent | Sources/JsonCodableMacroPlugin/JsonCodableMacroPlugin.swift:89-100 | converting an already converted name changes nothing |
| NameConversion.SnakeCasedIdempotent | Sources/JsonCodableMacroPlugin/JsonCodableMacroPlugin.swift:83-103 | `toSnakeCase` gives no result exactly for the empty string, and applying it to its own result gives the same result |
| Wrappers.Option.GetOr | Sources/JsonCodableMacroPlugin/JsonCodableMacroPlugin.swift:56 | Swift's `??`: the wrapped value, or the default when there is none |
| NameConversion.SnakeOfKeepsOut | Sources/JsonCodableMacroPlugin/JsonCodableMacroPlugin.swift:89-100 | the only characters the conversion introduces are underscores and lower-case letters |
| NameConversion.SeparatedAppend | Sources/JsonCodableMacroPlugin/JsonCodableMacroPlugin.swift:89-100 | the head-first reference conversion (every position separated) distributes over concatenation |
| NameConversion.SeparatedNoUpper | Sources/JsonCodableMacroPlugin/JsonCodableMacroPlugin.swift:96-98 | the head-first reference leaves a name without upper-case letters unchanged |
| NameConversion.SnakeOfPieces | Sources/JsonCodableMacroPlugin/JsonCodableMacroPlugin.swift:87-99 | the loop's left-to-right result equals the head-first reference: the first character without separator, every later one with it |
| FieldExtraction.FieldOf | Sources/JsonCodableMacroPlugin/JsonCodableMacroPlugin.swift:13-22 | a member yields a field if and only if it is a variable declaration whose first binding is a plain identifier with a type annotation; the field is that identifier and that type |
| FieldExtraction.Fields | Sources/JsonCodableMacroPlugin/JsonCodableMacroPlugin.swift:13-22 | the compactMap never yields more fields than there are members |
| FieldExtraction.FieldsAppend | Sources/JsonCodableMacroPlugin/JsonCodableMacroPlugin.swift:13-22 | extracting from two member lists in a row is extracting from each and concatenating |
| FieldExtraction.FieldsCount | Sources/JsonCodableMacroPlugin/JsonCodableMacroPlugin.swift:13-22 | the number of fields is the number of qualifying members |
| FieldExtraction.PositionsMatchFields | Sources/JsonCodableMacroPlugin/JsonCodableMacroPlugin.swift:13-22 | field k is the field of the k-th qualifying member |
| FieldExtraction.PositionsIncreasing | Sources/JsonCodableMacroPlugin/JsonCodableMacroPlugin.swift:13-22 | the qualifying positions are strictly increasing, so fields come in member order |
| FieldExtraction.PositionsComplete | Sources/JsonCodableMacroPlugin/JsonCodableMacroPlugin.swift:13-22 | every qualifying member's position is listed |
| FieldExtraction.FieldsInOrder | Sources/JsonCodableMacroPlugin/JsonCodableMacroPlugin.swift:13-22 | the fields are exactly the qualifying members' fields, in member order, with none skipped and none added |
| FieldExtraction.DroppedMember | Sources/JsonCodableMacroPlugin/JsonCodableMacroPlugin.swift:14-19 | a member rejected by any guard leaves the field list unchanged wherever it stands |
| FieldExtraction.OnlyFirstBinding | Sources/JsonCodableMacroPlugin/JsonCodableMacroPlugin.swift:16 | further bindings of a declaration (`let a: Int, b: Int`) are ignored |
| FieldExtraction.ComputedPropertyKept | Sources/JsonCodableMacroPlugin/JsonCodableMacroPlugin.swift:16-21 | an annotated variable with an accessor block is still a field |
| FieldExtraction.IsApplicable | Sources/JsonCodableMacroPlugin/JsonCodableMacroPlugin.swift:8-10 | the kind guard: exactly actors, classes and structs are expanded |
| MemberSynthesis.WireName | Sources/JsonCodableMacroPlugin/JsonCodableMacroPlugin.swift:55-56 | `toSnakeCase() ?? name` has no upper-case letter and equals the identifier exactly when the identifier has none |
| MemberSynthesis.InitializerFor | Sources/JsonCodableMacroPlugin/JsonCodableMacroPlugin.swift:23-31 | the initializer has one parameter and one assignment per field |
| MemberSynthesis.CodingKeysFor | Sources/JsonCodableMacroPlugin/JsonCodableMacroPlugin.swift:54-64 | the enum has one case per field |
| MemberSynthesis.Expansion | Sources/JsonCodableMacroPlugin/JsonCodableMacroPlugin.swift:8-71 | no members for kinds other than actor, class and struct; otherwise exactly four: initializer, `toJson`, `fromJson`, `CodingKeys`, in that order |
| MemberSynthesis.InitializerRoundTrip | Sources/JsonCodableMacroPlugin/JsonCodableMacroPlugin.swift:25-28 | the parameter list reads back as the field list, and each parameter is stored into the property of the same name |
| MemberSynthesis.CodingKeysCases | Sources/JsonCodableMacroPlugin/JsonCodableMacroPlugin.swift:54-58 | case i is field i's name with field i's wire name as raw value; case names are unique if and only if field names are |
| MemberSynthesis.ExpansionFollowsFields | Sources/JsonCodableMacroPlugin/JsonCodableMacroPlugin.swift:12-71 | the expansion's initializer and `CodingKeys` follow the extracted fields one for one, in member order |
| MemberSynthesis.ExpansionIgnoresDropped | Sources/JsonCodableMacroPlugin/JsonCodableMacroPlugin.swift:13-22 | a non-qualifying member changes nothing in the expansion |
| MemberSynthesis.TemplatesFixed | Sources/JsonCodableMacroPlugin/JsonCodableMacroPlugin.swift:33-52 | `toJson` and `fromJson` are the same for every applicable declaration, whatever its members |
| MemberSynthesis.Render | Sources/JsonCodableMacroPlugin/JsonCodableMacroPlugin.swift:23-64 | the text each declaration is built from, without the indentation the declaration itself receives: the initializer and enum literals with their interpolated lists, and the two method templates joined by line breaks; its layout is stated by `InitializerLines` and `CodingKeysLines` |
| MemberSynthesis.LinesAround | Sources/JsonCodableMacroPlugin/JsonCodableMacroPlugin.swift:24-30 | reads the template text back as lines: a line break between two texts splits their lines there |
| MemberSynthesis.LinesOfThree | Sources/JsonCodableMacroPlugin/JsonCodableMacroPlugin.swift:60-64 | reads the template text back as lines: a header line, an interpolated block and a closing line give the header, the block's lines and the closing line |
| MemberSynthesis.LinesOfFive | Sources/JsonCodableMacroPlugin/JsonCodableMacroPlugin.swift:24-30 | reads the template text back as lines: the five-part initializer layout gives its fixed lines around the lines of its two interpolated blocks |
| MemberSynthesis.LinesOfBlock | Sources/JsonCodableMacroPlugin/JsonCodableMacroPlugin.swift:60-64 | a header line, entries joined by line breaks and a closing line give the header, one line per entry (one empty line for none) and the closing line |
| MemberSynthesis.LinesOfTwoBlocks | Sources/JsonCodableMacroPlugin/JsonCodableMacroPlugin.swift:24-30 | the initializer layout gives its three fixed lines around one comma-terminated line per parameter and one line per assignment |
| MemberSynthesis.InitializerLines | Sources/JsonCodableMacroPlugin/JsonCodableMacroPlugin.swift:23-31 | the rendered initializer is `init(`, one `name: Type` line per field with commas after all but the last, `) {`, one `self.name = name` line per field, `}` |
| MemberSynthesis.WireNameSingleLine | Sources/JsonCodableMacroPlugin/JsonCodableMacroPlugin.swift:56 | the wire name of a one-line identifier is one line |
| MemberSynthesis.CaseTextsSingleLine | Sources/JsonCodableMacroPlugin/JsonCodableMacroPlugin.swift:54-58 | every `case name = "wire_name"` line of the enum is one line when the identifiers are, whatever the types |
| MemberSynthesis.CodingKeysLines | Sources/JsonCodableMacroPlugin/JsonCodableMacroPlugin.swift:54-64 | the rendered enum is its header, one `case name = "wire_name"` line per field, `}`, for one-line identifiers and any types |
| Text.Split | Sources/JsonCodableMacroPlugin/JsonCodableMacroPlugin.swift:23-31 | reads the template text back as lines: splitting gives at least one piece and no piece contains the separator |
| Text.PunctuateNothing | Sources/JsonCodableMacroPlugin/JsonCodableMacroPlugin.swift:28 | reads the template text back as lines: entries joined with a bare line break come back unchanged |
| Text.SplitWhole | Sources/JsonCodableMacroPlugin/JsonCodableMacroPlugin.swift:23-31 | reads the template text back as lines: a text without the separator is one piece |
| Text.SplitAround | Sources/JsonCodableMacroPlugin/JsonCodableMacroPlugin.swift:23-31 | reads the template text back as lines: splitting at a separator between two texts concatenates their pieces |
| Text.Join | Sources/JsonCodableMacroPlugin/JsonCodableMacroPlugin.swift:26-58 | `joined(separator:)`: the entries in order with the separator between each adjacent pair, and one entry alone as itself; read back line by line in `LinesOfJoin` |
| Text.LinesOfJoin | Sources/JsonCodableMacroPlugin/JsonCodableMacroPlugin.swift:26-28 | `joined(separator: p + "\n")` of one-line items gives one line per item, every line but the last ending in `p` |
| ExpansionExamples.PublishedYearWireName | Tests/JsonCodableMacroTests/JsonCodableMacroTests.swift:74-131 | `publishedYear` has wire name `published_year` |
| ExpansionExamples.AcronymWireName | Sources/JsonCodableMacroPlugin/JsonCodableMacroPlugin.swift:89-100 | `HTTPCode` has wire name `h_t_t_p_code`: every capital gets its own separator |
| ExpansionExamples.WireNamesCanCollide | Sources/JsonCodableMacroPlugin/JsonCodableMacroPlugin.swift:54-58 | the distinct properties `aB` and `a_b` get the same wire name `a_b` |
| ExpansionExamples.PlainWireNames | Tests/JsonCodableMacroTests/JsonCodableMacroTests.swift:60-64 | the lower-case identifiers of the three tests are their own wire names |
| ExpansionExamples.ExpansionOfThree | Sources/JsonCodableMacroPlugin/JsonCodableMacroPlugin.swift:8-71 | any applicable declaration with three stored `let` properties expands to the initializer over them, the two methods and their three coding keys |
| ExpansionExamples.ExpansionOfTwo | Sources/JsonCodableMacroPlugin/JsonCodableMacroPlugin.swift:8-71 | the same for two stored properties |
| ExpansionExamples.PersonExpansion | Tests/JsonCodableMacroTests/JsonCodableMacroTests.swift:15-72 | class Person with name, age and birthday yields those three fields and exactly the initializer, methods and coding keys the test expects |
| ExpansionExamples.BookExpansion | Tests/JsonCodableMacroTests/JsonCodableMacroTests.swift:74-131 | struct Book yields its three fields and the expected members, with `publishedYear = "published_year"` |
| ExpansionExamples.LibraryExpansion | Tests/JsonCodableMacroTests/JsonCodableMacroTests.swift:133-185 | struct Library yields its two fields and the expected members |
| ExpansionExamples.InapplicableKinds | Sources/JsonCodableMacroPlugin/JsonCodableMacroPlugin.swift:8-10 | an enum, extension or protocol gets no members whatever it declares |

## Left out

- SwiftSyntax is not modelled. Declarations and members are plain datatypes. The interpolated pattern and type annotation are kept as their text. Turning the text back into `DeclSyntax` is left out.
- Indentation and whitespace of the emitted code are left out. The macro system re-formats them. The initializer and `CodingKeys` lines are kept without indentation; the `toJson`/`fromJson` templates keep their inner indentation relative to their first line, as written in the source.
- What `toJson` and `fromJson` do when they run (JSONEncoder, JSONDecoder, UTF-8 conversion) is left out. They are foreign library code. The model keeps only that both methods are fixed templates.
- The compiler-plugin registration (`JsonCodablePlugin`, lines 75-80) has no behaviour to model.
- `Sources/JsonCodableMacroClient/main.swift` and `Package.swift` are not part of this model.
- NameConversion.Lower: uses ASCII only. Swift's `Character.isUppercase` and `lowercased()` cover all of Unicode, including letters whose lower-case form has several characters; the model does not.
- Diagnostics are left out. The macro never emits any: it returns an empty list or drops members silently.
- The rendered text of the three tests is not stated as one lemma per test. It follows from `InitializerLines` and `CodingKeysLines` applied to the fields fixed by the `*Expansion` lemmas.
- MemberSynthesis.InitializerLines: it requires that identifiers and type texts contain no line break. A type annotation written over several lines adds lines to the rendered initializer, so the one-line-per-field layout is stated only for one-line types. `CodingKeysLines` needs only one-line identifiers, which Swift identifiers always are, because the enum text never contains a type.
