/**
 * The three expansion tests of the macro (JsonCodableMacroTests.swift),
 * stated on the model: the fields extracted and the structured expansion.
 * The text each declaration renders to follows from `InitializerLines` and
 * `CodingKeysLines`.
 */
module ExpansionExamples {
  import opened Wrappers
  import opened SyntaxModel
  import opened NameConversion
  import opened FieldExtraction
  import opened MemberSynthesis

  /** `let name: Type` */
  function StoredLet(name: string, typeText: string): Member {
    VariableDecl(Let, [PatternBinding(IdentifierPattern(name), Some(typeText), None)])
  }

  /** Extraction of three stored properties. */
  lemma FieldsOfThree(a: Field, b: Field, c: Field)
    ensures Fields([StoredLet(a.name, a.typeText), StoredLet(b.name, b.typeText), StoredLet(c.name, c.typeText)])
         == [a, b, c]
  {
    var ms := [StoredLet(a.name, a.typeText), StoredLet(b.name, b.typeText), StoredLet(c.name, c.typeText)];
    assert ms[1..][1..][1..] == [];
    assert Fields(ms[1..][1..]) == [c];
  }

  /** Extraction of two stored properties. */
  lemma FieldsOfTwo(a: Field, b: Field)
    ensures Fields([StoredLet(a.name, a.typeText), StoredLet(b.name, b.typeText)]) == [a, b]
  {
    var ms := [StoredLet(a.name, a.typeText), StoredLet(b.name, b.typeText)];
    assert ms[1..][1..] == [];
  }

  /** The initializer for three fields, spelled out. */
  lemma InitializerOfThree(a: Field, b: Field, c: Field)
    ensures InitializerFor([a, b, c]) == Initializer(
      [Param(a.name, a.typeText), Param(b.name, b.typeText), Param(c.name, c.typeText)],
      [Assignment(a.name, a.name), Assignment(b.name, b.name), Assignment(c.name, c.name)])
  {
    var d := InitializerFor([a, b, c]);
    assert d.params == [Param(a.name, a.typeText), Param(b.name, b.typeText), Param(c.name, c.typeText)];
    assert d.assignments == [Assignment(a.name, a.name), Assignment(b.name, b.name), Assignment(c.name, c.name)];
  }

  /** The `CodingKeys` enum for three fields, spelled out. */
  lemma CodingKeysOfThree(a: Field, b: Field, c: Field)
    ensures CodingKeysFor([a, b, c]) == CodingKeysEnum(
      [CodingKeyCase(a.name, WireName(a.name)), CodingKeyCase(b.name, WireName(b.name)), CodingKeyCase(c.name, WireName(c.name))])
  {
    var d := CodingKeysFor([a, b, c]);
    assert d.cases == [CodingKeyCase(a.name, WireName(a.name)), CodingKeyCase(b.name, WireName(b.name)), CodingKeyCase(c.name, WireName(c.name))];
  }

  /** The initializer for two fields, spelled out. */
  lemma InitializerOfTwo(a: Field, b: Field)
    ensures InitializerFor([a, b]) == Initializer(
      [Param(a.name, a.typeText), Param(b.name, b.typeText)],
      [Assignment(a.name, a.name), Assignment(b.name, b.name)])
  {
    var d := InitializerFor([a, b]);
    assert d.params == [Param(a.name, a.typeText), Param(b.name, b.typeText)];
    assert d.assignments == [Assignment(a.name, a.name), Assignment(b.name, b.name)];
  }

  /** The `CodingKeys` enum for two fields, spelled out. */
  lemma CodingKeysOfTwo(a: Field, b: Field)
    ensures CodingKeysFor([a, b]) == CodingKeysEnum([CodingKeyCase(a.name, WireName(a.name)), CodingKeyCase(b.name, WireName(b.name))])
  {
    var d := CodingKeysFor([a, b]);
    assert d.cases == [CodingKeyCase(a.name, WireName(a.name)), CodingKeyCase(b.name, WireName(b.name))];
  }

  /** The expansion of an applicable declaration holding three stored properties, spelled out. */
  lemma ExpansionOfThree(kind: DeclKind, a: Field, b: Field, c: Field)
    requires IsApplicable(kind)
    ensures Expansion(DeclGroup(kind, [StoredLet(a.name, a.typeText), StoredLet(b.name, b.typeText), StoredLet(c.name, c.typeText)])) == [
      Initializer(
        [Param(a.name, a.typeText), Param(b.name, b.typeText), Param(c.name, c.typeText)],
        [Assignment(a.name, a.name), Assignment(b.name, b.name), Assignment(c.name, c.name)]),
      ToJsonMethod,
      FromJsonMethod,
      CodingKeysEnum([CodingKeyCase(a.name, WireName(a.name)), CodingKeyCase(b.name, WireName(b.name)), CodingKeyCase(c.name, WireName(c.name))])]
  {
    FieldsOfThree(a, b, c);
    InitializerOfThree(a, b, c);
    CodingKeysOfThree(a, b, c);
  }

  /** The expansion of an applicable declaration holding two stored properties, spelled out. */
  lemma ExpansionOfTwo(kind: DeclKind, a: Field, b: Field)
    requires IsApplicable(kind)
    ensures Expansion(DeclGroup(kind, [StoredLet(a.name, a.typeText), StoredLet(b.name, b.typeText)])) == [
      Initializer(
        [Param(a.name, a.typeText), Param(b.name, b.typeText)],
        [Assignment(a.name, a.name), Assignment(b.name, b.name)]),
      ToJsonMethod,
      FromJsonMethod,
      CodingKeysEnum([CodingKeyCase(a.name, WireName(a.name)), CodingKeyCase(b.name, WireName(b.name))])]
  {
    FieldsOfTwo(a, b);
    InitializerOfTwo(a, b);
    CodingKeysOfTwo(a, b);
  }

  /** Identifiers without capitals are their own wire names. */
  lemma PlainWireNames()
    ensures WireName("name") == "name" && WireName("age") == "age" && WireName("birthday") == "birthday"
    ensures WireName("title") == "title" && WireName("author") == "author" && WireName("books") == "books"
  {
    NoUpperOfMembers("name");
    NoUpperOfMembers("age");
    NoUpperOfMembers("birthday");
    NoUpperOfMembers("title");
    NoUpperOfMembers("author");
    NoUpperOfMembers("books");
  }

  /** `publishedYear` becomes `published_year`. */
  lemma PublishedYearWireName()
    ensures WireName("publishedYear") == "published_year"
  {
    var a, b := "published", "ear";
    assert "publishedYear" == a + ['Y'] + b;
    SnakeOfCamel(a, 'Y', b);
    SnakeOfIdentity(a);
  }

  /** The leading capitals of `HTTPCode`, one separator each. */
  lemma AcronymPrefix()
    ensures SnakeOf("HTTP") == "h_t_t_p"
  {
    assert SnakeOf("HT") == "h_t" by {
      SnakeOfCamel("H", 'T', "");
      assert "H" + ['T'] + "" == "HT";
      assert SnakeOf("H") == "h";
    }
    assert SnakeOf("HTT") == "h_t_t" by {
      SnakeOfCamel("HT", 'T', "");
      assert "HT" + ['T'] + "" == "HTT";
    }
    SnakeOfCamel("HTT", 'P', "");
    assert "HTT" + ['P'] + "" == "HTTP";
  }

  /** Runs of capitals are not treated as acronyms: `HTTPCode` becomes `h_t_t_p_code`. */
  lemma AcronymWireName()
    ensures WireName("HTTPCode") == "h_t_t_p_code"
  {
    AcronymPrefix();
    SnakeOfCamel("HTTP", 'C', "ode");
    assert "HTTP" + ['C'] + "ode" == "HTTPCode";
  }

  /**
   * Distinct identifiers can share a wire name: `aB` and `a_b` both map to
   * `a_b`, and nothing in the expansion guards against the duplicate raw
   * value this gives `CodingKeys`.
   */
  lemma WireNamesCanCollide()
    ensures "aB" != "a_b" && WireName("aB") == WireName("a_b") == "a_b"
  {
    SnakeOfPieces("aB");
    assert "aB"[1..] == "B";
  }

  /** `class Person { let name: String; let age: Int; let birthday: Date? }`: its fields and the four members the macro adds. */
  lemma PersonExpansion()
    ensures Fields([StoredLet("name", "String"), StoredLet("age", "Int"), StoredLet("birthday", "Date?")]) == [Field("name", "String"), Field("age", "Int"), Field("birthday", "Date?")]
    ensures Expansion(DeclGroup(Class, [StoredLet("name", "String"), StoredLet("age", "Int"), StoredLet("birthday", "Date?")])) == [
      Initializer(
        [Param("name", "String"), Param("age", "Int"), Param("birthday", "Date?")],
        [Assignment("name", "name"), Assignment("age", "age"), Assignment("birthday", "birthday")]),
      ToJsonMethod,
      FromJsonMethod,
      CodingKeysEnum([CodingKeyCase("name", "name"), CodingKeyCase("age", "age"), CodingKeyCase("birthday", "birthday")])]
  {
    var a, b, c := Field("name", "String"), Field("age", "Int"), Field("birthday", "Date?");
    FieldsOfThree(a, b, c);
    ExpansionOfThree(Class, a, b, c);
    PlainWireNames();
  }

  /** `struct Book { let title: String; let author: String; let publishedYear: Int }`: its fields and the four members the macro adds. */
  lemma BookExpansion()
    ensures Fields([StoredLet("title", "String"), StoredLet("author", "String"), StoredLet("publishedYear", "Int")]) == [Field("title", "String"), Field("author", "String"), Field("publishedYear", "Int")]
    ensures Expansion(DeclGroup(Struct, [StoredLet("title", "String"), StoredLet("author", "String"), StoredLet("publishedYear", "Int")])) == [
      Initializer(
        [Param("title", "String"), Param("author", "String"), Param("publishedYear", "Int")],
        [Assignment("title", "title"), Assignment("author", "author"), Assignment("publishedYear", "publishedYear")]),
      ToJsonMethod,
      FromJsonMethod,
      CodingKeysEnum([CodingKeyCase("title", "title"), CodingKeyCase("author", "author"), CodingKeyCase("publishedYear", "published_year")])]
  {
    var a, b, c := Field("title", "String"), Field("author", "String"), Field("publishedYear", "Int");
    FieldsOfThree(a, b, c);
    ExpansionOfThree(Struct, a, b, c);
    PlainWireNames();
    PublishedYearWireName();
  }

  /** `struct Library { let name: String; let books: [Book] }`: its fields and the four members the macro adds. */
  lemma LibraryExpansion()
    ensures Fields([StoredLet("name", "String"), StoredLet("books", "[Book]")]) == [Field("name", "String"), Field("books", "[Book]")]
    ensures Expansion(DeclGroup(Struct, [StoredLet("name", "String"), StoredLet("books", "[Book]")])) == [
      Initializer(
        [Param("name", "String"), Param("books", "[Book]")],
        [Assignment("name", "name"), Assignment("books", "books")]),
      ToJsonMethod,
      FromJsonMethod,
      CodingKeysEnum([CodingKeyCase("name", "name"), CodingKeyCase("books", "books")])]
  {
    var a, b := Field("name", "String"), Field("books", "[Book]");
    FieldsOfTwo(a, b);
    ExpansionOfTwo(Struct, a, b);
    PlainWireNames();
  }

  /** An enum, extension or protocol gets no members, whatever it declares. */
  lemma InapplicableKinds(members: seq<Member>)
    ensures Expansion(DeclGroup(Enum, members)) == []
    ensures Expansion(DeclGroup(Extension, members)) == []
    ensures Expansion(DeclGroup(Protocol, members)) == []
  {
  }
}
