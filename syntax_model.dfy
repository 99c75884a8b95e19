/**
 * The part of Swift's syntax tree that the `@JsonCodable` member macro looks
 * at: the kind of the annotated declaration group and the declarations in
 * its member block. Everything else about a member is collapsed into
 * `OtherDecl`.
 */
module SyntaxModel {
  import opened Wrappers

  /** The declaration-group kinds a member macro can be attached to. */
  datatype DeclKind = Actor | Class | Struct | Enum | Extension | Protocol

  /** Binding patterns: `x`, `(a, b)`, `_`. */
  datatype Pattern =
    | IdentifierPattern(identifier: string)
    | TuplePattern(elements: seq<Pattern>)
    | WildcardPattern

  /**
   * One binding of a `let`/`var` declaration: its pattern, the type text of
   * its `: Type` annotation if written, and the body of its accessor block
   * (`{ ... }` of a computed property) if written.
   */
  datatype PatternBinding = PatternBinding(pattern: Pattern, typeAnnotation: Option<string>, accessorBlock: Option<string>)

  datatype Specifier = Let | Var

  /** A member of the member block: a variable declaration, or any other declaration. */
  datatype Member =
    | VariableDecl(specifier: Specifier, bindings: seq<PatternBinding>)
    | OtherDecl

  /** The declaration the macro is attached to. */
  datatype DeclGroup = DeclGroup(kind: DeclKind, members: seq<Member>)
}
