/**
 * The first half of `JsonCodableMacro.expansion` (JsonCodableMacroPlugin.swift,
 * lines 8-22): the guard on the declaration kind and the `compactMap` that
 * turns the member block into the ordered list of (identifier, type) fields.
 */
module FieldExtraction {
  import opened Wrappers
  import opened SyntaxModel

  /** A field: the identifier of its pattern and the text of its type annotation. */
  datatype Field = Field(name: string, typeText: string)

  /** The guard at the top of `expansion`: only actors, classes and structs get members. */
  predicate IsApplicable(kind: DeclKind) {
    kind == Actor || kind == Class || kind == Struct
  }

  /**
   * The closure of the `compactMap`: a variable declaration whose FIRST
   * binding has an identifier pattern and a type annotation. Later bindings,
   * the specifier and any accessor block are not looked at.
   */
  function FieldOf(m: Member): (r: Option<Field>)
    ensures r.Some? <==>
      && m.VariableDecl?
      && |m.bindings| > 0
      && m.bindings[0].pattern.IdentifierPattern?
      && m.bindings[0].typeAnnotation.Some?
    ensures r.Some? ==>
      r.value == Field(m.bindings[0].pattern.identifier, m.bindings[0].typeAnnotation.value)
  {
    match m
    case OtherDecl => None
    case VariableDecl(_, bindings) =>
      if |bindings| == 0 then None
      else
        match bindings[0].pattern
        case IdentifierPattern(identifier) =>
          (match bindings[0].typeAnnotation
           case Some(t) => Some(Field(identifier, t))
           case None => None)
        case _ => None
  }

  predicate IsField(m: Member) {
    FieldOf(m).Some?
  }

  /** `compactMap(FieldOf)` over the member block. */
  function Fields(members: seq<Member>): (fields: seq<Field>)
    ensures |fields| <= |members|
    decreases |members|
  {
    if members == [] then []
    else
      match FieldOf(members[0])
      case Some(f) => [f] + Fields(members[1..])
      case None => Fields(members[1..])
  }

  /** The number of members the `compactMap` keeps. */
  function CountFields(members: seq<Member>): nat
    decreases |members|
  {
    if members == [] then 0
    else (if IsField(members[0]) then 1 else 0) + CountFields(members[1..])
  }

  /** Extraction distributes over concatenation of member blocks. */
  lemma {:induction false} FieldsAppend(a: seq<Member>, b: seq<Member>)
    ensures Fields(a + b) == Fields(a) + Fields(b)
    decreases |a|
  {
    if a != [] {
      assert (a + b)[0] == a[0];
      assert (a + b)[1..] == a[1..] + b;
      FieldsAppend(a[1..], b);
    } else {
      assert a + b == b;
    }
  }

  /** Exactly one field per qualifying member. */
  lemma {:induction false} FieldsCount(members: seq<Member>)
    ensures |Fields(members)| == CountFields(members)
    decreases |members|
  {
    if members != [] {
      FieldsCount(members[1..]);
    }
  }

  /** The positions, from `from` on, of the members the `compactMap` keeps. */
  function PositionsFrom(members: seq<Member>, from: nat): seq<nat>
    requires from <= |members|
    decreases |members| - from
  {
    if from == |members| then []
    else (if IsField(members[from]) then [from] else []) + PositionsFrom(members, from + 1)
  }

  /** The positions of the members the `compactMap` keeps. */
  function Positions(members: seq<Member>): seq<nat> {
    PositionsFrom(members, 0)
  }

  /** The kept positions hold, one for one, the fields extracted from that suffix. */
  lemma {:induction false} PositionsMatchFields(members: seq<Member>, from: nat)
    requires from <= |members|
    ensures var pos := PositionsFrom(members, from);
      && |pos| == |Fields(members[from..])|
      && forall k :: 0 <= k < |pos| ==>
           from <= pos[k] < |members| && FieldOf(members[pos[k]]) == Some(Fields(members[from..])[k])
    decreases |members| - from
  {
    if from < |members| {
      PositionsMatchFields(members, from + 1);
      assert members[from..][0] == members[from];
      assert members[from..][1..] == members[from + 1..];
    }
  }

  /** The kept positions are strictly increasing: field order is member order. */
  lemma {:induction false} PositionsIncreasing(members: seq<Member>, from: nat)
    requires from <= |members|
    ensures var pos := PositionsFrom(members, from);
      forall k, l :: 0 <= k < l < |pos| ==> from <= pos[k] < pos[l]
    decreases |members| - from
  {
    if from < |members| {
      PositionsIncreasing(members, from + 1);
      PositionsMatchFields(members, from + 1);
    }
  }

  /** Every qualifying member's position is kept. */
  lemma {:induction false} PositionsComplete(members: seq<Member>, from: nat)
    requires from <= |members|
    ensures forall i :: from <= i < |members| && IsField(members[i]) ==> i in PositionsFrom(members, from)
    decreases |members| - from
  {
    if from < |members| {
      PositionsComplete(members, from + 1);
    }
  }

  /**
   * The fields are exactly the qualifying members, in member order: the
   * positions of the qualifying members, a strictly increasing list that
   * misses none of them, give `Fields(members)` one for one.
   */
  lemma FieldsInOrder(members: seq<Member>)
    ensures var pos := Positions(members);
      && |pos| == |Fields(members)|
      && (forall k :: 0 <= k < |pos| ==> pos[k] < |members| && FieldOf(members[pos[k]]) == Some(Fields(members)[k]))
      && (forall k, l :: 0 <= k < l < |pos| ==> pos[k] < pos[l])
      && (forall i :: 0 <= i < |members| && IsField(members[i]) ==> i in pos)
  {
    PositionsMatchFields(members, 0);
    PositionsIncreasing(members, 0);
    PositionsComplete(members, 0);
    assert members[0..] == members;
  }

  /** A member that does not qualify is dropped wherever it stands. */
  lemma DroppedMember(a: seq<Member>, m: Member, b: seq<Member>)
    requires !IsField(m)
    ensures Fields(a + [m] + b) == Fields(a + b)
  {
    FieldsAppend(a + [m], b);
    FieldsAppend(a, [m]);
    FieldsAppend(a, b);
  }

  /** `let a: Int, b: Int` contributes `a` only: later bindings are never looked at. */
  lemma OnlyFirstBinding(first: PatternBinding, rest: seq<PatternBinding>, specifier: Specifier)
    ensures FieldOf(VariableDecl(specifier, [first] + rest)) == FieldOf(VariableDecl(specifier, [first]))
  {
  }

  /** A computed property with a type annotation is kept like a stored one. */
  lemma ComputedPropertyKept(name: string, t: string, body: string, specifier: Specifier)
    ensures FieldOf(VariableDecl(specifier, [PatternBinding(IdentifierPattern(name), Some(t), Some(body))]))
         == Some(Field(name, t))
  {
  }
}
