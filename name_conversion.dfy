/**
 * `String.toSnakeCase` (JsonCodableMacroPlugin.swift, lines 82-104): the
 * camelCase to snake_case rewrite used for the wire names of the generated
 * `CodingKeys` enum.
 *
 * The loop is modelled as the method `ToSnakeCase`. It is proved equal to
 * `SnakeCased`, built on the recursive specification `SnakeOf`, and the
 * lemmas below state what `SnakeOf` guarantees: where every input character
 * lands, the output length, the absence of upper-case letters and
 * idempotence.
 *
 * Characters are Dafny `char`s; "upper case" means an ASCII letter `A`-`Z`
 * and lowering one maps it to `a`-`z`.
 */
module NameConversion {
  import opened Wrappers

  predicate IsUpper(c: char) {
    'A' <= c <= 'Z'
  }

  /** `Character.lowercased()` restricted to ASCII. */
  function Lower(c: char): (l: char)
    ensures !IsUpper(l)
    ensures IsUpper(c) ==> 'a' <= l <= 'z' && l as int == c as int + 32
    ensures !IsUpper(c) ==> l == c
  {
    if IsUpper(c) then (c as int + 32) as char else c
  }

  predicate NoUpper(s: string) {
    forall j :: 0 <= j < |s| ==> !IsUpper(s[j])
  }

  /** No upper-case letter, stated over the characters rather than positions. */
  lemma NoUpperOfMembers(s: string)
    requires forall c :: c in s ==> !IsUpper(c)
    ensures NoUpper(s)
  {
    forall j | 0 <= j < |s| ensures !IsUpper(s[j]) {
      assert s[j] in s;
    }
  }

  /**
   * What one pass of the loop appends for character `c`, where `separate`
   * is the value of the flag `shouldAddUnderscore` at that point.
   */
  function Piece(c: char, separate: bool): string {
    if IsUpper(c) then
      (if separate then ['_', Lower(c)] else [Lower(c)])
    else
      [c]
  }

  /**
   * The text the loop has built after reading all of `s`. The flag is false
   * only before the first character, so the last character is separated
   * exactly when it is not the first one.
   */
  function SnakeOf(s: string): string
    decreases |s|
  {
    if s == [] then [] else SnakeOf(s[..|s| - 1]) + Piece(s[|s| - 1], |s| > 1)
  }

  /** The result of `toSnakeCase`: `nil` for the empty string. */
  function SnakeCased(s: string): Option<string> {
    if s == [] then None else Some(SnakeOf(s))
  }

  /** The number of underscores `SnakeOf(s)` inserts: upper-case letters after position 0. */
  function Separators(s: string): nat
    decreases |s|
  {
    if |s| <= 1 then 0
    else Separators(s[..|s| - 1]) + (if IsUpper(s[|s| - 1]) then 1 else 0)
  }

  /** The character loop of `toSnakeCase`. */
  method ToSnakeCase(s: string) returns (r: Option<string>)
    ensures r.None? <==> s == []
    ensures r == SnakeCased(s)
  {
    if s == [] {
      return None;
    }
    var result := "";
    var shouldAddUnderscore := false;
    for i := 0 to |s|
      invariant shouldAddUnderscore == (i > 0)
      invariant result == SnakeOf(s[..i])
    {
      var character := s[i];
      assert s[..i + 1][..i] == s[..i];
      if IsUpper(character) {
        if shouldAddUnderscore {
          result := result + "_";
        }
        result := result + [Lower(character)];
        shouldAddUnderscore := true;
      } else {
        result := result + [character];
        shouldAddUnderscore := true;
      }
    }
    assert s[..|s|] == s;
    return Some(result);
  }

  /** One output character per input character, plus one underscore per separator. */
  lemma {:induction false} SnakeOfLength(s: string)
    ensures |SnakeOf(s)| == |s| + Separators(s)
    decreases |s|
  {
    if s != [] {
      SnakeOfLength(s[..|s| - 1]);
    }
  }

  /** Converting a prefix gives a prefix of the conversion: the output is produced in input order. */
  lemma {:induction false} SnakeOfPrefix(s: string, k: nat)
    requires k <= |s|
    ensures SnakeOf(s[..k]) <= SnakeOf(s)
    decreases |s|
  {
    if k < |s| {
      var init := s[..|s| - 1];
      assert init[..k] == s[..k];
      SnakeOfPrefix(init, k);
    } else {
      assert s[..k] == s;
    }
  }

  /**
   * Where input character `i` lands. It is preceded by all the characters
   * before it and by one underscore per separator up to and including
   * position `i`, appears lowered (non-upper-case characters are unchanged),
   * and is itself preceded by an underscore exactly when it is an upper-case
   * letter other than the first character.
   */
  lemma SnakeOfAt(s: string, i: nat)
    requires i < |s|
    ensures var p := i + Separators(s[..i + 1]);
      && p < |SnakeOf(s)|
      && SnakeOf(s)[p] == Lower(s[i])
      && (i > 0 && IsUpper(s[i]) ==> SnakeOf(s)[p - 1] == '_')
      && (i > 0 ==> (i - 1) + Separators(s[..i]) == if IsUpper(s[i]) then p - 2 else p - 1)
  {
    var pre := s[..i + 1];
    assert pre[..|pre| - 1] == s[..i];
    SnakeOfPrefix(s, i + 1);
    SnakeOfLength(pre);
  }

  /** The first character is never preceded by an underscore. */
  lemma NoLeadingUnderscore(s: string)
    requires s != []
    ensures SnakeOf(s)[0] == Lower(s[0])
    ensures s[0] != '_' ==> SnakeOf(s)[0] != '_'
  {
    SnakeOfAt(s, 0);
  }

  /** The output holds no upper-case letter. */
  lemma {:induction false} SnakeOfNoUpper(s: string)
    ensures NoUpper(SnakeOf(s))
    decreases |s|
  {
    if s != [] {
      SnakeOfNoUpper(s[..|s| - 1]);
    }
  }

  /** Conversion leaves a string unchanged exactly when it has no upper-case letter. */
  lemma {:induction false} SnakeOfIdentity(s: string)
    ensures SnakeOf(s) == s <==> NoUpper(s)
    decreases |s|
  {
    SnakeOfNoUpper(s);
    if s != [] && NoUpper(s) {
      var init := s[..|s| - 1];
      assert NoUpper(init) by {
        forall j | 0 <= j < |init| ensures !IsUpper(init[j]) {
          assert init[j] == s[j];
        }
      }
      SnakeOfIdentity(init);
      assert s == init + [s[|s| - 1]];
    }
  }

  /** After a non-empty prefix, text without upper-case letters is copied as it is. */
  lemma {:induction false} SnakeOfAppendNoUpper(x: string, b: string)
    requires x != [] && NoUpper(b)
    ensures SnakeOf(x + b) == SnakeOf(x) + b
    decreases |b|
  {
    if b == [] {
      assert x + b == x;
    } else {
      var init := b[..|b| - 1];
      assert NoUpper(init) by {
        forall j | 0 <= j < |init| ensures !IsUpper(init[j]) {
          assert init[j] == b[j];
        }
      }
      SnakeOfAppendNoUpper(x, init);
      assert (x + b)[..|x + b| - 1] == x + init;
      assert b == init + [b[|b| - 1]];
    }
  }

  /**
   * A camelCase boundary: an upper-case letter after a non-empty prefix
   * becomes an underscore and its lower-case form, and lower-case text after
   * it is copied.
   */
  lemma SnakeOfCamel(a: string, c: char, b: string)
    requires a != [] && IsUpper(c) && NoUpper(b)
    ensures SnakeOf(a + [c] + b) == SnakeOf(a) + ['_', Lower(c)] + b
  {
    assert (a + [c])[..|a|] == a;
    SnakeOfAppendNoUpper(a + [c], b);
  }

  /** Re-applying the conversion to its own output changes nothing. */
  lemma SnakeOfIdempotent(s: string)
    ensures SnakeOf(SnakeOf(s)) == SnakeOf(s)
  {
    SnakeOfNoUpper(s);
    SnakeOfIdentity(SnakeOf(s));
  }

  /** `toSnakeCase` fails only on the empty string, and re-applying it to a result is a no-op. */
  lemma SnakeCasedIdempotent(s: string)
    ensures SnakeCased(s).None? <==> s == []
    ensures SnakeCased(s).Some? ==> SnakeCased(SnakeCased(s).value) == SnakeCased(s)
  {
    SnakeOfIdempotent(s);
    if s != [] {
      SnakeOfLength(s);
    }
  }

  /** A character that is neither `_` nor a lower-case letter appears in the output only if it is in the input. */
  lemma {:induction false} SnakeOfKeepsOut(s: string, c: char)
    requires c !in s && c != '_' && !('a' <= c <= 'z')
    ensures c !in SnakeOf(s)
    decreases |s|
  {
    if s != [] {
      var init := s[..|s| - 1];
      assert forall j :: 0 <= j < |init| ==> init[j] == s[j];
      SnakeOfKeepsOut(init, c);
    }
  }

  /** Every character converted with the flag set, head first: the conversion of all characters after the first. */
  function Separated(s: string): string
    decreases |s|
  {
    if s == [] then [] else Piece(s[0], true) + Separated(s[1..])
  }

  lemma {:induction false} SeparatedAppend(a: string, b: string)
    ensures Separated(a + b) == Separated(a) + Separated(b)
    decreases |a|
  {
    if a == [] {
      assert a + b == b;
    } else {
      assert (a + b)[0] == a[0] && (a + b)[1..] == a[1..] + b;
      SeparatedAppend(a[1..], b);
    }
  }

  /** Characters that are not upper-case letters go through the conversion unchanged. */
  lemma {:induction false} SeparatedNoUpper(s: string)
    requires NoUpper(s)
    ensures Separated(s) == s
    decreases |s|
  {
    if s != [] {
      assert NoUpper(s[1..]) by {
        forall j | 0 <= j < |s[1..]| ensures !IsUpper(s[1..][j]) {
          assert s[1..][j] == s[j + 1];
        }
      }
      SeparatedNoUpper(s[1..]);
      assert [s[0]] + s[1..] == s;
    }
  }

  /**
   * The loop's output, read character by character: the first character
   * converted with the flag clear, every later one with the flag set.
   */
  lemma {:induction false} SnakeOfPieces(s: string)
    requires s != []
    ensures SnakeOf(s) == Piece(s[0], false) + Separated(s[1..])
    decreases |s|
  {
    if |s| > 1 {
      var init := s[..|s| - 1];
      SnakeOfPieces(init);
      assert s[1..] == init[1..] + [s[|s| - 1]];
      SeparatedAppend(init[1..], [s[|s| - 1]]);
    }
  }
}
