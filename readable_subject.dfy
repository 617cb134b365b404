/**
 * The text of a step's subject built from a method name: a space before
 * every upper-case ASCII letter (the regular expression `([A-Z])` replaced by
 * ` $1`), then the whole string in lower case; then the readable arguments in
 * parentheses.
 */
module ReadableSubject {

  predicate IsUpper(c: char) {
    'A' <= c <= 'Z'
  }

  /** `Character.toLowerCase` for the ASCII letters; other characters are kept. */
  function LowerChar(c: char): char {
    if IsUpper(c) then (c as int + 32) as char else c
  }

  /**
   * `replaceAll(" $1")` of the pattern `([A-Z])`: one space more per
   * upper-case letter, and every upper-case letter kept.
   */
  function SpaceBeforeUpper(s: string): (r: string)
    ensures |r| == |s| + CountUpper(s)
    ensures CountUpper(r) == CountUpper(s)
  {
    if s == [] then []
    else
      var head := if IsUpper(s[0]) then [' ', s[0]] else [s[0]];
      assert CountUpper(head) == CountUpper([s[0]]) by {
        assert head[1..] == [] || head[1..] == [s[0]];
        assert [s[0]][1..] == [];
      }
      CountUpperAppend(head, SpaceBeforeUpper(s[1..]));
      head + SpaceBeforeUpper(s[1..])
  }

  /** `toLowerCase(ROOT)`, on ASCII: each character lower-cased in its place. */
  function LowerCase(s: string): (r: string)
    ensures |r| == |s|
    ensures forall i :: 0 <= i < |s| ==> r[i] == LowerChar(s[i])
  {
    if s == [] then [] else [LowerChar(s[0])] + LowerCase(s[1..])
  }

  /**
   * `readableMethodName`: one character longer per upper-case letter, and
   * no upper-case letter left.
   */
  function ReadableMethodName(methodName: string): (r: string)
    ensures |r| == |methodName| + CountUpper(methodName)
    ensures forall i :: 0 <= i < |r| ==> !IsUpper(r[i])
  {
    LowerCase(SpaceBeforeUpper(methodName))
  }

  function CountUpper(s: string): nat {
    if s == [] then 0 else (if IsUpper(s[0]) then 1 else 0) + CountUpper(s[1..])
  }

  /**
   * `getReadableSubject(methodName, args)`, where `argsText` is what
   * `readableArguments(args)` renders: the readable name, then the
   * arguments between parentheses.
   */
  function Subject(methodName: string, argsText: string): (r: string)
    ensures |r| == |methodName| + CountUpper(methodName) + |argsText| + 2
    ensures r[..|r| - |argsText| - 2] == ReadableMethodName(methodName)
    ensures r[|r| - |argsText| - 2] == '(' && r[|r| - 1] == ')'
    ensures r[|r| - |argsText| - 1..|r| - 1] == argsText
    ensures forall i :: 0 <= i < |r| - |argsText| - 2 ==> !IsUpper(r[i])
  {
    var name := ReadableMethodName(methodName);
    var r := name + "(" + argsText + ")";
    assert r[..|name|] == name;
    assert r[|name| + 1..|r| - 1] == argsText;
    r
  }

  lemma {:induction false} SpaceBeforeUpperAppend(a: string, b: string)
    ensures SpaceBeforeUpper(a + b) == SpaceBeforeUpper(a) + SpaceBeforeUpper(b)
  {
    if a != [] {
      assert (a + b)[0] == a[0] && (a + b)[1..] == a[1..] + b;
      SpaceBeforeUpperAppend(a[1..], b);
    } else {
      assert a + b == b;
    }
  }

  lemma {:induction false} LowerCaseAppend(a: string, b: string)
    ensures LowerCase(a + b) == LowerCase(a) + LowerCase(b)
  {
    if a != [] {
      assert (a + b)[0] == a[0] && (a + b)[1..] == a[1..] + b;
      LowerCaseAppend(a[1..], b);
    } else {
      assert a + b == b;
    }
  }

  lemma {:induction false} CountUpperAppend(a: string, b: string)
    ensures CountUpper(a + b) == CountUpper(a) + CountUpper(b)
  {
    if a != [] {
      assert (a + b)[0] == a[0] && (a + b)[1..] == a[1..] + b;
      CountUpperAppend(a[1..], b);
    } else {
      assert a + b == b;
    }
  }

  /**
   * Where character `i` ends up after the spaces are inserted: after the
   * characters before it and one space for each upper-case letter among
   * them; an upper-case letter is preceded by a space, and every character
   * is kept as it is.
   */
  lemma SpaceBeforeUpperAt(s: string, i: nat)
    requires i < |s|
    ensures var r, k := SpaceBeforeUpper(s), i + CountUpper(s[..i]);
      if IsUpper(s[i]) then k + 1 < |r| && r[k] == ' ' && r[k + 1] == s[i]
      else k < |r| && r[k] == s[i]
  {
    var before, c, after := s[..i], s[i..i + 1], s[i + 1..];
    assert s == before + c + after;
    SpaceBeforeUpperAppend(before + c, after);
    SpaceBeforeUpperAppend(before, c);
    assert c == [s[i]] && c[1..] == [];
  }

  /** The readable form of a single character. */
  lemma ReadableChar(c: char)
    ensures ReadableMethodName([c]) == if IsUpper(c) then [' ', LowerChar(c)] else [c]
  {
    assert [c][1..] == [];
    if IsUpper(c) {
      assert SpaceBeforeUpper([c]) == [' ', c];
      assert [' ', c][1..] == [c];
      assert LowerCase([c]) == [LowerChar(c)];
      assert LowerCase([' ', c]) == [' '] + LowerCase([c]);
    } else {
      assert SpaceBeforeUpper([c]) == [c];
      assert LowerCase([c]) == [LowerChar(c)];
    }
  }

  /** The name is rewritten character by character: the rewrite of a concatenation is the concatenation of the rewrites. */
  lemma ReadableAppend(a: string, b: string)
    ensures ReadableMethodName(a + b) == ReadableMethodName(a) + ReadableMethodName(b)
  {
    SpaceBeforeUpperAppend(a, b);
    LowerCaseAppend(SpaceBeforeUpper(a), SpaceBeforeUpper(b));
  }

  /**
   * Where character `i` of the method name ends up: after the characters
   * before it and one space for each upper-case letter among them; an
   * upper-case letter becomes a space followed by its lower-case form, any
   * other character stays as it is.
   */
  lemma ReadableAt(methodName: string, i: nat)
    requires i < |methodName|
    ensures var r, k := ReadableMethodName(methodName), i + CountUpper(methodName[..i]);
      if IsUpper(methodName[i]) then k + 1 < |r| && r[k] == ' ' && r[k + 1] == LowerChar(methodName[i])
      else k < |r| && r[k] == methodName[i]
  {
    var before, c, after := methodName[..i], methodName[i..i + 1], methodName[i + 1..];
    assert methodName == before + c + after;
    ReadableAppend(before + c, after);
    ReadableAppend(before, c);
    assert c == [methodName[i]];
    ReadableChar(methodName[i]);
  }

  /** A name with no upper-case letter is its own readable name. */
  lemma {:induction false} ReadableOfLowerIsItself(s: string)
    requires forall i :: 0 <= i < |s| ==> !IsUpper(s[i])
    ensures ReadableMethodName(s) == s
  {
    if s != [] {
      var head, tail := s[..1], s[1..];
      assert s == head + tail;
      ReadableAppend(head, tail);
      ReadableOfLowerIsItself(tail);
    }
  }

  /** Making a readable name readable again changes nothing. */
  lemma ReadableIdempotent(methodName: string)
    ensures ReadableMethodName(ReadableMethodName(methodName)) == ReadableMethodName(methodName)
  {
    ReadableOfLowerIsItself(ReadableMethodName(methodName));
  }

  /**
   * A camel-case name of two words, such as `shouldHave`, becomes the two
   * words in lower case separated by one space.
   */
  lemma TwoWords(first: string, c: char, rest: string)
    requires IsUpper(c)
    requires forall i :: 0 <= i < |first| ==> !IsUpper(first[i])
    requires forall i :: 0 <= i < |rest| ==> !IsUpper(rest[i])
    ensures ReadableMethodName(first + [c] + rest) == first + " " + [LowerChar(c)] + rest
  {
    ReadableAppend(first + [c], rest);
    ReadableAppend(first, [c]);
    ReadableChar(c);
    ReadableOfLowerIsItself(first);
    ReadableOfLowerIsItself(rest);
  }

  /** The example of the method `shouldHave`. */
  lemma ShouldHave()
    ensures ReadableMethodName("shouldHave") == "should have"
  {
    var first, rest := "should", "ave";
    forall i | 0 <= i < |first| ensures !IsUpper(first[i]) { }
    forall i | 0 <= i < |rest| ensures !IsUpper(rest[i]) { }
    TwoWords(first, 'H', rest);
    assert first + ['H'] + rest == "shouldHave";
    assert first + " " + [LowerChar('H')] + rest == "should have";
  }
}
