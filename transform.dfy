/** The newline-flattening transform applied to the copied text: every carriage
    return is deleted, then every line feed becomes a single space. */
module Transform {

  /** Number of occurrences of `c` in `s`. */
  function Count(s: seq<char>, c: char): (n: nat)
    ensures n <= |s|
    ensures n == 0 <==> c !in s
  {
    if s == [] then 0 else (if s[0] == c then 1 else 0) + Count(s[1..], c)
  }

  lemma {:induction false} CountAppend(a: seq<char>, b: seq<char>, c: char)
    ensures Count(a + b, c) == Count(a, c) + Count(b, c)
  {
    if a == [] {
      assert a + b == b;
    } else {
      assert (a + b)[1..] == a[1..] + b;
      CountAppend(a[1..], b, c);
    }
  }

  /** `s` with every occurrence of the character `from` replaced by `to`, scanning
      left to right, as a string replace with a one-character pattern does. */
  function Replace(s: seq<char>, from: char, to: seq<char>): (r: seq<char>)
    ensures |to| == 0 ==> |r| == |s| - Count(s, from)
    ensures |to| == 1 ==> |r| == |s|
    ensures from !in to ==> from !in r
  {
    if s == [] then []
    else (if s[0] == from then to else [s[0]]) + Replace(s[1..], from, to)
  }

  lemma {:induction false} ReplaceAppend(a: seq<char>, b: seq<char>, from: char, to: seq<char>)
    ensures Replace(a + b, from, to) == Replace(a, from, to) + Replace(b, from, to)
  {
    if a == [] {
      assert a + b == b;
    } else {
      assert (a + b)[1..] == a[1..] + b;
      ReplaceAppend(a[1..], b, from, to);
    }
  }

  /** A character that occurs neither in the text nor in the replacement does not occur
      in the result. */
  lemma {:induction false} ReplaceKeepsOut(s: seq<char>, from: char, to: seq<char>, c: char)
    requires c !in s && c !in to
    ensures c !in Replace(s, from, to)
  {
    if s != [] {
      ReplaceKeepsOut(s[1..], from, to, c);
    }
  }

  /** Replacing a character that does not occur changes nothing. */
  lemma {:induction false} ReplaceAbsent(s: seq<char>, from: char, to: seq<char>)
    requires from !in s
    ensures Replace(s, from, to) == s
  {
    if s != [] {
      ReplaceAbsent(s[1..], from, to);
    }
  }

  /** With a replacement of at most one character, each `from` adds one `x` when the
      replacement is `x` and none otherwise, for any `x` other than `from`. */
  lemma {:induction false} ReplaceCount(s: seq<char>, from: char, to: seq<char>, x: char)
    requires x != from && |to| <= 1
    ensures Count(Replace(s, from, to), x) == Count(s, x) + (if x in to then Count(s, from) else 0)
  {
    if s != [] {
      var head := if s[0] == from then to else [s[0]];
      ReplaceCount(s[1..], from, to, x);
      CountAppend(head, Replace(s[1..], from, to), x);
      assert [s[0]][1..] == [];
      if |to| == 1 {
        assert to[1..] == [];
      }
    }
  }

  /** The transform of the copied text: carriage returns removed first, then each
      line feed replaced by one space, so "\r\n" and a bare "\n" both become one space. */
  function Flatten(s: string): (r: string)
    ensures '\r' !in r && '\n' !in r
    ensures |r| == |s| - Count(s, '\r')
  {
    var t := Replace(s, '\r', "");
    ReplaceKeepsOut(t, '\n', " ", '\r');
    Replace(t, '\n', " ")
  }

  /** The transform of a single character. */
  lemma FlattenChar(c: char)
    ensures Flatten([c]) == if c == '\r' then "" else if c == '\n' then " " else [c]
  {
  }

  /** The transform works character by character: it distributes over concatenation. */
  lemma FlattenAppend(a: string, b: string)
    ensures Flatten(a + b) == Flatten(a) + Flatten(b)
  {
    ReplaceAppend(a, b, '\r', "");
    ReplaceAppend(Replace(a, '\r', ""), Replace(b, '\r', ""), '\n', " ");
  }

  /** Order preservation: every character of `s` that is not a carriage return lands,
      translated, at its own index minus the carriage returns before it. With the length
      equation of `Flatten` this pins down the whole output. */
  lemma FlattenAt(s: string, i: nat)
    requires i < |s| && s[i] != '\r'
    ensures i - Count(s[..i], '\r') < |Flatten(s)|
    ensures Flatten(s)[i - Count(s[..i], '\r')] == if s[i] == '\n' then ' ' else s[i]
  {
    assert s == s[..i] + [s[i]] + s[i + 1..];
    FlattenAppend(s[..i] + [s[i]], s[i + 1..]);
    FlattenAppend(s[..i], [s[i]]);
    FlattenChar(s[i]);
  }

  /** The only fixed points of the transform are the texts with no newline characters. */
  lemma FlattenFixedPoint(s: string)
    ensures Flatten(s) == s <==> '\r' !in s && '\n' !in s
  {
    if '\r' !in s && '\n' !in s {
      ReplaceAbsent(s, '\r', "");
      ReplaceAbsent(s, '\n', " ");
    }
  }

  /** Applying the transform to already transformed text returns that text unchanged. */
  lemma FlattenIdempotent(s: string)
    ensures Flatten(Flatten(s)) == Flatten(s)
  {
    FlattenFixedPoint(Flatten(s));
  }

  /** Spaces in the output: those of the input plus one per line feed. Carriage returns
      and line feeds themselves are all gone. */
  lemma FlattenSpaces(s: string)
    ensures Count(Flatten(s), ' ') == Count(s, ' ') + Count(s, '\n')
    ensures Count(Flatten(s), '\r') == 0 && Count(Flatten(s), '\n') == 0
  {
    var t := Replace(s, '\r', "");
    ReplaceCount(s, '\r', "", ' ');
    ReplaceCount(s, '\r', "", '\n');
    ReplaceCount(t, '\n', " ", ' ');
    assert Count(" ", ' ') == 1 by { assert " "[1..] == []; }
  }

  /** A Windows line ending collapses to exactly one space, wherever it stands. */
  lemma FlattenCrlf(a: string, b: string)
    ensures Flatten(a + "\r\n" + b) == Flatten(a) + " " + Flatten(b)
  {
    var crlf := "\r\n";
    assert crlf == ['\r'] + ['\n'];
    FlattenChar('\r');
    FlattenChar('\n');
    FlattenAppend(['\r'], ['\n']);
    FlattenAppend(a, crlf);
    FlattenAppend(a + crlf, b);
  }

  /** A Unix line ending becomes exactly one space, wherever it stands. */
  lemma FlattenLf(a: string, b: string)
    ensures Flatten(a + "\n" + b) == Flatten(a) + " " + Flatten(b)
  {
    FlattenChar('\n');
    FlattenAppend(a, "\n");
    FlattenAppend(a + "\n", b);
  }

  /** Three newline-free pieces joined by a Windows and a Unix line ending come out
      joined by single spaces. */
  lemma FlattenJoin(a: string, b: string, c: string)
    requires '\r' !in a && '\n' !in a
    requires '\r' !in b && '\n' !in b
    requires '\r' !in c && '\n' !in c
    ensures Flatten(a + "\r\n" + b + "\n" + c) == a + " " + b + " " + c
  {
    var tail := b + "\n" + c;
    assert Flatten(tail) == b + " " + c by {
      FlattenLf(b, c);
      FlattenFixedPoint(b);
      FlattenFixedPoint(c);
    }
    assert Flatten(a + "\r\n" + tail) == a + " " + (b + " " + c) by {
      FlattenCrlf(a, tail);
      FlattenFixedPoint(a);
    }
    assert a + "\r\n" + b + "\n" + c == a + "\r\n" + tail;
  }

  /** The worked example: "Hello\r\nWorld\n!" becomes "Hello World !" (the three words
      are parameters so that the verifier does not evaluate the transform on a literal). */
  lemma FlattenExample(hello: string, world: string, bang: string)
    requires hello == "Hello" && world == "World" && bang == "!"
    ensures Flatten(hello + "\r\n" + world + "\n" + bang) == "Hello World !"
  {
    assert Flatten(hello + "\r\n" + world + "\n" + bang) == hello + " " + world + " " + bang by {
      assert '\r' !in hello && '\n' !in hello;
      assert '\r' !in world && '\n' !in world;
      assert '\r' !in bang && '\n' !in bang;
      FlattenJoin(hello, world, bang);
    }
    assert hello + " " + world + " " + bang == "Hello World !";
  }
}
