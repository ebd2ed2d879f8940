/** String operations of the ECMAScript library that several components share. */
module Text {

  /** The characters that `\s` matches and that `trim` removes. */
  predicate IsSpace(c: char) {
    || c == ' ' || '\t' <= c <= '\r'
    || c == '\U{00A0}' || c == '\U{1680}' || '\U{2000}' <= c <= '\U{200A}'
    || c == '\U{2028}' || c == '\U{2029}' || c == '\U{202F}' || c == '\U{205F}'
    || c == '\U{3000}' || c == '\U{FEFF}'
  }

  /** The part of `s` from its first character that is not white space. */
  function TrimStart(s: string): (r: string)
    ensures |r| <= |s|
  {
    if s != "" && IsSpace(s[0]) then TrimStart(s[1..]) else s
  }

  /** The part of `s` up to its last character that is not white space. */
  function TrimEnd(s: string): (r: string)
    ensures |r| <= |s|
  {
    if s != "" && IsSpace(s[|s| - 1]) then TrimEnd(s[..|s| - 1]) else s
  }

  function Trim(s: string): string {
    TrimEnd(TrimStart(s))
  }

  predicate Contains(s: string, part: string) {
    part <= s || (s != "" && Contains(s[1..], part))
  }

  /** The part stands somewhere in the text. */
  lemma {:induction false} ContainsIs(s: string, part: string)
    ensures Contains(s, part) <==> exists k :: 0 <= k <= |s| && part <= s[k..]
  {
    if part <= s {
      assert s[0..] == s;
    } else if s != "" {
      ContainsIs(s[1..], part);
      if k :| 0 <= k <= |s[1..]| && part <= s[1..][k..] { assert s[1..][k..] == s[k + 1..]; }
      if k :| 0 <= k <= |s| && part <= s[k..] {
        assert s[0..] == s;
        assert k > 0 && s[1..][k - 1..] == s[k..];
      }
    } else {
      assert s[0..] == s;
    }
  }

  /** White space, code point by code point. */
  lemma SpacesAre(c: char)
    ensures IsSpace(c) <==>
              || c as int in {9, 10, 11, 12, 13, 32, 160, 5760, 8232, 8233, 8239, 8287, 12288, 65279}
              || c as int in {8192, 8193, 8194, 8195, 8196, 8197, 8198, 8199, 8200, 8201, 8202}
  {}

  /** `lines.join("\n")`. */
  function Join(lines: seq<string>): string {
    if lines == [] then "" else if |lines| == 1 then lines[0]
    else lines[0] + "\n" + Join(lines[1..])
  }

  /** `text.split("\n")`. */
  function Split(text: string): (lines: seq<string>)
    ensures |lines| > 0
    ensures forall l :: l in lines ==> '\n' !in l
    ensures Join(lines) == text
  {
    if text == "" then [""]
    else
      var rest := Split(text[1..]);
      if text[0] == '\n' then [""] + rest else [[text[0]] + rest[0]] + rest[1..]
  }

  /** A character in front of the first line is one in front of the text. */
  lemma JoinBehind(c: char, lines: seq<string>)
    requires lines != []
    ensures Join([[c] + lines[0]] + lines[1..]) == [c] + Join(lines)
  {
    var longer := [[c] + lines[0]] + lines[1..];
    assert longer[1..] == lines[1..] && longer[0] == [c] + lines[0];
  }

  /** `Split` undoes `Join`: the two are inverse on non-empty lists of newline-free lines. */
  lemma {:induction false} SplitJoin(lines: seq<string>)
    requires lines != [] && forall l :: l in lines ==> '\n' !in l
    ensures Split(Join(lines)) == lines
    decreases |Join(lines)|
  {
    var l := lines[0];
    if |lines| == 1 && l == "" {
    } else if l == "" {
      assert Join(lines)[1..] == Join(lines[1..]);
      SplitJoin(lines[1..]);
    } else {
      var shorter := [l[1..]] + lines[1..];
      assert forall m :: m in shorter ==> '\n' !in m by {
        assert forall c :: c in l[1..] ==> c in l;
      }
      JoinBehind(l[0], shorter);
      assert [l[0]] + l[1..] == l && shorter[1..] == lines[1..];
      assert [[l[0]] + shorter[0]] + shorter[1..] == lines;
      SplitJoin(shorter);
      assert l[0] in l;
    }
  }

  lemma {:induction false} JoinConcat(a: seq<string>, b: seq<string>)
    requires a != [] && b != []
    ensures Join(a + b) == Join(a) + "\n" + Join(b)
  {
    if |a| > 1 {
      JoinConcat(a[1..], b);
      assert (a + b)[1..] == a[1..] + b;
      assert Join(a + b) == a[0] + "\n" + Join(a[1..] + b);
      assert Join(a) == a[0] + "\n" + Join(a[1..]);
    } else {
      assert (a + b)[1..] == b;
    }
  }

  /** `TrimStart` removes white space only, and leaves none in front. */
  lemma TrimStartShape(s: string)
    ensures var r := TrimStart(s);
            && r == s[|s| - |r|..] && (r != "" ==> !IsSpace(r[0]))
            && forall i :: 0 <= i < |s| - |r| ==> IsSpace(s[i])
  {}

  /** `TrimEnd` removes white space only, and leaves none behind. */
  lemma TrimEndShape(s: string)
    ensures var r := TrimEnd(s);
            && r == s[..|r|] && (r != "" ==> !IsSpace(r[|r| - 1]))
            && forall i :: |r| <= i < |s| ==> IsSpace(s[i])
  {}

  lemma TrimShape(s: string)
    ensures Trim(s) != "" ==> !IsSpace(Trim(s)[0]) && !IsSpace(Trim(s)[|Trim(s)| - 1])
  {
    TrimStartShape(s);
    TrimEndShape(TrimStart(s));
  }

  /** The result is determined by where the first and the last visible character are. */
  lemma TrimStartUnique(s: string, k: nat)
    requires k <= |s|
    requires forall i :: 0 <= i < k ==> IsSpace(s[i])
    requires k < |s| ==> !IsSpace(s[k])
    ensures TrimStart(s) == s[k..]
  {
    if k > 0 {
      TrimStartUnique(s[1..], k - 1);
    }
  }

  lemma TrimFixed(s: string)
    requires s != "" ==> !IsSpace(s[0]) && !IsSpace(s[|s| - 1])
    ensures Trim(s) == s
  {}

  lemma TrimOfTrimStart(s: string)
    ensures Trim(TrimStart(s)) == Trim(s)
  {}

  lemma TrimTwice(s: string)
    ensures Trim(Trim(s)) == Trim(s)
  {
    TrimShape(s);
    TrimFixed(Trim(s));
  }

  lemma TrimOfTrimEnd(s: string)
    ensures Trim(TrimEnd(s)) == Trim(s)
  {
    TrimShape(s);
    TrimStartShape(s);
    TrimEndShape(s);
    TrimEndShape(TrimStart(s));
    var r := TrimStart(s);
    var k := |s| - |r|;
    if r == "" {
      AllSpaceTrims(s);
    } else {
      EndsAlike(s, k);
    }
  }

  lemma {:induction false} AllSpaceTrims(s: string)
    requires TrimStart(s) == ""
    ensures TrimEnd(s) == ""
  {
    TrimStartShape(s);
    if s != "" {
      assert IsSpace(s[|s| - 1]);
      var front := s[..|s| - 1];
      TrimStartUnique(front, |front|);
      AllSpaceTrims(front);
    }
  }

  /** Trimming the end of a text that begins with `k` blanks and then something visible. */
  lemma {:induction false} EndsAlike(s: string, k: nat)
    requires k < |s| && !IsSpace(s[k]) && forall i :: 0 <= i < k ==> IsSpace(s[i])
    ensures TrimStart(TrimEnd(s)) == TrimEnd(s[k..])
  {
    var n := |s| - 1;
    if IsSpace(s[n]) {
      assert s[k..][..|s[k..]| - 1] == s[..n][k..];
      EndsAlike(s[..n], k);
    } else {
      TrimStartUnique(s, k);
    }
  }

  lemma TrimNewlines(s: string)
    ensures Trim("\n" + s) == Trim(s) && Trim(s + "\n") == Trim(s)
  {
    assert ("\n" + s)[1..] == s;
    TrimStartShape(s);
    var r := TrimStart(s);
    var k := |s| - |r|;
    if r == "" {
      TrimStartUnique(s + "\n", |s| + 1);
    } else {
      TrimStartUnique(s + "\n", k);
      assert (s + "\n")[k..] == r + "\n";
      assert (r + "\n")[..|r|] == r;
    }
  }

  /** White space at the front of a text with a visible end is white space at the front of its first part. */
  lemma {:induction false} TrimInside(first: string, rest: string)
    requires first != "" && !IsSpace(first[|first| - 1])
    requires rest != "" && !IsSpace(rest[|rest| - 1])
    ensures Trim(first + rest) == TrimStart(first) + rest
  {
    TrimStartShape(first);
    var s, k := first + rest, |first| - |TrimStart(first)|;
    assert k < |first|;
    assert forall i :: 0 <= i <= k ==> s[i] == first[i];
    TrimStartUnique(s, k);
    assert s[k..] == TrimStart(first) + rest;
  }
}
