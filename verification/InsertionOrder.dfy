/** Insertion order, as JavaScript's maps and sets keep it: a key stands where it was first added. */
module InsertionOrder {

  predicate Distinct(s: seq<string>) {
    forall i, j :: 0 <= i < j < |s| ==> s[i] != s[j]
  }

  /** Adding a key to a set, or setting it in a map: a key already there keeps its place. */
  function AddKey(keys: seq<string>, key: string): seq<string> {
    if key in keys then keys else keys + [key]
  }

  /** The elements of `s` in the order of their first occurrence. */
  function FirstSeen(s: seq<string>): (r: seq<string>)
    ensures forall x :: x in r <==> x in s
    ensures Distinct(r)
  {
    if s == [] then []
    else
      var front, last := FirstSeen(s[..|s| - 1]), s[|s| - 1];
      assert forall x :: x in s <==> x in s[..|s| - 1] || x == last;
      AddKey(front, last)
  }

  lemma FirstSeenAppend(s: seq<string>, x: string)
    ensures FirstSeen(s + [x]) == AddKey(FirstSeen(s), x)
  {
    assert (s + [x])[..|s|] == s;
  }

  /** Whatever stands earlier in the result also occurs earlier. */
  ghost predicate InOrderOf(r: seq<string>, s: seq<string>) {
    forall i, j, b :: 0 <= i < j < |r| && 0 <= b < |s| && s[b] == r[j] ==> r[i] in s[..b]
  }

  lemma {:induction false} FirstSeenInOrder(s: seq<string>)
    ensures InOrderOf(FirstSeen(s), s)
  {
    if s != [] {
      var n := |s| - 1;
      var front, r := FirstSeen(s[..n]), FirstSeen(s);
      FirstSeenInOrder(s[..n]);
      forall i, j, b | 0 <= i < j < |r| && 0 <= b < |s| && s[b] == r[j] ensures r[i] in s[..b] {
        assert r[i] == front[i] && front[i] in s[..n];
        if b < n {
          assert s[..n][b] == r[j] && s[..n][..b] == s[..b];
          assert r[j] in s[..n];
        }
      }
    }
  }

  lemma {:induction false} FirstSeenOfDistinct(s: seq<string>)
    requires Distinct(s)
    ensures FirstSeen(s) == s
  {
    if s != [] {
      FirstSeenOfDistinct(s[..|s| - 1]);
      assert s == s[..|s| - 1] + [s[|s| - 1]];
    }
  }

  /** Removing repetitions early does not change the order of first occurrences. */
  lemma {:induction false} FirstSeenTwice(a: seq<string>, b: seq<string>)
    ensures FirstSeen(FirstSeen(a) + b) == FirstSeen(a + b)
  {
    hide FirstSeen;
    if b == [] {
      FirstSeenOfDistinct(FirstSeen(a));
      assert FirstSeen(a) + b == FirstSeen(a) && a + b == a;
    } else {
      var front, last := b[..|b| - 1], b[|b| - 1];
      FirstSeenTwice(a, front);
      FirstSeenAppend(FirstSeen(a) + front, last);
      FirstSeenAppend(a + front, last);
      assert FirstSeen(a) + front + [last] == FirstSeen(a) + b && a + front + [last] == a + b;
    }
  }

  /** Keys that are all present already change nothing. */
  lemma {:induction false} FirstSeenAbsorbs(a: seq<string>, b: seq<string>)
    requires forall x :: x in b ==> x in a
    ensures FirstSeen(a + b) == FirstSeen(a)
  {
    hide FirstSeen;
    if b == [] {
      assert a + b == a;
    } else {
      var front, last := b[..|b| - 1], b[|b| - 1];
      assert last in b && forall x :: x in front ==> x in b;
      FirstSeenAbsorbs(a, front);
      FirstSeenAppend(a + front, last);
      assert a + front + [last] == a + b;
    }
  }
}
