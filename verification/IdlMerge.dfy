/** `mergeIdlEntries` of `runtime/src/idl.ts`. */
module IdlMerge {
  import opened Outcomes
  import opened InsertionOrder

  /** An IDL entry: its name, its account layout if it has one, and everything else in it. */
  datatype Entry<+A, +T> = Entry(name: string, accounts: Option<seq<A>>, rest: T)

  function Names<A, T>(entries: seq<Entry<A, T>>): (names: seq<string>)
    ensures |names| == |entries| && forall i :: 0 <= i < |entries| ==> names[i] == entries[i].name
  {
    seq(|entries|, i requires 0 <= i < |entries| => entries[i].name)
  }

  function FirstNamed<A, T>(entries: seq<Entry<A, T>>, name: string): Entry<A, T>
    requires name in Names(entries)
  {
    if entries[0].name == name then entries[0]
    else
      assert forall i :: 0 < i < |entries| ==> Names(entries)[i] == Names(entries[1..])[i - 1];
      FirstNamed(entries[1..], name)
  }

  function LastNamed<A, T>(entries: seq<Entry<A, T>>, name: string): Entry<A, T>
    requires name in Names(entries)
  {
    var last := |entries| - 1;
    if entries[last].name == name then entries[last]
    else
      assert forall i :: 0 <= i < last ==> Names(entries)[i] == Names(entries[..last])[i];
      LastNamed(entries[..last], name)
  }

  /** The entry kept for a name: the last existing one, or else the first extra one. */
  function Kept<A, T>(existing: seq<Entry<A, T>>, extras: seq<Entry<A, T>>, name: string): Entry<A, T>
    requires name in Names(existing) || name in Names(extras)
  {
    if name in Names(existing) then LastNamed(existing, name) else FirstNamed(extras, name)
  }

  function MergedNames<A, T>(existing: seq<Entry<A, T>>, extras: seq<Entry<A, T>>): seq<string> {
    FirstSeen(Names(existing) + Names(extras))
  }

  /** One entry per name, in the order in which the names first occur. */
  function Merge<A, T>(existing: seq<Entry<A, T>>, extras: seq<Entry<A, T>>): (merged: seq<Entry<A, T>>) {
    var names := MergedNames(existing, extras);
    seq(|names|, k requires 0 <= k < |names| =>
      assert names[k] in names; Kept(existing, extras, names[k]))
  }

  /** `entries ?? []`. */
  function OrEmpty<A, T>(entries: Option<seq<Entry<A, T>>>): seq<Entry<A, T>> {
    match entries
    case None => []
    case Some(es) => es
  }

  /** `mergeIdlEntries`; the `Map` is its keys in insertion order and its values. */
  method MergeIdlEntries<A, T>(existingOrNone: Option<seq<Entry<A, T>>>, extras: seq<Entry<A, T>>)
    returns (merged: seq<Entry<A, T>>)
    ensures merged == Merge(OrEmpty(existingOrNone), extras)
  {
    var existing := OrEmpty(existingOrNone);
    var keys: seq<string>, values: map<string, Entry<A, T>> := [], map[];
    for i := 0 to |existing|
      invariant Holds(keys, values, existing[..i], [])
    {
      SetExisting(keys, values, existing, i);
      keys := AddKey(keys, existing[i].name);
      values := values[existing[i].name := existing[i]];
    }
    assert existing[..|existing|] == existing && extras[..0] == [];
    for i := 0 to |extras|
      invariant Holds(keys, values, existing, extras[..i])
    {
      SetExtra(keys, values, existing, extras, i);
      if extras[i].name !in values {
        keys := AddKey(keys, extras[i].name);
        values := values[extras[i].name := extras[i]];
      }
    }
    assert extras[..|extras|] == extras;
    merged := seq(|keys|, k requires 0 <= k < |keys| && keys[k] in values => values[keys[k]]);
  }

  /** The map after the given entries: keys in order of first occurrence, each with the entry kept for it. */
  ghost predicate Holds<A, T>(
    keys: seq<string>, values: map<string, Entry<A, T>>, existing: seq<Entry<A, T>>, extras: seq<Entry<A, T>>)
  {
    && keys == MergedNames(existing, extras)
    && (forall name :: name in values <==> name in keys)
    && forall name :: name in values ==> values[name] == Kept(existing, extras, name)
  }

  lemma NamesConcat<A, T>(a: seq<Entry<A, T>>, b: seq<Entry<A, T>>)
    ensures Names(a + b) == Names(a) + Names(b)
  {}

  lemma LastNamedAppend<A, T>(entries: seq<Entry<A, T>>, e: Entry<A, T>, name: string)
    requires name in Names(entries) || name == e.name
    ensures name in Names(entries + [e])
    ensures LastNamed(entries + [e], name) == if name == e.name then e else LastNamed(entries, name)
  {
    NamesConcat(entries, [e]);
    assert Names([e]) == [e.name];
    assert (entries + [e])[..|entries|] == entries;
  }

  lemma {:induction false} FirstNamedConcat<A, T>(a: seq<Entry<A, T>>, b: seq<Entry<A, T>>, name: string)
    requires name in Names(a) || name in Names(b)
    ensures name in Names(a + b)
    ensures FirstNamed(a + b, name) == if name in Names(a) then FirstNamed(a, name) else FirstNamed(b, name)
  {
    NamesConcat(a, b);
    if a == [] {
      assert a + b == b;
    } else if a[0].name != name {
      assert Names(a) == [a[0].name] + Names(a[1..]);
      FirstNamedConcat(a[1..], b, name);
      assert (a + b)[1..] == a[1..] + b;
    }
  }

  lemma SetExisting<A, T>(
    keys: seq<string>, values: map<string, Entry<A, T>>, existing: seq<Entry<A, T>>, i: nat)
    requires i < |existing| && Holds(keys, values, existing[..i], [])
    ensures Holds(AddKey(keys, existing[i].name), values[existing[i].name := existing[i]], existing[..i + 1], [])
  {
    hide FirstSeen, FirstNamed, LastNamed;
    var before, e := existing[..i], existing[i];
    assert existing[..i + 1] == before + [e];
    NamesConcat(before, [e]);
    assert Names<A, T>([]) == [] && Names([e]) == [e.name];
    FirstSeenAppend(Names(before), e.name);
    assert Names(before) + [] == Names(before) && Names(before + [e]) + [] == Names(before) + [e.name];
    var values' := values[e.name := e];
    forall name | name in values' ensures values'[name] == Kept(before + [e], [], name) {
      LastNamedAppend(before, e, name);
    }
  }

  lemma SetExtra<A, T>(
    keys: seq<string>, values: map<string, Entry<A, T>>, existing: seq<Entry<A, T>>, extras: seq<Entry<A, T>>, i: nat)
    requires i < |extras| && Holds(keys, values, existing, extras[..i])
    ensures extras[i].name in values ==> Holds(keys, values, existing, extras[..i + 1])
    ensures extras[i].name !in values ==>
              Holds(AddKey(keys, extras[i].name), values[extras[i].name := extras[i]], existing, extras[..i + 1])
  {
    hide FirstSeen, LastNamed;
    var before, e := extras[..i], extras[i];
    assert extras[..i + 1] == before + [e];
    NamesConcat(before, [e]);
    assert Names([e]) == [e.name];
    FirstSeenAppend(Names(existing) + Names(before), e.name);
    assert Names(existing) + Names(before) + [e.name] == Names(existing) + Names(before + [e]);
    forall name | name in Names(existing) || name in Names(before) || name == e.name
      ensures Kept(existing, before + [e], name)
              == if name in Names(existing) || name in Names(before) then Kept(existing, before, name) else e
    {
      if name !in Names(existing) { FirstNamedConcat(before, [e], name); }
    }
  }

  // ---------------------------------------------------------------- laws

  lemma MergeNames<A, T>(existing: seq<Entry<A, T>>, extras: seq<Entry<A, T>>)
    ensures Names(Merge(existing, extras)) == MergedNames(existing, extras)
  {
    var names := MergedNames(existing, extras);
    forall k | 0 <= k < |names| ensures Merge(existing, extras)[k].name == names[k] {
      assert names[k] in names;
      KeptName(existing, extras, names[k]);
    }
  }

  lemma {:induction false} LastNamedName<A, T>(entries: seq<Entry<A, T>>, name: string)
    requires name in Names(entries)
    ensures LastNamed(entries, name).name == name && LastNamed(entries, name) in entries
  {
    var last := |entries| - 1;
    if entries[last].name != name {
      assert Names(entries) == Names(entries[..last]) + [entries[last].name];
      LastNamedName(entries[..last], name);
    }
  }

  lemma {:induction false} FirstNamedName<A, T>(entries: seq<Entry<A, T>>, name: string)
    requires name in Names(entries)
    ensures FirstNamed(entries, name).name == name && FirstNamed(entries, name) in entries
  {
    if entries[0].name != name {
      assert Names(entries) == [entries[0].name] + Names(entries[1..]);
      FirstNamedName(entries[1..], name);
    }
  }

  lemma KeptName<A, T>(existing: seq<Entry<A, T>>, extras: seq<Entry<A, T>>, name: string)
    requires name in Names(existing) || name in Names(extras)
    ensures Kept(existing, extras, name).name == name
  {
    if name in Names(existing) { LastNamedName(existing, name); } else { FirstNamedName(extras, name); }
  }

  /** The last entry of its name. */
  ghost predicate IsLast<A(!new), T(!new)>(entries: seq<Entry<A, T>>, e: Entry<A, T>) {
    exists k :: 0 <= k < |entries| && entries[k] == e && forall m :: k < m < |entries| ==> entries[m].name != e.name
  }

  /** The first entry of its name. */
  ghost predicate IsFirst<A(!new), T(!new)>(entries: seq<Entry<A, T>>, e: Entry<A, T>) {
    exists k :: 0 <= k < |entries| && entries[k] == e && forall m :: 0 <= m < k ==> entries[m].name != e.name
  }

  lemma IsLastBefore<A(!new), T(!new)>(entries: seq<Entry<A, T>>, e: Entry<A, T>)
    requires entries != [] && entries[|entries| - 1].name != e.name
    ensures IsLast(entries, e) <==> IsLast(entries[..|entries| - 1], e)
  {
    var front := entries[..|entries| - 1];
    assert forall m :: 0 <= m < |front| ==> entries[m] == front[m];
  }

  lemma {:induction false} LastNamedIs<A(!new), T(!new)>(entries: seq<Entry<A, T>>, e: Entry<A, T>)
    ensures IsLast(entries, e) <==> e.name in Names(entries) && LastNamed(entries, e.name) == e
  {
    if entries != [] {
      var n := |entries| - 1;
      assert Names(entries) == Names(entries[..n]) + [entries[n].name];
      if entries[n].name != e.name {
        IsLastBefore(entries, e);
        LastNamedIs(entries[..n], e);
      }
    }
  }

  lemma IsFirstBehind<A(!new), T(!new)>(entries: seq<Entry<A, T>>, e: Entry<A, T>)
    requires entries != [] && entries[0].name != e.name
    ensures IsFirst(entries, e) <==> IsFirst(entries[1..], e)
  {
    var rest := entries[1..];
    assert forall m :: 0 < m < |entries| ==> entries[m] == rest[m - 1];
    assert forall m :: 0 <= m < |rest| ==> rest[m] == entries[m + 1];
    if IsFirst(rest, e) {
      var k :| 0 <= k < |rest| && rest[k] == e && forall m :: 0 <= m < k ==> rest[m].name != e.name;
      assert entries[k + 1] == e;
    }
  }

  lemma {:induction false} FirstNamedIs<A(!new), T(!new)>(entries: seq<Entry<A, T>>, e: Entry<A, T>)
    ensures IsFirst(entries, e) <==> e.name in Names(entries) && FirstNamed(entries, e.name) == e
  {
    if entries != [] {
      assert Names(entries) == [entries[0].name] + Names(entries[1..]);
      if entries[0].name != e.name {
        IsFirstBehind(entries, e);
        FirstNamedIs(entries[1..], e);
      }
    }
  }

  /** The entries of a merge: the last existing ones of their names, and the first extra ones of all other names. */
  lemma MergeIs<A(!new), T(!new)>(existing: seq<Entry<A, T>>, extras: seq<Entry<A, T>>, e: Entry<A, T>)
    ensures e in Merge(existing, extras) <==> IsLast(existing, e) || (e.name !in Names(existing) && IsFirst(extras, e))
  {
    hide FirstSeen, FirstNamed, LastNamed, IsLast, IsFirst;
    var names := MergedNames(existing, extras);
    LastNamedIs(existing, e);
    FirstNamedIs(extras, e);
    if e in Merge(existing, extras) {
      var k :| 0 <= k < |names| && Merge(existing, extras)[k] == e;
      assert names[k] in names;
      KeptName(existing, extras, names[k]);
    }
    if e.name in Names(existing) || e.name in Names(extras) {
      assert e.name in names;
      var k :| 0 <= k < |names| && names[k] == e.name;
      assert Merge(existing, extras)[k] == Kept(existing, extras, e.name);
    }
  }

  /** What a merge holds under a name: the last existing entry, never an extra that an existing one shadows. */
  lemma MergeKeeps<A, T>(existing: seq<Entry<A, T>>, extras: seq<Entry<A, T>>, name: string)
    requires name in Names(existing) || name in Names(extras)
    ensures name in Names(Merge(existing, extras))
    ensures LastNamed(Merge(existing, extras), name) == Kept(existing, extras, name)
  {
    MergeNames(existing, extras);
    var names := MergedNames(existing, extras);
    assert name in Names(existing) + Names(extras) && name in names;
    var k :| 0 <= k < |names| && names[k] == name;
    LastOfDistinct(Merge(existing, extras), k);
  }

  lemma {:induction false} LastOfDistinct<A, T>(entries: seq<Entry<A, T>>, k: nat)
    requires Distinct(Names(entries)) && k < |entries|
    ensures Names(entries)[k] in Names(entries) && LastNamed(entries, entries[k].name) == entries[k]
  {
    var last := |entries| - 1;
    assert Names(entries)[k] in Names(entries);
    if k < last {
      assert Names(entries) == Names(entries[..last]) + [entries[last].name];
      LastOfDistinct(entries[..last], k);
    }
  }

  lemma SameMerge<A, T>(a: seq<Entry<A, T>>, x: seq<Entry<A, T>>, b: seq<Entry<A, T>>, y: seq<Entry<A, T>>)
    requires MergedNames(a, x) == MergedNames(b, y)
    requires forall name :: name in MergedNames(a, x) ==> Kept(a, x, name) == Kept(b, y, name)
    ensures Merge(a, x) == Merge(b, y)
  {}

  /** Merging in two steps is merging the concatenated extras, whatever names repeat. */
  lemma MergeInSteps<A, T>(existing: seq<Entry<A, T>>, a: seq<Entry<A, T>>, b: seq<Entry<A, T>>)
    ensures Merge(Merge(existing, a), b) == Merge(existing, a + b)
  {
    var once := Merge(existing, a);
    MergeNames(existing, a);
    NamesConcat(a, b);
    FirstSeenTwice(Names(existing) + Names(a), Names(b));
    assert Names(existing) + Names(a) + Names(b) == Names(existing) + Names(a + b);
    forall name | name in MergedNames(once, b)
      ensures Kept(once, b, name) == Kept(existing, a + b, name)
    {
      if name in Names(existing) || name in Names(a) {
        MergeKeeps(existing, a, name);
      }
      if name !in Names(existing) {
        FirstNamedConcat(a, b, name);
      }
    }
    SameMerge(once, b, existing, a + b);
  }

  /** Merging the same extras again changes nothing. */
  lemma MergeIdempotent<A, T>(existing: seq<Entry<A, T>>, extras: seq<Entry<A, T>>)
    ensures Merge(Merge(existing, extras), extras) == Merge(existing, extras)
  {
    MergeInSteps(existing, extras, extras);
    NamesConcat(extras, extras);
    FirstSeenAbsorbs(Names(existing) + Names(extras), Names(extras));
    assert Names(existing) + Names(extras) + Names(extras) == Names(existing) + Names(extras + extras);
    forall name | name in MergedNames(existing, extras)
      ensures Kept(existing, extras + extras, name) == Kept(existing, extras, name)
    {
      if name !in Names(existing) { FirstNamedConcat(extras, extras, name); }
    }
    SameMerge(existing, extras + extras, existing, extras);
  }
}
