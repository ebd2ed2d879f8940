/**
 `overrideInstructionAccounts` and `augmentIdl` of `runtime/src/idl.ts`. The names that the
 tables use are those of the source; what the entries and layouts contain is left open.
 */
module IdlAugment {
  import opened Outcomes
  import opened InsertionOrder
  import opened IdlMerge

  datatype Mode = Default | LegacyInitiateDispute | LegacyCreateTask

  /** The override layouts and the entries that the runtime adds. */
  datatype Tables<+A, +T> = Tables(
    createTask: seq<A>,
    createDependentTask: seq<A>,
    initiateDispute: seq<A>,
    cancelDispute: seq<A>,
    legacyInitiateDispute: seq<A>,
    validationInstructions: seq<Entry<A, T>>,
    jobSpecInstructions: seq<Entry<A, T>>,
    validationAccounts: seq<Entry<A, T>>,
    jobSpecAccounts: seq<Entry<A, T>>,
    validationTypes: seq<Entry<A, T>>,
    jobSpecTypes: seq<Entry<A, T>>)

  datatype Idl<+A, +T> = Idl(
    instructions: Option<seq<Entry<A, T>>>,
    accounts: Option<seq<Entry<A, T>>>,
    types: Option<seq<Entry<A, T>>>,
    rest: T)

  const ADDED_INSTRUCTIONS: seq<string> := [
    "configure_task_validation", "submit_task_result", "accept_task_result", "reject_task_result",
    "auto_accept_task_result", "validate_task_result", "set_task_job_spec", "claim_task_with_job_spec"]

  /** The tables add the instructions that the source lists. */
  predicate NamesAreSource<A, T>(t: Tables<A, T>) {
    Names(t.validationInstructions + t.jobSpecInstructions) == ADDED_INSTRUCTIONS
  }

  /** `[...s.slice(0, 4), ...s.slice(5)]`. */
  function WithoutFifth<A>(s: seq<A>): seq<A> {
    if |s| <= 4 then s else s[..4] + s[5..]
  }

  /** The layout that replaces the accounts of the instruction `name`, if any. */
  function Override<A, T>(t: Tables<A, T>, mode: Mode, name: string): Option<seq<A>> {
    if mode == LegacyInitiateDispute && name == "initiate_dispute" then Some(t.legacyInitiateDispute)
    else if mode == LegacyCreateTask && name == "create_task" then Some(WithoutFifth(t.createTask))
    else if name == "create_task" then Some(t.createTask)
    else if name == "create_dependent_task" then Some(t.createDependentTask)
    else if name == "initiate_dispute" then Some(t.initiateDispute)
    else if name == "cancel_dispute" then Some(t.cancelDispute)
    else None
  }

  function OverrideEntry<A, T>(t: Tables<A, T>, mode: Mode, e: Entry<A, T>): Entry<A, T> {
    match Override(t, mode, e.name)
    case None => e
    case Some(layout) => e.(accounts := Some(layout))
  }

  /** `overrideInstructionAccounts`. */
  function OverrideAll<A, T>(t: Tables<A, T>, mode: Mode, es: seq<Entry<A, T>>): (r: seq<Entry<A, T>>)
    ensures |r| == |es| && forall i :: 0 <= i < |es| ==> r[i] == OverrideEntry(t, mode, es[i])
  {
    seq(|es|, i requires 0 <= i < |es| => OverrideEntry(t, mode, es[i]))
  }

  /** `augmentIdl`. */
  function Augment<A, T>(t: Tables<A, T>, base: Idl<A, T>, mode: Mode): Idl<A, T> {
    base.(
    instructions := Some(Merge(Merge(OverrideAll(t, mode, OrEmpty(base.instructions)), t.validationInstructions),
                               t.jobSpecInstructions)),
    accounts := Some(Merge(Merge(OrEmpty(base.accounts), t.validationAccounts), t.jobSpecAccounts)),
    types := Some(Merge(Merge(OrEmpty(base.types), t.validationTypes), t.jobSpecTypes)))
  }

  // ---------------------------------------------------------------- overriding and merging commute

  lemma OverrideNames<A, T>(t: Tables<A, T>, mode: Mode, es: seq<Entry<A, T>>)
    ensures Names(OverrideAll(t, mode, es)) == Names(es)
  {}

  /** Every mode overrides the same instructions, so only the last mode shows. */
  lemma OverrideTwice<A, T>(t: Tables<A, T>, m1: Mode, m2: Mode, es: seq<Entry<A, T>>)
    ensures OverrideAll(t, m2, OverrideAll(t, m1, es)) == OverrideAll(t, m2, es)
  {}

  /** No mode touches an added instruction. */
  lemma OverrideAdded<A, T>(t: Tables<A, T>, mode: Mode, es: seq<Entry<A, T>>)
    requires forall name :: name in Names(es) ==> name in ADDED_INSTRUCTIONS
    ensures OverrideAll(t, mode, es) == es
  {
    forall i | 0 <= i < |es| ensures OverrideEntry(t, mode, es[i]) == es[i] {
      assert Names(es)[i] in Names(es);
    }
  }

  lemma {:induction false} OverrideLast<A, T>(t: Tables<A, T>, mode: Mode, es: seq<Entry<A, T>>, name: string)
    requires name in Names(es)
    ensures name in Names(OverrideAll(t, mode, es))
    ensures LastNamed(OverrideAll(t, mode, es), name) == OverrideEntry(t, mode, LastNamed(es, name))
  {
    hide OverrideEntry;
    OverrideKeepsName(t, mode, es[|es| - 1]);
    OverrideNames(t, mode, es);
    var last := |es| - 1;
    if es[last].name != name {
      assert Names(es) == Names(es[..last]) + [es[last].name];
      OverrideLast(t, mode, es[..last], name);
      assert OverrideAll(t, mode, es)[..last] == OverrideAll(t, mode, es[..last]);
    }
  }

  lemma OverrideKeepsName<A, T>(t: Tables<A, T>, mode: Mode, e: Entry<A, T>)
    ensures OverrideEntry(t, mode, e).name == e.name
  {}

  lemma OverrideHead<A, T>(t: Tables<A, T>, mode: Mode, es: seq<Entry<A, T>>)
    requires es != []
    ensures OverrideAll(t, mode, es)[0] == OverrideEntry(t, mode, es[0])
    ensures OverrideAll(t, mode, es)[1..] == OverrideAll(t, mode, es[1..])
  {
    hide OverrideEntry;
  }

  lemma {:induction false} OverrideFirst<A, T>(t: Tables<A, T>, mode: Mode, es: seq<Entry<A, T>>, name: string)
    requires name in Names(es)
    ensures name in Names(OverrideAll(t, mode, es))
    ensures FirstNamed(OverrideAll(t, mode, es), name) == OverrideEntry(t, mode, FirstNamed(es, name))
  {
    hide OverrideEntry, OverrideAll;
    OverrideKeepsName(t, mode, es[0]);
    OverrideNames(t, mode, es);
    OverrideHead(t, mode, es);
    if es[0].name != name {
      assert Names(es) == [es[0].name] + Names(es[1..]);
      OverrideFirst(t, mode, es[1..], name);
    }
  }

  lemma OverrideMerge<A, T>(t: Tables<A, T>, mode: Mode, existing: seq<Entry<A, T>>, extras: seq<Entry<A, T>>)
    ensures OverrideAll(t, mode, Merge(existing, extras))
            == Merge(OverrideAll(t, mode, existing), OverrideAll(t, mode, extras))
  {
    hide OverrideEntry, FirstSeen, FirstNamed, LastNamed;
    OverrideNames(t, mode, existing);
    OverrideNames(t, mode, extras);
    var names := MergedNames(existing, extras);
    forall k | 0 <= k < |names|
      ensures OverrideAll(t, mode, Merge(existing, extras))[k]
              == Merge(OverrideAll(t, mode, existing), OverrideAll(t, mode, extras))[k]
    {
      assert names[k] in names;
      if names[k] in Names(existing) {
        OverrideLast(t, mode, existing, names[k]);
      } else {
        OverrideFirst(t, mode, extras, names[k]);
      }
    }
  }

  /** The added instructions of the two tables, merged in at once. */
  function Extras<A, T>(t: Tables<A, T>): seq<Entry<A, T>> {
    t.validationInstructions + t.jobSpecInstructions
  }

  lemma AugmentedInstructions<A, T>(t: Tables<A, T>, base: Idl<A, T>, mode: Mode)
    ensures Augment(t, base, mode).instructions
            == Some(Merge(OverrideAll(t, mode, OrEmpty(base.instructions)), Extras(t)))
  {
    hide OverrideAll, Merge;
    MergeInSteps(OverrideAll(t, mode, OrEmpty(base.instructions)), t.validationInstructions, t.jobSpecInstructions);
  }

  lemma MergedTwice<A, T>(es: seq<Entry<A, T>>, a: seq<Entry<A, T>>, b: seq<Entry<A, T>>)
    ensures Merge(Merge(Merge(Merge(es, a), b), a), b) == Merge(Merge(es, a), b)
  {
    hide Merge;
    MergeInSteps(es, a, b);
    MergeInSteps(Merge(es, a + b), a, b);
    MergeIdempotent(es, a + b);
  }

  /** Augmenting again with another mode is augmenting with that mode alone; so augmenting is idempotent. */
  lemma LastModeWins<A, T>(t: Tables<A, T>, base: Idl<A, T>, m1: Mode, m2: Mode)
    requires NamesAreSource(t)
    ensures Augment(t, Augment(t, base, m1), m2) == Augment(t, base, m2)
  {
    hide Merge, OverrideAll;
    var es, extras := OrEmpty(base.instructions), Extras(t);
    var once := OverrideAll(t, m1, es);
    AugmentedInstructions(t, base, m1);
    AugmentedInstructions(t, Augment(t, base, m1), m2);
    AugmentedInstructions(t, base, m2);
    OverrideMerge(t, m2, once, extras);
    OverrideTwice(t, m1, m2, es);
    OverrideAdded(t, m2, extras);
    MergeIdempotent(OverrideAll(t, m2, es), extras);
    MergedTwice(OrEmpty(base.accounts), t.validationAccounts, t.jobSpecAccounts);
    MergedTwice(OrEmpty(base.types), t.validationTypes, t.jobSpecTypes);
  }

  /**
   An instruction of the base keeps everything but its accounts, and its accounts too unless it is
   one of the four whose layout is overridden.
   */
  lemma AugmentedInstruction<A, T>(t: Tables<A, T>, base: Idl<A, T>, mode: Mode, name: string)
    requires name in Names(OrEmpty(base.instructions))
    ensures name in Names(Augment(t, base, mode).instructions.value)
    ensures var was, now := LastNamed(OrEmpty(base.instructions), name), LastNamed(Augment(t, base, mode).instructions.value, name);
            && now == was.(accounts := now.accounts)
            && (name == "create_dependent_task" ==> now.accounts == Some(t.createDependentTask))
            && (name == "cancel_dispute" ==> now.accounts == Some(t.cancelDispute))
            && (name == "create_task" ==>
                  now.accounts == Some(if mode == LegacyCreateTask then WithoutFifth(t.createTask) else t.createTask))
            && (name == "initiate_dispute" ==>
                  now.accounts == Some(if mode == LegacyInitiateDispute then t.legacyInitiateDispute else t.initiateDispute))
            && (name !in {"create_task", "create_dependent_task", "initiate_dispute", "cancel_dispute"} ==> now == was)
  {
    hide Merge, OverrideAll, FirstSeen;
    var es := OrEmpty(base.instructions);
    AugmentedInstructions(t, base, mode);
    OverrideNames(t, mode, es);
    OverrideLast(t, mode, es, name);
    LastNamedName(es, name);
    MergeKeeps(OverrideAll(t, mode, es), Extras(t), name);
  }

  /** `result` is `base` with the entries of two tables added, in order, under the names that were not there. */
  ghost predicate AddsTables<A(!new), T(!new)>(
    result: Option<seq<Entry<A, T>>>, base: seq<Entry<A, T>>, first: seq<Entry<A, T>>, second: seq<Entry<A, T>>)
  {
    && result.Some? && Distinct(Names(result.value))
    && InOrderOf(Names(result.value), Names(base) + Names(first) + Names(second))
    && forall e :: e in result.value <==> IsLast(base, e) || (e.name !in Names(base) && IsFirst(first + second, e))
  }

  lemma MergedTables<A(!new), T(!new)>(base: seq<Entry<A, T>>, first: seq<Entry<A, T>>, second: seq<Entry<A, T>>)
    ensures AddsTables(Some(Merge(Merge(base, first), second)), base, first, second)
  {
    hide Merge, FirstSeen, IsLast, IsFirst, InOrderOf;
    MergeInSteps(base, first, second);
    MergeNames(base, first + second);
    NamesConcat(first, second);
    assert Names(base) + (Names(first) + Names(second)) == Names(base) + Names(first) + Names(second);
    FirstSeenInOrder(Names(base) + Names(first) + Names(second));
    forall e: Entry<A, T>
      ensures e in Merge(base, first + second) <==> IsLast(base, e) || (e.name !in Names(base) && IsFirst(first + second, e))
    {
      MergeIs(base, first + second, e);
    }
  }

  /**
   Accounts, types and instructions are those of the base, the last one of every name, and behind them what the two
   tables add: validation first, then job specs. The instructions of the base are overridden before that.
   */
  lemma AugmentedTables<A(!new), T(!new)>(t: Tables<A, T>, base: Idl<A, T>, mode: Mode)
    ensures var result := Augment(t, base, mode);
            && AddsTables(result.accounts, OrEmpty(base.accounts), t.validationAccounts, t.jobSpecAccounts)
            && AddsTables(result.types, OrEmpty(base.types), t.validationTypes, t.jobSpecTypes)
            && AddsTables(
                 result.instructions, OverrideAll(t, mode, OrEmpty(base.instructions)), t.validationInstructions, t.jobSpecInstructions)
            && result.rest == base.rest
  {
    hide Merge, AddsTables;
    MergedTables(OrEmpty(base.accounts), t.validationAccounts, t.jobSpecAccounts);
    MergedTables(OrEmpty(base.types), t.validationTypes, t.jobSpecTypes);
    MergedTables(OverrideAll(t, mode, OrEmpty(base.instructions)), t.validationInstructions, t.jobSpecInstructions);
  }

  /** The one instruction that a legacy mode lays out differently. */
  predicate IsLegacy(mode: Mode, name: string) {
    || (mode == LegacyInitiateDispute && name == "initiate_dispute")
    || (mode == LegacyCreateTask && name == "create_task")
  }

  /**
   A mode changes nothing but the accounts of its own legacy instruction: augmenting the default
   result with it gives the same entries in the same order, with that one layout replaced.
   */
  lemma ModesDifferInOneLayout<A, T>(t: Tables<A, T>, base: Idl<A, T>, mode: Mode, k: nat)
    requires NamesAreSource(t)
    requires k < |Augment(t, base, Default).instructions.value|
    ensures var plain, legacy := Augment(t, base, Default), Augment(t, base, mode);
            && legacy.accounts == plain.accounts && legacy.types == plain.types && legacy.rest == plain.rest
            && |legacy.instructions.value| == |plain.instructions.value|
            && var p, l := plain.instructions.value[k], legacy.instructions.value[k];
            && (!IsLegacy(mode, p.name) ==> l == p)
            && (IsLegacy(mode, p.name) ==> l == p.(accounts := Override(t, mode, p.name)))
  {
    hide Merge, OverrideAll, OverrideEntry;
    var es, extras := OrEmpty(base.instructions), Extras(t);
    AugmentedInstructions(t, base, Default);
    AugmentedInstructions(t, base, mode);
    OverrideMerge(t, mode, OverrideAll(t, Default, es), extras);
    OverrideTwice(t, Default, mode, es);
    OverrideAdded(t, mode, extras);
    OverrideMerge(t, Default, es, extras);
    OverrideAdded(t, Default, extras);
    var plain := Merge(OverrideAll(t, Default, es), extras);
    assert OverrideAll(t, mode, plain) == Merge(OverrideAll(t, mode, es), extras);
    assert plain[k] == OverrideEntry(t, Default, Merge(es, extras)[k]);
    ReOverride(t, mode, Merge(es, extras)[k]);
  }

  lemma ReOverride<A, T>(t: Tables<A, T>, mode: Mode, e: Entry<A, T>)
    ensures var p := OverrideEntry(t, Default, e);
            OverrideEntry(t, mode, p)
            == if IsLegacy(mode, p.name) then p.(accounts := Override(t, mode, p.name)) else p
  {}

  /** The legacy layout of `create_task` is the current one without its fifth account. */
  lemma LegacyCreateTaskLayout<A, T>(t: Tables<A, T>)
    requires |t.createTask| >= 5
    ensures var legacy := Override(t, LegacyCreateTask, "create_task").value;
            && |legacy| == |t.createTask| - 1
            && forall i :: 0 <= i < |legacy| ==> legacy[i] == t.createTask[if i < 4 then i else i + 1]
  {}
}
