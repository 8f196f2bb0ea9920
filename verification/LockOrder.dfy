/**
 * The lock order of apps/api-e2e/src/plugin/lock-order.ts and what it is for: transactions that
 * take their locks in that order never deadlock, the locks nobody wrote included. Lock modes and
 * their conflicts are those of section 13.3.2 of the PostgreSQL documentation.
 */
module LockOrder {
  import opened Prelude

  datatype Stage = HouseholdRow | PluginRow | GrantRow | AdvisoryKey | UnitRow

  /** CLAIMED_LOCK_ORDER. */
  const CLAIMED_LOCK_ORDER: seq<Stage> := [HouseholdRow, PluginRow, GrantRow, AdvisoryKey, UnitRow]

  function Name(s: Stage): string {
    match s
    case HouseholdRow => "household row"
    case PluginRow => "plugin row"
    case GrantRow => "grant row"
    case AdvisoryKey => "advisory key"
    case UnitRow => "unit row"
  }

  function Rank(s: Stage): (r: nat)
    ensures r < |CLAIMED_LOCK_ORDER| && CLAIMED_LOCK_ORDER[r] == s
  {
    match s
    case HouseholdRow => 0
    case PluginRow => 1
    case GrantRow => 2
    case AdvisoryKey => 3
    case UnitRow => 4
  }

  datatype ClaimError = NoStages | Duplicated | NotAStage(name: string)

  predicate Distinct(names: seq<string>) {
    forall i, j :: 0 <= i < j < |names| ==> names[i] != names[j]
  }

  predicate IsStage(name: string) {
    exists s <- CLAIMED_LOCK_ORDER :: Name(s) == name
  }

  function Filter(stages: seq<Stage>, names: seq<string>): seq<Stage> {
    if stages == [] then []
    else (if Name(stages[0]) in names then [stages[0]] else []) + Filter(stages[1..], names)
  }

  /** The first name that is no stage. */
  function FirstUnknown(names: seq<string>): (unknown: Option<string>)
    ensures unknown.None? <==> forall name <- names :: IsStage(name)
    ensures unknown.Some? ==>
              exists i :: 0 <= i < |names| && names[i] == unknown.value && !IsStage(names[i]) &&
                          forall j :: 0 <= j < i ==> IsStage(names[j])
  {
    if names == [] then None
    else if !IsStage(names[0]) then Some(names[0])
    else FirstUnknown(names[1..])
  }

  /** `stagesNamed`: the named stages in the CLAIMED order, or why the claim means nothing. */
  function StagesNamed(names: seq<string>): Result<seq<Stage>, ClaimError> {
    if names == [] then Err(NoStages)
    else if !Distinct(names) then Err(Duplicated)
    else if FirstUnknown(names).Some? then Err(NotAStage(FirstUnknown(names).value))
    else Ok(Filter(CLAIMED_LOCK_ORDER, names))
  }

  predicate Ascending(stages: seq<Stage>) {
    forall i, j :: 0 <= i < j < |stages| ==> Rank(stages[i]) < Rank(stages[j])
  }

  lemma {:induction false} FilterKeepsOrder(from: nat, names: seq<string>)
    requires from <= |CLAIMED_LOCK_ORDER|
    ensures var stages := Filter(CLAIMED_LOCK_ORDER[from..], names);
            && Ascending(stages)
            && (forall s :: s in stages <==> Name(s) in names && Rank(s) >= from)
    decreases |CLAIMED_LOCK_ORDER| - from
  {
    if from < |CLAIMED_LOCK_ORDER| {
      FilterKeepsOrder(from + 1, names);
      assert CLAIMED_LOCK_ORDER[from..][1..] == CLAIMED_LOCK_ORDER[from + 1..];
      assert Rank(CLAIMED_LOCK_ORDER[from]) == from;
    }
  }

  function NamesOf(stages: seq<Stage>): (names: seq<string>)
    ensures |names| == |stages| && forall i :: 0 <= i < |stages| ==> names[i] == Name(stages[i])
  {
    seq(|stages|, i requires 0 <= i < |stages| => Name(stages[i]))
  }

  lemma {:induction false} DistinctCounts(names: seq<string>)
    requires Distinct(names)
    ensures |(set name <- names)| == |names|
  {
    if names != [] {
      var rest := names[..|names| - 1];
      DistinctCounts(rest);
      assert (set name <- names) == (set name <- rest) + {names[|names| - 1]};
    }
  }

  lemma AscendingNamesOnce(stages: seq<Stage>)
    requires Ascending(stages)
    ensures Distinct(NamesOf(stages))
  {
    forall i, j | 0 <= i < j < |stages| ensures NamesOf(stages)[i] != NamesOf(stages)[j] {
      assert Rank(stages[i]) != Rank(stages[j]);
    }
  }

  lemma SameStagesSameCount(stages: seq<Stage>, names: seq<string>)
    requires Ascending(stages) && Distinct(names) && forall name <- names :: IsStage(name)
    requires forall s :: s in stages <==> Name(s) in names
    ensures |stages| == |names|
  {
    var back := NamesOf(stages);
    forall name <- names ensures name in back {
      var s :| s in CLAIMED_LOCK_ORDER && Name(s) == name;
      var i :| 0 <= i < |stages| && stages[i] == s;
      assert back[i] == name;
    }
    forall name <- back ensures name in names {
      var i :| 0 <= i < |back| && back[i] == name;
      assert stages[i] in stages;
    }
    assert (set name <- back) == (set name <- names);
    AscendingNamesOnce(stages);
    DistinctCounts(back);
    DistinctCounts(names);
  }

  /**
   * A claim is accepted exactly when it names some stages, none twice and none unknown; and then
   * it is those stages, all of them, in the claimed order whatever order they were named in.
   */
  lemma StagesNamedMeaning(names: seq<string>)
    ensures StagesNamed(names).Ok? <==> names != [] && Distinct(names) && forall name <- names :: IsStage(name)
    ensures StagesNamed(names) == Err(NoStages) <==> names == []
    ensures StagesNamed(names) == Err(Duplicated) <==> !Distinct(names)
    ensures StagesNamed(names).Err? && StagesNamed(names).error.NotAStage? ==>
              exists i :: 0 <= i < |names| && names[i] == StagesNamed(names).error.name && !IsStage(names[i]) &&
                          forall j :: 0 <= j < i ==> IsStage(names[j])
    ensures StagesNamed(names).Ok? ==>
              var stages := StagesNamed(names).value;
              && Ascending(stages) && |stages| == |names|
              && (forall s :: s in stages <==> Name(s) in names)
  {
    if StagesNamed(names).Ok? {
      FilterKeepsOrder(0, names);
      assert CLAIMED_LOCK_ORDER[0..] == CLAIMED_LOCK_ORDER;
      SameStagesSameCount(StagesNamed(names).value, names);
    }
  }

  datatype Mismatch = InOrder | Missing | Inverted(at: nat)

  /** `orderMismatch`, over where each claimed stage first occurs in a body. */
  method OrderMismatch(found: seq<Option<nat>>) returns (m: Mismatch)
    ensures m.InOrder? <==>
              && (forall i :: 0 <= i < |found| ==> found[i].Some?)
              && forall i, j :: 0 <= i < j < |found| ==> found[i].value <= found[j].value
    ensures m.Missing? <==> exists i :: 0 <= i < |found| && found[i].None?
    ensures m.Inverted? ==>
              && 0 < m.at < |found| && found[m.at - 1].value > found[m.at].value
              && forall i, j :: 0 <= i < j < m.at ==> found[i].value <= found[j].value
  {
    for i := 0 to |found|
      invariant forall k :: 0 <= k < i ==> found[k].Some?
    {
      if found[i].None? {
        return Missing;
      }
    }
    var i := 1;
    while i < |found|
      invariant i >= 1
      invariant forall k :: 0 <= k < |found| ==> found[k].Some?
      invariant forall j, k :: 0 <= j < k < i && k < |found| ==> found[j].value <= found[k].value
    {
      if found[i - 1].value > found[i].value {
        return Inverted(i);
      }
      i := i + 1;
    }
    m := InOrder;
  }
}
