/**
 * The continuing-education automation script: which (state, license type) pair to
 * research next, the output file name of a pair, the full name of a license type,
 * and the progress tracker (its initial contents and its update after a pair is
 * done). The prioritization list, read from a JSON file by the script, is a value
 * here; reading and writing the files is not modelled.
 */
module CeAutomation {
  import opened Wrappers
  import opened Seqs
  import opened Strings

  datatype StateGroup = StateGroup(groupName: string, states: seq<string>)

  datatype LicenseType = LicenseType(kind: string, fullName: string, priority: int)

  /** The prioritization list: state groups in priority order and the nursing license types. */
  datatype Prioritization = Prioritization(groups: seq<StateGroup>, licenseTypes: seq<LicenseType>)

  /** A (state, license type) combination. */
  datatype Combo = Combo(state: string, license: string)

  /** The text of the `IndexError` raised when a list the script indexes is empty. */
  const IndexErrorText := "list index out of range"

  function Is(x: string): string -> bool { (y: string) => y == x }

  function KindIs(kind: string): LicenseType -> bool { (lt: LicenseType) => lt.kind == kind }

  function PriorityOf(): LicenseType -> int { (lt: LicenseType) => lt.priority }

  // ---------------------------------------------------------------------------
  // The ordered states and license types

  /** The groups' states concatenated in group order. */
  function AllStates(groups: seq<StateGroup>): (r: seq<string>)
    ensures forall g, k :: 0 <= g < |groups| && 0 <= k < |groups[g].states| ==> groups[g].states[k] in r
  {
    if groups == [] then []
    else
      assert forall g :: 1 <= g < |groups| ==> groups[g] == groups[1..][g - 1];
      groups[0].states + AllStates(groups[1..])
  }

  /** Every listed state comes from some group. */
  lemma {:induction false} AllStatesFromGroups(groups: seq<StateGroup>, s: string)
    requires s in AllStates(groups)
    ensures exists g :: 0 <= g < |groups| && s in groups[g].states
  {
    if s !in groups[0].states {
      AllStatesFromGroups(groups[1..], s);
      var g :| 0 <= g < |groups[1..]| && s in groups[1..][g].states;
      assert groups[g + 1] == groups[1..][g];
    }
  }

  function Kinds(types: seq<LicenseType>): (r: seq<string>)
    ensures |r| == |types| && forall k :: 0 <= k < |types| ==> r[k] == types[k].kind
  {
    seq(|types|, k requires 0 <= k < |types| => types[k].kind)
  }

  /** The license types sorted by ascending priority value, ties in file order. */
  function ByPriority(types: seq<LicenseType>): (r: seq<LicenseType>)
    ensures |r| == |types| && multiset(r) == multiset(types)
  {
    SortBy(types, PriorityOf())
  }

  /** The first license of the order has the lowest priority value of all types. */
  lemma ByPriorityFirstIsLowest(types: seq<LicenseType>)
    requires types != []
    ensures forall k :: 0 <= k < |types| ==> ByPriority(types)[0].priority <= types[k].priority
    ensures forall i, j :: 0 <= i < j < |types| ==> ByPriority(types)[i].priority <= ByPriority(types)[j].priority
  {
    SortBySorted(types, PriorityOf());
    var r := ByPriority(types);
    forall k | 0 <= k < |types| ensures r[0].priority <= types[k].priority {
      SameElements(r, types, types[k]);
      var m :| 0 <= m < |r| && r[m] == types[k];
      assert PriorityOf()(r[0]) <= PriorityOf()(r[m]) || m == 0;
    }
  }

  // ---------------------------------------------------------------------------
  // The next pair

  /**
   * `get_next_state_license_pair` over the concatenated states and the license names
   * in priority order. `Ok(None)` is the script's `(None, None)`; an empty list makes
   * the script index past its end.
   */
  function NextPair(states: seq<string>, licenses: seq<string>, curState: Option<string>, curLicense: Option<string>)
    : (r: Result<Option<Combo>, string>)
    ensures r.Err? <==> states == [] || licenses == []
    ensures r.Err? ==> r.error == IndexErrorText
    ensures states != [] && licenses != [] &&
            (curState.None? || curLicense.None? || curState.value !in states || curLicense.value !in licenses) ==>
      r == Ok(Some(Combo(states[0], licenses[0])))
  {
    if states == [] || licenses == [] then Err(IndexErrorText)
    else if curState.None? || curLicense.None? then Ok(Some(Combo(states[0], licenses[0])))
    else
      match (FirstIndex(states, Is(curState.value)), FirstIndex(licenses, Is(curLicense.value)))
      case (Some(si), Some(li)) =>
        if li < |licenses| - 1 then Ok(Some(Combo(curState.value, licenses[li + 1])))
        else if si < |states| - 1 then Ok(Some(Combo(states[si + 1], licenses[0])))
        else Ok(None)
      case _ => Ok(Some(Combo(states[0], licenses[0])))
  }

  /** The pair the script computes from the prioritization list. */
  function NextFromList(p: Prioritization, curState: Option<string>, curLicense: Option<string>): Result<Option<Combo>, string> {
    NextPair(AllStates(p.groups), Kinds(ByPriority(p.licenseTypes)), curState, curLicense)
  }

  /** With nothing done yet, the first state is paired with a license of the lowest priority value. */
  lemma FirstPairFromList(p: Prioritization)
    requires AllStates(p.groups) != [] && p.licenseTypes != []
    ensures NextFromList(p, None, None).Ok? && NextFromList(p, None, None).value.Some?
    ensures NextFromList(p, None, None).value.value.state == AllStates(p.groups)[0]
    ensures forall k :: 0 <= k < |p.licenseTypes| ==>
      exists t :: t in p.licenseTypes && t.kind == NextFromList(p, None, None).value.value.license && t.priority <= p.licenseTypes[k].priority
  {
    ByPriorityFirstIsLowest(p.licenseTypes);
    var t := ByPriority(p.licenseTypes)[0];
    SameElements(ByPriority(p.licenseTypes), p.licenseTypes, t);
  }

  /** In lists without repeats, the next pair is the row-major successor. */
  lemma NextIsSuccessor(states: seq<string>, licenses: seq<string>, i: nat, j: nat)
    requires Distinct(states) && Distinct(licenses)
    requires i < |states| && j < |licenses|
    ensures NextPair(states, licenses, Some(states[i]), Some(licenses[j])) ==
      Ok(if j + 1 < |licenses| then Some(Combo(states[i], licenses[j + 1]))
         else if i + 1 < |states| then Some(Combo(states[i + 1], licenses[0]))
         else None)
  {
    FirstIndexIs(states, Is(states[i]), i);
    FirstIndexIs(licenses, Is(licenses[j]), j);
  }

  // ---------------------------------------------------------------------------
  // Row-major order

  /** One state with each license. */
  function Row(s: string, licenses: seq<string>): (r: seq<Combo>)
    ensures |r| == |licenses| && forall j :: 0 <= j < |licenses| ==> r[j] == Combo(s, licenses[j])
  {
    seq(|licenses|, j requires 0 <= j < |licenses| => Combo(s, licenses[j]))
  }

  /** Every state with every license, state by state. */
  function RowMajor(states: seq<string>, licenses: seq<string>): seq<Combo>
  {
    if states == [] then [] else RowMajor(states[..|states| - 1], licenses) + Row(states[|states| - 1], licenses)
  }

  lemma {:induction false} RowMajorAppend(a: seq<string>, b: seq<string>, licenses: seq<string>)
    ensures RowMajor(a + b, licenses) == RowMajor(a, licenses) + RowMajor(b, licenses)
    decreases |b|
  {
    if b == [] {
      assert a + b == a;
    } else {
      var front := b[..|b| - 1];
      assert (a + b)[..|a + b| - 1] == a + front;
      RowMajorAppend(a, front, licenses);
    }
  }

  lemma RowMajorCons(s: string, rest: seq<string>, licenses: seq<string>)
    ensures RowMajor([s] + rest, licenses) == Row(s, licenses) + RowMajor(rest, licenses)
  {
    RowMajorAppend([s], rest, licenses);
    assert RowMajor([s], licenses) == RowMajor([], licenses) + Row(s, licenses);
  }

  lemma {:induction false} RowMajorLength(states: seq<string>, licenses: seq<string>)
    ensures |RowMajor(states, licenses)| == |states| * |licenses|
  {
    if states != [] {
      RowMajorLength(states[..|states| - 1], licenses);
      assert |states| * |licenses| == (|states| - 1) * |licenses| + |licenses|;
    }
  }

  /** A combination is listed exactly when its state and its license are. */
  lemma {:induction false} RowMajorMembers(states: seq<string>, licenses: seq<string>, c: Combo)
    ensures c in RowMajor(states, licenses) <==> c.state in states && c.license in licenses
  {
    if states != [] {
      var front := states[..|states| - 1];
      var last := states[|states| - 1];
      RowMajorMembers(front, licenses, c);
      assert states == front + [last];
      if c in Row(last, licenses) {
        var j :| 0 <= j < |licenses| && Row(last, licenses)[j] == c;
      }
      if c.state == last && c.license in licenses {
        var j :| 0 <= j < |licenses| && licenses[j] == c.license;
        assert Row(last, licenses)[j] == c;
      }
    }
  }

  /** Without repeats in either list, no combination is listed twice. */
  lemma {:induction false} RowMajorDistinct(states: seq<string>, licenses: seq<string>)
    requires Distinct(states) && Distinct(licenses)
    ensures Distinct(RowMajor(states, licenses))
  {
    if states != [] {
      var front := states[..|states| - 1];
      var last := states[|states| - 1];
      var a := RowMajor(front, licenses);
      var b := Row(last, licenses);
      RowMajorDistinct(front, licenses);
      assert last !in front;
      forall x | x in a ensures x.state != last {
        RowMajorMembers(front, licenses, x);
      }
      forall i, j | 0 <= i < j < |a + b| ensures (a + b)[i] != (a + b)[j] {
        if j < |a| {
        } else if i >= |a| {
          assert (a + b)[i] == b[i - |a|] && (a + b)[j] == b[j - |a|];
        } else {
          assert (a + b)[i] == a[i] && a[i] in a;
          assert (a + b)[j] == b[j - |a|];
        }
      }
    }
  }

  /** One call of `NextPair` from a combination, as the script's loop makes it. */
  function StepOf(states: seq<string>, licenses: seq<string>): Combo -> Result<Option<Combo>, string> {
    (c: Combo) => NextPair(states, licenses, Some(c.state), Some(c.license))
  }

  /** Following `step` from `cur` for at most `fuel` steps. */
  function Trace(step: Combo -> Result<Option<Combo>, string>, cur: Option<Combo>, fuel: nat): seq<Combo>
    decreases fuel
  {
    if fuel == 0 || cur.None? then []
    else
      match step(cur.value)
      case Ok(next) => [cur.value] + Trace(step, next, fuel - 1)
      case Err(_) => [cur.value]
  }

  lemma TraceStep(step: Combo -> Result<Option<Combo>, string>, c: Combo, next: Option<Combo>, fuel: nat)
    requires fuel > 0 && step(c) == Ok(next)
    ensures Trace(step, Some(c), fuel) == [c] + Trace(step, next, fuel - 1)
  {
  }

  /** The combinations from position (i, j) on, in row-major order. */
  function Tail(states: seq<string>, licenses: seq<string>, i: nat, j: nat): seq<Combo>
    requires i < |states| && j <= |licenses|
  {
    Row(states[i], licenses[j..]) + RowMajor(states[i + 1..], licenses)
  }

  lemma TailStep(states: seq<string>, licenses: seq<string>, i: nat, j: nat)
    requires i < |states| && j < |licenses|
    ensures j + 1 < |licenses| ==> Tail(states, licenses, i, j) == [Combo(states[i], licenses[j])] + Tail(states, licenses, i, j + 1)
    ensures j + 1 == |licenses| && i + 1 < |states| ==>
      Tail(states, licenses, i, j) == [Combo(states[i], licenses[j])] + Tail(states, licenses, i + 1, 0)
    ensures j + 1 == |licenses| && i + 1 == |states| ==> Tail(states, licenses, i, j) == [Combo(states[i], licenses[j])]
  {
    assert Row(states[i], licenses[j..]) == [Combo(states[i], licenses[j])] + Row(states[i], licenses[j + 1..]);
    if j + 1 == |licenses| && i + 1 < |states| {
      assert licenses[j + 1..] == [];
      assert states[i + 1..] == [states[i + 1]] + states[i + 2..];
      RowMajorCons(states[i + 1], states[i + 2..], licenses);
      assert licenses[0..] == licenses;
    }
  }

  /** The row-major successor of position (i, j), or `None` after the last one. */
  function Successor(states: seq<string>, licenses: seq<string>, i: nat, j: nat): Option<Combo>
    requires i < |states| && j < |licenses|
  {
    if j + 1 < |licenses| then Some(Combo(states[i], licenses[j + 1]))
    else if i + 1 < |states| then Some(Combo(states[i + 1], licenses[0]))
    else None
  }

  /** `step` moves to the row-major successor from every position. */
  ghost predicate Successive(step: Combo -> Result<Option<Combo>, string>, states: seq<string>, licenses: seq<string>) {
    forall i, j {:trigger Successor(states, licenses, i, j)} :: 0 <= i < |states| && 0 <= j < |licenses| ==>
      step(Combo(states[i], licenses[j])) == Ok(Successor(states, licenses, i, j))
  }

  lemma DistinctIsSuccessive(states: seq<string>, licenses: seq<string>)
    requires Distinct(states) && Distinct(licenses)
    ensures Successive(StepOf(states, licenses), states, licenses)
  {
    forall i, j | 0 <= i < |states| && 0 <= j < |licenses|
      ensures StepOf(states, licenses)(Combo(states[i], licenses[j])) == Ok(Successor(states, licenses, i, j))
    {
      NextIsSuccessor(states, licenses, i, j);
    }
  }

  /** From (i, j), enough successor steps list exactly the rest of the row-major order. */
  lemma {:induction false} TraceIsTail(step: Combo -> Result<Option<Combo>, string>, states: seq<string>, licenses: seq<string>,
                                       i: nat, j: nat, fuel: nat)
    requires Successive(step, states, licenses)
    requires i < |states| && j < |licenses|
    requires fuel >= |Tail(states, licenses, i, j)|
    ensures Trace(step, Some(Combo(states[i], licenses[j])), fuel) == Tail(states, licenses, i, j)
    decreases |states| - i, |licenses| - j
  {
    var c := Combo(states[i], licenses[j]);
    assert step(c) == Ok(Successor(states, licenses, i, j));
    TailStep(states, licenses, i, j);
    if j + 1 < |licenses| {
      TraceIsTail(step, states, licenses, i, j + 1, fuel - 1);
      TraceStep(step, c, Some(Combo(states[i], licenses[j + 1])), fuel);
    } else if i + 1 < |states| {
      TraceIsTail(step, states, licenses, i + 1, 0, fuel - 1);
      TraceStep(step, c, Some(Combo(states[i + 1], licenses[0])), fuel);
    } else {
      TraceStep(step, c, None, fuel);
      assert Trace(step, None, fuel - 1) == [];
    }
  }

  /**
   * From the start, `NextPair` visits every state/license combination exactly once, in
   * row-major order, and then reports that nothing is left.
   */
  lemma EnumeratesRowMajor(states: seq<string>, licenses: seq<string>)
    requires Distinct(states) && Distinct(licenses) && states != [] && licenses != []
    ensures NextPair(states, licenses, None, None) == Ok(Some(Combo(states[0], licenses[0])))
    ensures Trace(StepOf(states, licenses), Some(Combo(states[0], licenses[0])), |states| * |licenses|) == RowMajor(states, licenses)
    ensures NextPair(states, licenses, Some(states[|states| - 1]), Some(licenses[|licenses| - 1])) == Ok(None)
    ensures Distinct(RowMajor(states, licenses))
    ensures forall c :: c in RowMajor(states, licenses) <==> c.state in states && c.license in licenses
  {
    assert licenses[0..] == licenses;
    assert states == [states[0]] + states[1..];
    RowMajorCons(states[0], states[1..], licenses);
    assert Tail(states, licenses, 0, 0) == RowMajor(states, licenses);
    RowMajorLength(states, licenses);
    DistinctIsSuccessive(states, licenses);
    TraceIsTail(StepOf(states, licenses), states, licenses, 0, 0, |states| * |licenses|);
    NextIsSuccessor(states, licenses, |states| - 1, |licenses| - 1);
    RowMajorDistinct(states, licenses);
    forall c ensures c in RowMajor(states, licenses) <==> c.state in states && c.license in licenses {
      RowMajorMembers(states, licenses, c);
    }
  }

  // ---------------------------------------------------------------------------
  // Output file names and license names

  const FileSuffix := "_ce_requirements_enhanced.json"

  /** The state lower-cased with spaces as underscores. */
  function StateSlug(state: string): (r: string)
    ensures |r| == |state|
    ensures forall k :: 0 <= k < |r| ==> r[k] == (if state[k] == ' ' then '_' else LowerChar(state[k]))
    ensures forall k :: 0 <= k < |r| ==> r[k] != ' ' && !('A' <= r[k] <= 'Z')
  {
    ReplaceChar(Lower(state), ' ', '_')
  }

  /** The license type lower-cased with slashes as underscores. */
  function LicenseSlug(license: string): (r: string)
    ensures |r| == |license|
    ensures forall k :: 0 <= k < |r| ==> r[k] == (if license[k] == '/' then '_' else LowerChar(license[k]))
    ensures forall k :: 0 <= k < |r| ==> r[k] != '/' && !('A' <= r[k] <= 'Z')
  {
    ReplaceChar(Lower(license), '/', '_')
  }

  /** A slug is its own slug. */
  lemma SlugsIdempotent(state: string, license: string)
    ensures StateSlug(StateSlug(state)) == StateSlug(state)
    ensures LicenseSlug(LicenseSlug(license)) == LicenseSlug(license)
  {
  }

  /** The file name, without the directory. */
  function OutputName(state: string, license: string): string {
    StateSlug(state) + "_" + LicenseSlug(license) + FileSuffix
  }

  /** `create_output_filename`: the slugged name joined to the output directory. */
  function OutputFilename(state: string, license: string, outputDir: string): (r: string)
    ensures |OutputName(state, license)| <= |r| && r[|r| - |OutputName(state, license)|..] == OutputName(state, license)
    ensures !StartsWith(OutputName(state, license), "/") ==> StartsWith(r, outputDir)
  {
    PathJoin(outputDir, OutputName(state, license))
  }

  /** The full name of the first type of that kind, else the kind itself. */
  function FullNameOf(types: seq<LicenseType>, kind: string): (r: string)
    ensures (forall k :: 0 <= k < |types| ==> types[k].kind != kind) ==> r == kind
    ensures forall i :: 0 <= i < |types| && types[i].kind == kind && (forall k :: 0 <= k < i ==> types[k].kind != kind) ==>
      r == types[i].fullName
  {
    forall i | 0 <= i < |types| && types[i].kind == kind && (forall k :: 0 <= k < i ==> types[k].kind != kind)
      ensures FirstIndex(types, KindIs(kind)) == Some(i)
    {
      FirstIndexIs(types, KindIs(kind), i);
    }
    match FirstIndex(types, KindIs(kind))
    case None => kind
    case Some(i) => types[i].fullName
  }

  /** `get_license_full_name`: a scan of the types in file order that returns at the first match. */
  method GetLicenseFullName(types: seq<LicenseType>, kind: string) returns (r: string)
    ensures r == FullNameOf(types, kind)
  {
    var i := 0;
    while i < |types|
      invariant 0 <= i <= |types|
      invariant forall k :: 0 <= k < i ==> types[k].kind != kind
    {
      if types[i].kind == kind {
        return types[i].fullName;
      }
      i := i + 1;
    }
    return kind;
  }

  // ---------------------------------------------------------------------------
  // The progress tracker

  /** A state paired with the name of its group. */
  datatype Placed = Placed(state: string, group: string)

  datatype StateProgress = StateProgress(group: string, total: int, completed: int, licensesCompleted: seq<string>)

  datatype LicenseProgress = LicenseProgress(total: int, completed: int, statesCompleted: seq<string>)

  datatype Item = Item(state: string, license: string, outputFile: string)

  /** One group's states, each with the group's name. */
  function GroupPlaced(group: StateGroup): (r: seq<Placed>)
    ensures |r| == |group.states| && forall k :: 0 <= k < |r| ==> r[k] == Placed(group.states[k], group.groupName)
  {
    seq(|group.states|, k requires 0 <= k < |group.states| => Placed(group.states[k], group.groupName))
  }

  /** The states with their group names, in group order. */
  function PlacedStates(groups: seq<StateGroup>): (r: seq<Placed>)
    ensures |r| == |AllStates(groups)| && forall k :: 0 <= k < |r| ==> r[k].state == AllStates(groups)[k]
  {
    if groups == [] then [] else GroupPlaced(groups[0]) + PlacedStates(groups[1..])
  }

  function StateIs(s: string): Placed -> bool { (x: Placed) => x.state == s }

  /** The group of the first entry for `s` (empty when there is none). */
  function FirstGroup(placed: seq<Placed>, s: string): string {
    match FirstIndex(placed, StateIs(s))
    case None => ""
    case Some(i) => placed[i].group
  }

  /** `progress_by_state`, built entry by entry: a state already present keeps its first group. */
  function StateTable(placed: seq<Placed>, licenseCount: int): map<string, StateProgress> {
    if placed == [] then map[]
    else
      var t := StateTable(placed[..|placed| - 1], licenseCount);
      var last := placed[|placed| - 1];
      if last.state in t then t else t[last.state := StateProgress(last.group, licenseCount, 0, [])]
  }

  /** The table has an entry exactly for the listed states, each with the group the state first appears in. */
  lemma {:induction false} StateTableSpec(placed: seq<Placed>, licenseCount: int, s: string)
    ensures s in StateTable(placed, licenseCount) <==> FirstIndex(placed, StateIs(s)).Some?
    ensures s in StateTable(placed, licenseCount) ==>
      StateTable(placed, licenseCount)[s] == StateProgress(FirstGroup(placed, s), licenseCount, 0, [])
  {
    if placed != [] {
      var front := placed[..|placed| - 1];
      var last := placed[|placed| - 1];
      assert placed == front + [last];
      StateTableSpec(front, licenseCount, s);
      FirstIndexSnoc(front, last, StateIs(s));
    }
  }

  /** Every listed state has an entry. */
  lemma StateTableCovers(placed: seq<Placed>, licenseCount: int, i: nat)
    requires i < |placed|
    ensures placed[i].state in StateTable(placed, licenseCount)
  {
    StateTableSpec(placed, licenseCount, placed[i].state);
  }

  /** `progress_by_license`: one entry per license type. */
  function LicenseTable(kinds: seq<string>, stateCount: int): (r: map<string, LicenseProgress>)
    ensures forall k :: k in r <==> k in kinds
    ensures forall k :: k in r ==> r[k] == LicenseProgress(stateCount, 0, [])
  {
    map k | k in kinds :: LicenseProgress(stateCount, 0, [])
  }

  function ItemOf(c: Combo, outputDir: string): Item {
    Item(c.state, c.license, OutputFilename(c.state, c.license, outputDir))
  }

  function ItemsOf(cs: seq<Combo>, outputDir: string): (r: seq<Item>)
    ensures |r| == |cs| && forall k :: 0 <= k < |cs| ==> r[k] == ItemOf(cs[k], outputDir)
  {
    seq(|cs|, k requires 0 <= k < |cs| => ItemOf(cs[k], outputDir))
  }

  lemma RowExtends(s: string, licenses: seq<string>, j: nat)
    requires j < |licenses|
    ensures Row(s, licenses[..j + 1]) == Row(s, licenses[..j]) + [Combo(s, licenses[j])]
  {
  }

  lemma ItemsOfSnoc(cs: seq<Combo>, c: Combo, outputDir: string)
    ensures ItemsOf(cs + [c], outputDir) == ItemsOf(cs, outputDir) + [ItemOf(c, outputDir)]
  {
  }

  lemma ItemsOfAppend(a: seq<Combo>, b: seq<Combo>, outputDir: string)
    ensures ItemsOf(a + b, outputDir) == ItemsOf(a, outputDir) + ItemsOf(b, outputDir)
  {
  }

  function ItemIs(state: string, license: string): Item -> bool {
    (it: Item) => it.state == state && it.license == license
  }

  /** No two items are for the same combination. */
  predicate UniqueCombos(items: seq<Item>) {
    forall i, j :: 0 <= i < j < |items| ==> !(items[i].state == items[j].state && items[i].license == items[j].license)
  }

  /** The items of distinct combinations are for distinct combinations. */
  lemma ItemsOfUnique(cs: seq<Combo>, outputDir: string)
    requires Distinct(cs)
    ensures UniqueCombos(ItemsOf(cs, outputDir))
  {
    var items := ItemsOf(cs, outputDir);
    forall i, j | 0 <= i < j < |items|
      ensures !(items[i].state == items[j].state && items[i].license == items[j].license)
    {
      assert cs[i] != cs[j];
    }
  }

  /** Moving the first pending item for the combination to the end of the completed list. */
  function Moved(pending: seq<Item>, completed: seq<Item>, state: string, license: string): (r: (seq<Item>, seq<Item>))
    ensures |r.0| + |r.1| == |pending| + |completed|
    ensures FirstIndex(pending, ItemIs(state, license)).None? ==> r == (pending, completed)
    ensures FirstIndex(pending, ItemIs(state, license)).Some? ==>
      var i := FirstIndex(pending, ItemIs(state, license)).value;
      r == (pending[..i] + pending[i + 1..], completed + [pending[i]])
  {
    match FirstIndex(pending, ItemIs(state, license))
    case None => (pending, completed)
    case Some(i) => (pending[..i] + pending[i + 1..], completed + [pending[i]])
  }

  /** When each combination is pending at most once, a completed one is no longer pending. */
  lemma MovedLeavesNoneBehind(pending: seq<Item>, completed: seq<Item>, state: string, license: string)
    requires UniqueCombos(pending)
    ensures forall k :: 0 <= k < |Moved(pending, completed, state, license).0| ==>
      !ItemIs(state, license)(Moved(pending, completed, state, license).0[k])
    ensures UniqueCombos(Moved(pending, completed, state, license).0)
  {
    var r := Moved(pending, completed, state, license).0;
    match FirstIndex(pending, ItemIs(state, license))
    case None =>
    case Some(i) =>
      assert forall k :: 0 <= k < |r| ==> r[k] == (if k < i then pending[k] else pending[k + 1]);
  }

  /** The state names of the placed entries, in order. */
  function Names(placed: seq<Placed>): (r: seq<string>)
    ensures |r| == |placed| && forall k :: 0 <= k < |placed| ==> r[k] == placed[k].state
  {
    seq(|placed|, k requires 0 <= k < |placed| => placed[k].state)
  }

  lemma NamesOfPlaced(groups: seq<StateGroup>)
    ensures Names(PlacedStates(groups)) == AllStates(groups)
  {
  }

  /** The script's `all_states` list: every state paired with its group's name. */
  method PlaceStates(groups: seq<StateGroup>) returns (placed: seq<Placed>)
    ensures placed == PlacedStates(groups)
  {
    placed := [];
    var g := 0;
    while g < |groups|
      invariant 0 <= g <= |groups|
      invariant placed + PlacedStates(groups[g..]) == PlacedStates(groups)
    {
      assert groups[g..][1..] == groups[g + 1..];
      placed := placed + GroupPlaced(groups[g]);
      g := g + 1;
    }
    assert groups[g..] == [];
  }

  /** The state table, built entry by entry as the script does. */
  method BuildStateTable(placed: seq<Placed>, licenseCount: int) returns (byState: map<string, StateProgress>)
    ensures byState == StateTable(placed, licenseCount)
  {
    byState := map[];
    var i := 0;
    while i < |placed|
      invariant 0 <= i <= |placed|
      invariant byState == StateTable(placed[..i], licenseCount)
    {
      assert placed[..i + 1][..i] == placed[..i];
      if placed[i].state !in byState {
        byState := byState[placed[i].state := StateProgress(placed[i].group, licenseCount, 0, [])];
      }
      i := i + 1;
    }
    assert placed[..i] == placed;
  }

  /** The license table, one entry per license type. */
  method BuildLicenseTable(kinds: seq<string>, stateCount: int) returns (byLicense: map<string, LicenseProgress>)
    ensures byLicense == LicenseTable(kinds, stateCount)
  {
    byLicense := map[];
    var j := 0;
    while j < |kinds|
      invariant 0 <= j <= |kinds|
      invariant byLicense == LicenseTable(kinds[..j], stateCount)
    {
      assert kinds[..j + 1] == kinds[..j] + [kinds[j]];
      byLicense := byLicense[kinds[j] := LicenseProgress(stateCount, 0, [])];
      j := j + 1;
    }
    assert kinds[..j] == kinds;
  }

  /** Appends one pending item per license type for `state`. */
  method AppendRow(pending: seq<Item>, state: string, kinds: seq<string>, outputDir: string) returns (r: seq<Item>)
    ensures r == pending + ItemsOf(Row(state, kinds), outputDir)
  {
    r := pending;
    var j := 0;
    while j < |kinds|
      invariant 0 <= j <= |kinds|
      invariant r == pending + ItemsOf(Row(state, kinds[..j]), outputDir)
    {
      RowExtends(state, kinds, j);
      ItemsOfSnoc(Row(state, kinds[..j]), Combo(state, kinds[j]), outputDir);
      r := r + [Item(state, kinds[j], OutputFilename(state, kinds[j], outputDir))];
      j := j + 1;
    }
    assert kinds[..j] == kinds;
  }

  /** The pending items: for each placed state in turn, one per license type. */
  method BuildPending(placed: seq<Placed>, kinds: seq<string>, outputDir: string) returns (pending: seq<Item>)
    ensures pending == ItemsOf(RowMajor(Names(placed), kinds), outputDir)
  {
    var states := Names(placed);
    pending := [];
    var i := 0;
    while i < |placed|
      invariant 0 <= i <= |placed|
      invariant pending == ItemsOf(RowMajor(states[..i], kinds), outputDir)
    {
      var state := placed[i].state;
      pending := AppendRow(pending, state, kinds, outputDir);
      assert states[..i + 1][..i] == states[..i];
      ItemsOfAppend(RowMajor(states[..i], kinds), Row(state, kinds), outputDir);
      i := i + 1;
    }
    assert states[..i] == states;
  }

  class ProgressTracker {
    var lastUpdated: string
    var totalCombinations: int
    var completedCombinations: int
    var progressByState: map<string, StateProgress>
    var progressByLicense: map<string, LicenseProgress>
    var completedItems: seq<Item>
    var pendingItems: seq<Item>

    /**
     * `create_progress_tracker`: the combination count, the per-state and per-license
     * tables, and one pending item per state and license type. The license types are
     * taken in file order here, not by priority.
     */
    constructor (p: Prioritization, outputDir: string, now: string)
      ensures lastUpdated == now && completedCombinations == 0 && completedItems == []
      ensures totalCombinations == |PlacedStates(p.groups)| * |p.licenseTypes|
      ensures progressByState == StateTable(PlacedStates(p.groups), |p.licenseTypes|)
      ensures progressByLicense == LicenseTable(Kinds(p.licenseTypes), |PlacedStates(p.groups)|)
      ensures pendingItems == ItemsOf(RowMajor(AllStates(p.groups), Kinds(p.licenseTypes)), outputDir)
    {
      var placed := PlaceStates(p.groups);
      var kinds := Kinds(p.licenseTypes);
      var byState := BuildStateTable(placed, |kinds|);
      var byLicense := BuildLicenseTable(kinds, |placed|);
      NamesOfPlaced(p.groups);
      var pending := BuildPending(placed, kinds, outputDir);

      lastUpdated := now;
      totalCombinations := |placed| * |kinds|;
      completedCombinations := 0;
      progressByState := byState;
      progressByLicense := byLicense;
      completedItems := [];
      pendingItems := pending;
    }

    /**
     * `update_progress_tracker`: the completion count always goes up; the state's and
     * the license's entries are bumped when present; the first pending item for the
     * combination, if any, moves to the end of the completed items.
     */
    method Update(state: string, license: string, now: string)
      modifies this
      ensures completedCombinations == old(completedCombinations) + 1 && lastUpdated == now
      ensures totalCombinations == old(totalCombinations)
      ensures progressByState ==
        (if state in old(progressByState) then
           old(progressByState)[state := old(progressByState)[state].(
             completed := old(progressByState)[state].completed + 1,
             licensesCompleted := old(progressByState)[state].licensesCompleted + [license])]
         else old(progressByState))
      ensures progressByLicense ==
        (if license in old(progressByLicense) then
           old(progressByLicense)[license := old(progressByLicense)[license].(
             completed := old(progressByLicense)[license].completed + 1,
             statesCompleted := old(progressByLicense)[license].statesCompleted + [state])]
         else old(progressByLicense))
      ensures (pendingItems, completedItems) == Moved(old(pendingItems), old(completedItems), state, license)
    {
      completedCombinations := completedCombinations + 1;
      lastUpdated := now;
      if state in progressByState {
        var e := progressByState[state];
        progressByState := progressByState[state := e.(completed := e.completed + 1, licensesCompleted := e.licensesCompleted + [license])];
      }
      if license in progressByLicense {
        var e := progressByLicense[license];
        progressByLicense := progressByLicense[license := e.(completed := e.completed + 1, statesCompleted := e.statesCompleted + [state])];
      }
      MoveCompleted(state, license);
    }

    /** The first pending item for the combination, if any, moves to the end of the completed items. */
    method MoveCompleted(state: string, license: string)
      modifies this
      ensures (pendingItems, completedItems) == Moved(old(pendingItems), old(completedItems), state, license)
      ensures lastUpdated == old(lastUpdated) && totalCombinations == old(totalCombinations)
      ensures completedCombinations == old(completedCombinations)
      ensures progressByState == old(progressByState) && progressByLicense == old(progressByLicense)
    {
      var i := FindFirst(pendingItems, ItemIs(state, license));
      if i.Some? {
        var item := pendingItems[i.value];
        pendingItems := pendingItems[..i.value] + pendingItems[i.value + 1..];
        completedItems := completedItems + [item];
      }
    }
  }
}
