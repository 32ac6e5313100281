/** The rows of the statistics sheet and the fixed vocabularies around them:
    the four groups, the six pairwise comparisons and the category codes. */
module Records {
  import opened Strings

  datatype Option<T> = None | Some(value: T)

  // ---------------------------------------------------------------------------
  // Categories: the code column of the sheet is replaced by a label through a
  // fixed dictionary; a code the dictionary lacks becomes a missing value.

  const DEMO_CLINICAL: string := "Demo+Clinical"

  /** The seven labels, indexed by code - 1. */
  const CATEGORY_NAMES: seq<string> :=
    [DEMO_CLINICAL, "Spatio-temporal", "Kinematics", "Tele-signal", "Motor-identity", "Frequency", "TUG"]

  /** `category_mapping` applied to one code (pandas' Series.map). */
  function CategoryLabel(code: int): (name: Option<string>)
    ensures name.Some? <==> 1 <= code <= 7
    ensures name.Some? ==> name.value == CATEGORY_NAMES[code - 1]
  {
    if code == 1 then Some(DEMO_CLINICAL)
    else if code == 2 then Some("Spatio-temporal")
    else if code == 3 then Some("Kinematics")
    else if code == 4 then Some("Tele-signal")
    else if code == 5 then Some("Motor-identity")
    else if code == 6 then Some("Frequency")
    else if code == 7 then Some("TUG")
    else None
  }

  /** No two codes share a label. */
  lemma CategoryLabelInjective(c1: int, c2: int)
    requires CategoryLabel(c1).Some? && CategoryLabel(c1) == CategoryLabel(c2)
    ensures c1 == c2
  {
    assert |CATEGORY_NAMES[c1 - 1]| == |CATEGORY_NAMES[c2 - 1]|;
  }

  /** Every one of the seven labels is reached by some code in 1..7 (and by
      only one, by CategoryLabelInjective). */
  lemma CategoryLabelOnto(name: string)
    requires name in CATEGORY_NAMES
    ensures exists code :: 1 <= code <= 7 && CategoryLabel(code) == Some(name)
  {
    var i :| 0 <= i < 7 && CATEGORY_NAMES[i] == name;
    assert CategoryLabel(i + 1) == Some(name);
  }

  /** Only code 1 is labelled Demo+Clinical, the category the pair views leave out. */
  lemma DemoClinicalOnlyCodeOne(code: int)
    ensures CategoryLabel(code) == Some(DEMO_CLINICAL) <==> code == 1
  {
    if CategoryLabel(code) == Some(DEMO_CLINICAL) {
      CategoryLabelInjective(code, 1);
    }
  }

  // ---------------------------------------------------------------------------
  // Groups and pairwise comparisons.

  datatype Group = HC | RBD | MildPD | ModPD

  const GROUPS: seq<Group> := [HC, RBD, MildPD, ModPD]
  const GROUP_NAMES: seq<string> := ["HC", "RBD", "MildPD", "ModPD"]

  /** The position of a group on the chart's x axis and in GROUP_NAMES. */
  function GroupIndex(g: Group): (i: nat)
    ensures i < |GROUPS| && GROUPS[i] == g
  {
    match g
    case HC => 0
    case RBD => 1
    case MildPD => 2
    case ModPD => 3
  }

  function GroupName(g: Group): string
  {
    GROUP_NAMES[GroupIndex(g)]
  }

  lemma GroupNameFacts(g: Group)
    ensures GroupName(g) in GROUP_NAMES
    ensures '_' !in GroupName(g) && ' ' !in GroupName(g)
  {
  }

  lemma GroupNameInjective(g: Group, h: Group)
    requires GroupName(g) == GroupName(h)
    ensures g == h
  {
    var a, b := GroupName(g), GroupName(h);
    assert |a| == |b|;
    assert a[0] == b[0];
    assert |a| > 1 ==> a[1] == b[1];
  }

  /** One column of significance flags per unordered pair of groups. */
  datatype Pair = HcRbd | HcMildPd | HcModPd | MildPdRbd | ModPdRbd | MildPdModPd

  /** The pairs in the order of `pair_keys`. */
  const PAIRS: seq<Pair> := [HcRbd, HcMildPd, HcModPd, MildPdRbd, ModPdRbd, MildPdModPd]
  const PAIR_KEYS: seq<string> := ["HC_RBD", "HC_MildPD", "HC_ModPD", "MildPD_RBD", "ModPD_RBD", "MildPD_ModPD"]

  function PairIndex(p: Pair): (i: nat)
    ensures i < |PAIRS| && PAIRS[i] == p
  {
    match p
    case HcRbd => 0
    case HcMildPd => 1
    case HcModPd => 2
    case MildPdRbd => 3
    case ModPdRbd => 4
    case MildPdModPd => 5
  }

  /** PairIndex is the inverse of indexing PAIRS. */
  lemma PairIndexOf(k: nat)
    requires k < |PAIRS|
    ensures PairIndex(PAIRS[k]) == k
  {
    if k == 0 { assert PAIRS[0] == HcRbd; }
    else if k == 1 { assert PAIRS[1] == HcMildPd; }
    else if k == 2 { assert PAIRS[2] == HcModPd; }
    else if k == 3 { assert PAIRS[3] == MildPdRbd; }
    else if k == 4 { assert PAIRS[4] == ModPdRbd; }
    else { assert PAIRS[5] == MildPdModPd; }
  }

  /** The column name of a pair's flag. */
  function Key(p: Pair): string
  {
    PAIR_KEYS[PairIndex(p)]
  }

  /** Key lists the pairs' columns in `pair_keys` order. */
  lemma KeysInOrder()
    ensures forall k :: 0 <= k < |PAIRS| ==> Key(PAIRS[k]) == PAIR_KEYS[k]
  {
    forall k | 0 <= k < |PAIRS| ensures Key(PAIRS[k]) == PAIR_KEYS[k] {
      PairIndexOf(k);
    }
  }

  /** The two groups a key names, left of and right of its underscore. */
  function Members(p: Pair): (Group, Group)
  {
    match p
    case HcRbd => (HC, RBD)
    case HcMildPd => (HC, MildPD)
    case HcModPd => (HC, ModPD)
    case MildPdRbd => (MildPD, RBD)
    case ModPdRbd => (ModPD, RBD)
    case MildPdModPd => (MildPD, ModPD)
  }

  /** Every key is two distinct group names joined by one underscore. */
  lemma KeyJoinsMembers(p: Pair)
    ensures Members(p).0 != Members(p).1
    ensures Key(p) == GroupName(Members(p).0) + "_" + GroupName(Members(p).1)
  {
  }

  /** `pair.split("_")` yields exactly the two member names, both in `group_names`,
      so the unpacking into `g1, g2` and the `group_names.index` lookups succeed. */
  lemma {:induction false} KeySplits(p: Pair)
    ensures Split(Key(p), '_') == [GroupName(Members(p).0), GroupName(Members(p).1)]
    ensures GroupName(Members(p).0) in GROUP_NAMES && GroupName(Members(p).1) in GROUP_NAMES
    ensures GroupName(Members(p).0) != GroupName(Members(p).1)
  {
    var (a, b) := Members(p);
    KeyJoinsMembers(p);
    GroupNameFacts(a);
    GroupNameFacts(b);
    SplitJoin(GroupName(a), GroupName(b), '_');
    if GroupName(a) == GroupName(b) {
      GroupNameInjective(a, b);
    }
  }

  /** A key holds exactly one underscore and no blank (so no " vs "). */
  lemma KeyShape(p: Pair)
    ensures |Split(Key(p), '_')| == 2
    ensures ' ' !in Key(p)
  {
    KeySplits(p);
    var (a, b) := Members(p);
    KeyJoinsMembers(p);
    GroupNameFacts(a);
    GroupNameFacts(b);
  }

  lemma KeyInjective(p: Pair, q: Pair)
    requires Key(p) == Key(q)
    ensures p == q
  {
    KeySplits(p);
    KeySplits(q);
    GroupNameInjective(Members(p).0, Members(q).0);
    GroupNameInjective(Members(p).1, Members(q).1);
  }

  // ---------------------------------------------------------------------------
  // Feature records: one row of the statistics sheet.

  /** One number per group, e.g. the `{group}_mean` columns. */
  datatype PerGroup = PerGroup(hc: real, rbd: real, mildPd: real, modPd: real)
  {
    function Of(g: Group): real
    {
      match g
      case HC => hc
      case RBD => rbd
      case MildPD => mildPd
      case ModPD => modPd
    }
  }

  /** The six 0/1 significance columns (any other value counts as "not 1"). */
  datatype PairFlags = PairFlags(hcRbd: int, hcMildPd: int, hcModPd: int, mildPdRbd: int, modPdRbd: int, mildPdModPd: int)
  {
    function Of(p: Pair): int
    {
      match p
      case HcRbd => hcRbd
      case HcMildPd => hcMildPd
      case HcModPd => hcModPd
      case MildPdRbd => mildPdRbd
      case ModPdRbd => modPdRbd
      case MildPdModPd => mildPdModPd
    }
  }

  /** A feature row. `code` is the sheet's integer Category column; Category()
      is that column after `category_mapping` has been applied to it. */
  datatype Feature = Feature(
    name: string,
    code: int,
    mean: PerGroup,
    std: PerGroup,
    anovaP: real,
    kruskalP: real,
    eta: real,
    flags: PairFlags)
  {
    function Category(): Option<string>
    {
      CategoryLabel(code)
    }

    /** The row's significance flag for a pair is 1 (the `sig_*` column). */
    predicate FlaggedFor(p: Pair)
    {
      flags.Of(p) == 1
    }
  }
}
