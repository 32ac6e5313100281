/** The sidebar: the list of tab labels and the first-match dispatch of the
    selected label to one of the four kinds of view. */
module Tabs {
  import opened Records
  import opened Strings
  import opened Seqs

  const OVERVIEW: string := "Overview"
  const SUBJECT_CHARACTERISTICS: string := "Subject Characteristics"

  /** `df["Category"].unique().tolist()`: each label once, in order of first
      appearance. A row with an unmapped code adds nothing here. */
  function Categories(rows: seq<Feature>): (cats: seq<string>)
    ensures forall i, j :: 0 <= i < j < |cats| ==> cats[i] != cats[j]
    ensures forall name :: name in cats <==> exists r :: r in rows && r.Category() == Some(name)
    ensures forall i :: 0 <= i < |cats| ==> cats[i] in CATEGORY_NAMES
    decreases |rows|
  {
    if rows == [] then []
    else
      var init, last := rows[..|rows| - 1], rows[|rows| - 1];
      assert rows == init + [last];
      var cats := Categories(init);
      if last.Category().Some? && last.Category().value !in cats then cats + [last.Category().value]
      else cats
  }

  /** `p.replace("_", " vs ")`: the tab label of a pair key. */
  function PairLabel(key: string): string
  {
    ReplaceAll(key, "_", " vs ")
  }

  /** `selected_tab.replace(" vs ", "_")`: the key the pair tab looks up. */
  function LabelKey(selected: string): string
  {
    ReplaceAll(selected, " vs ", "_")
  }

  /** The pair labels, in `pair_keys` order. */
  function PairLabels(): seq<string>
  {
    seq(|PAIR_KEYS|, i requires 0 <= i < |PAIR_KEYS| => PairLabel(PAIR_KEYS[i]))
  }

  /** `tabs`: Overview, Subject Characteristics, the categories, the pairs. */
  function TabList(cats: seq<string>): seq<string>
  {
    [OVERVIEW, SUBJECT_CHARACTERISTICS] + cats + PairLabels()
  }

  datatype View = OverviewTab | SubjectTab | CategoryTab(name: string) | PairTab(key: string)

  /** The if/elif chain over the selected label; anything not matched earlier
      is taken for a pair label. */
  function Dispatch(selected: string, cats: seq<string>): View
  {
    if selected == OVERVIEW then OverviewTab
    else if selected == SUBJECT_CHARACTERISTICS then SubjectTab
    else if selected in cats then CategoryTab(selected)
    else PairTab(LabelKey(selected))
  }

  /** A pair label reads "A vs B" for the key's two group names. */
  lemma {:induction false} PairLabelOfKey(p: Pair)
    ensures PairLabel(Key(p)) == GroupName(Members(p).0) + " vs " + GroupName(Members(p).1)
  {
    var (a, b) := Members(p);
    KeyJoinsMembers(p);
    GroupNameFacts(a);
    GroupNameFacts(b);
    ReplaceAllConcat(GroupName(a) + "_", GroupName(b), '_', " vs ");
    ReplaceAllConcat(GroupName(a), "_", '_', " vs ");
    ReplaceAllAbsent(GroupName(a), '_', " vs ");
    ReplaceAllAbsent(GroupName(b), '_', " vs ");
    assert ReplaceAll("_", "_", " vs ") == " vs " by {
      assert "_"[..1] == "_";
      assert "_"[1..] == [];
    }
  }

  /** Label and key are inverse: the pair tab looks up the key its label came from. */
  lemma PairLabelRoundTrip(p: Pair)
    ensures LabelKey(PairLabel(Key(p))) == Key(p)
  {
    KeyShape(p);
    UnderscoreRoundTrip(Key(p));
  }

  /** A pair label holds a blank and is at most 16 characters long. */
  lemma PairLabelShape(p: Pair)
    ensures ' ' in PairLabel(Key(p)) && |PairLabel(Key(p))| <= 16
  {
    PairLabelOfKey(p);
    var a, b := GroupName(Members(p).0), GroupName(Members(p).1);
    GroupNameShort(Members(p).0);
    GroupNameShort(Members(p).1);
    assert (a + " vs " + b)[|a|] == ' ';
  }

  lemma GroupNameShort(g: Group)
    ensures |GroupName(g)| <= 6
  {
  }

  lemma NoBlankInOtherLabels()
    ensures ' ' !in OVERVIEW
    ensures forall name :: name in CATEGORY_NAMES ==> ' ' !in name
  {
    assert ' ' !in DEMO_CLINICAL;
    assert ' ' !in "Spatio-temporal";
    assert ' ' !in "Kinematics";
    assert ' ' !in "Tele-signal";
    assert ' ' !in "Motor-identity";
    assert ' ' !in "Frequency";
    assert ' ' !in "TUG";
  }

  /** No pair label equals Overview, Subject Characteristics or a category label:
      a pair label holds a blank, which none of the shorter ones does. */
  lemma PairLabelIsNoOtherTab(p: Pair)
    ensures PairLabel(Key(p)) != OVERVIEW && PairLabel(Key(p)) != SUBJECT_CHARACTERISTICS
    ensures PairLabel(Key(p)) !in CATEGORY_NAMES
  {
    PairLabelShape(p);
    NoBlankInOtherLabels();
  }

  lemma PairLabelsAreKeys(t: string)
    ensures t in PairLabels() <==> exists p :: t == PairLabel(Key(p))
  {
    if t in PairLabels() {
      var i :| 0 <= i < |PAIR_KEYS| && PairLabels()[i] == t;
      PairLabelAt(i);
    }
    if exists p :: t == PairLabel(Key(p)) {
      var p :| t == PairLabel(Key(p));
      PairLabelAt(PairIndex(p));
    }
  }

  /** The six pair labels are distinct. */
  lemma PairLabelsDistinct(p: Pair, q: Pair)
    requires PairLabel(Key(p)) == PairLabel(Key(q))
    ensures p == q
  {
    PairLabelRoundTrip(p);
    PairLabelRoundTrip(q);
    KeyInjective(p, q);
  }

  /** Dispatch on a label taken from `tabs` reaches the view that label stands
      for; in particular the pair branch is reached exactly for pair labels,
      with the key the label was made from. */
  lemma DispatchOnTabs(rows: seq<Feature>, t: string)
    requires t in TabList(Categories(rows))
    ensures t == OVERVIEW ==> Dispatch(t, Categories(rows)) == OverviewTab
    ensures t == SUBJECT_CHARACTERISTICS ==> Dispatch(t, Categories(rows)) == SubjectTab
    ensures t in Categories(rows) ==> Dispatch(t, Categories(rows)) == CategoryTab(t)
    ensures Dispatch(t, Categories(rows)).PairTab? <==> t in PairLabels()
    ensures forall p :: t == PairLabel(Key(p)) ==> Dispatch(t, Categories(rows)) == PairTab(Key(p))
  {
    var cats := Categories(rows);
    PairLabelsAreKeys(t);
    forall p | t == PairLabel(Key(p))
      ensures t != OVERVIEW && t != SUBJECT_CHARACTERISTICS && t !in cats
      ensures Dispatch(t, cats) == PairTab(Key(p))
    {
      PairLabelIsNoOtherTab(p);
      PairLabelRoundTrip(p);
    }
    assert OVERVIEW != SUBJECT_CHARACTERISTICS;
    assert OVERVIEW !in CATEGORY_NAMES && SUBJECT_CHARACTERISTICS !in CATEGORY_NAMES;
  }

  lemma PairLabelAt(k: nat)
    requires k < |PAIR_KEYS|
    ensures PairLabels()[k] == PairLabel(Key(PAIRS[k]))
  {
    assert PairIndex(PAIRS[k]) == k;
  }

  lemma FixedLabelsApart()
    ensures OVERVIEW != SUBJECT_CHARACTERISTICS
    ensures OVERVIEW !in CATEGORY_NAMES && SUBJECT_CHARACTERISTICS !in CATEGORY_NAMES
  {
    NoBlankInOtherLabels();
    assert SUBJECT_CHARACTERISTICS[7] == ' ';
  }

  /** The six pair labels are pairwise different. */
  lemma PairLabelsAllDistinct()
    ensures Distinct(PairLabels())
  {
    var labels := PairLabels();
    forall i, j | 0 <= i < j < |labels| ensures labels[i] != labels[j] {
      PairLabelAt(i);
      PairLabelAt(j);
      PairIndexOf(i);
      PairIndexOf(j);
      if labels[i] == labels[j] {
        PairLabelsDistinct(PAIRS[i], PAIRS[j]);
      }
    }
  }

  lemma PairLabelApart(x: string, j: nat)
    requires x == OVERVIEW || x == SUBJECT_CHARACTERISTICS || x in CATEGORY_NAMES
    requires j < |PAIRS|
    ensures x != PairLabels()[j]
  {
    PairLabelAt(j);
    PairLabelIsNoOtherTab(PAIRS[j]);
  }

  lemma TabListDistinctFor(cats: seq<string>)
    requires Distinct(cats)
    requires forall i :: 0 <= i < |cats| ==> cats[i] in CATEGORY_NAMES
    ensures Distinct(TabList(cats))
  {
    var fixed := [OVERVIEW, SUBJECT_CHARACTERISTICS];
    var labels := PairLabels();
    FixedLabelsApart();
    DistinctAppend(fixed, cats);
    PairLabelsAllDistinct();
    forall i, j | 0 <= i < |fixed + cats| && 0 <= j < |labels| ensures (fixed + cats)[i] != labels[j] {
      var x := (fixed + cats)[i];
      assert x == OVERVIEW || x == SUBJECT_CHARACTERISTICS || x in CATEGORY_NAMES by {
        if i >= 2 {
          assert x == cats[i - 2];
        }
      }
      PairLabelApart(x, j);
    }
    DistinctAppend(fixed + cats, labels);
  }

  /** The tab list names every view once: no label occurs twice. */
  lemma TabListDistinct(rows: seq<Feature>)
    ensures Distinct(TabList(Categories(rows)))
  {
    TabListDistinctFor(Categories(rows));
  }
}
