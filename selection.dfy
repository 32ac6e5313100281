/** The row selection behind the dashboard: the significance filter, the
    per-category top-15 (`df_top`), the rows of one category tab and the rows
    of one pair tab. */
module Selection {
  import opened Seqs
  import opened Records
  import Strings

  const ANOVA_THRESHOLD: real := 0.05
  const KRUSKAL_THRESHOLD: real := 0.05
  const ETA_CUTOFF: real := 0.139
  const TOP_N: nat := 15
  const PAIR_TOP_N: nat := 20

  function Min(a: int, b: int): int
  {
    if a <= b then a else b
  }

  // ---------------------------------------------------------------------------
  // Significance filter

  predicate Significant(r: Feature)
  {
    r.anovaP < ANOVA_THRESHOLD && r.kruskalP < KRUSKAL_THRESHOLD && r.eta >= ETA_CUTOFF
  }

  /** `filtered_df_all`: the rows passing all three thresholds, in sheet order. */
  function SignificanceFilter(rows: seq<Feature>): (kept: seq<Feature>)
    ensures forall i :: 0 <= i < |kept| ==>
      kept[i] in rows && kept[i].anovaP < 0.05 && kept[i].kruskalP < 0.05 && kept[i].eta >= 0.139
    ensures forall i :: 0 <= i < |rows| && rows[i].anovaP < 0.05 && rows[i].kruskalP < 0.05 && rows[i].eta >= 0.139 ==>
      rows[i] in kept
    ensures multiset(kept) <= multiset(rows)
  {
    FilterFilterSub(rows, Significant, Significant);
    Filter(rows, Significant)
  }

  // ---------------------------------------------------------------------------
  // Category rows: `df[df["Category"] == label]`

  function HasCategory(name: string): Feature -> bool
  {
    (r: Feature) => r.Category() == Some(name)
  }

  /** The rows of `rows` labelled `name`, in order (the category tab's `cat_df`). */
  function CategoryRows(rows: seq<Feature>, name: string): (r: seq<Feature>)
    ensures forall i :: 0 <= i < |r| ==> r[i].Category() == Some(name) && r[i] in rows
    ensures forall i :: 0 <= i < |rows| && rows[i].Category() == Some(name) ==> rows[i] in r
  {
    Filter(rows, HasCategory(name))
  }

  // ---------------------------------------------------------------------------
  // sort_values(["Category", "Eta-Squared"], ascending=[True, False])

  /** Category order of pandas' sort: labels as Python compares strings, a
      missing label last. */
  predicate CategoryBefore(a: Option<string>, b: Option<string>)
  {
    match a
    case None => false
    case Some(x) => b.None? || Strings.Less(x, b.value)
  }

  /** `a` may precede `b`: a smaller category, or the same one and an eta at least as large. */
  predicate RankBefore(a: Feature, b: Feature)
  {
    CategoryBefore(a.Category(), b.Category()) || (a.Category() == b.Category() && a.eta >= b.eta)
  }

  lemma RankBeforeTotalPreorder()
    ensures TotalPreorder(RankBefore)
  {
    forall a: Feature, b: Feature ensures RankBefore(a, b) || RankBefore(b, a) {
      var x, y := a.Category(), b.Category();
      if x.Some? && y.Some? && x != y {
        Strings.LessTotal(x.value, y.value);
      }
    }
    forall a: Feature, b: Feature, c: Feature | RankBefore(a, b) && RankBefore(b, c)
      ensures RankBefore(a, c)
    {
      var x, y, z := a.Category(), b.Category(), c.Category();
      if x.Some? && y.Some? && z.Some? && CategoryBefore(x, y) && CategoryBefore(y, z) {
        Strings.LessTransitive(x.value, y.value, z.value);
      }
    }
  }

  /** Eta never increases from one row to any later one. */
  ghost predicate NonIncreasingEta(s: seq<Feature>)
  {
    forall i, j :: 0 <= i < j < |s| ==> s[i].eta >= s[j].eta
  }

  lemma SameCategoryRanked(s: seq<Feature>, name: string)
    requires Sorted(s, RankBefore)
    ensures NonIncreasingEta(CategoryRows(s, name))
  {
    FilterSorted(s, RankBefore, HasCategory(name));
    var t := CategoryRows(s, name);
    forall i, j | 0 <= i < j < |t| ensures t[i].eta >= t[j].eta {
      assert RankBefore(t[i], t[j]);
      assert t[i].Category() == t[j].Category() == Some(name);
      Strings.LessIrreflexive(name);
    }
  }

  // ---------------------------------------------------------------------------
  // groupby("Category").head(n)

  /** The rows of `s`, in order, that are among the first `n` of their category;
      rows with a missing category form no group and are dropped. */
  function HeadPerCategory(s: seq<Feature>, n: nat): (r: seq<Feature>)
    ensures forall i :: 0 <= i < |r| ==> r[i].Category().Some? && r[i] in s
    decreases |s|
  {
    if s == [] then []
    else
      var init, last := s[..|s| - 1], s[|s| - 1];
      var kept := HeadPerCategory(init, n);
      if last.Category().Some? && |CategoryRows(init, last.Category().value)| < n then kept + [last]
      else kept
  }

  /** One step of the head: the last row is kept exactly when it has a category
      that holds fewer than `n` rows before it. */
  lemma HeadPerCategorySnoc(s: seq<Feature>, n: nat)
    requires s != []
    ensures var init, last := s[..|s| - 1], s[|s| - 1];
      HeadPerCategory(s, n)
      == HeadPerCategory(init, n)
         + if last.Category().Some? && |CategoryRows(init, last.Category().value)| < n then [last] else []
  {
  }

  lemma CategoryRowsSnoc(init: seq<Feature>, last: Feature, name: string)
    ensures CategoryRows(init + [last], name)
         == CategoryRows(init, name) + if last.Category() == Some(name) then [last] else []
  {
    FilterConcat(init, [last], HasCategory(name));
    FilterSingleton(last, HasCategory(name));
  }

  /** Restricted to one category, the head is the first min(n, count) rows of that category. */
  lemma {:induction false} HeadPerCategoryRows(s: seq<Feature>, n: nat, name: string)
    ensures CategoryRows(HeadPerCategory(s, n), name)
         == CategoryRows(s, name)[..Min(n, |CategoryRows(s, name)|)]
    decreases |s|
  {
    if s != [] {
      var init, last := s[..|s| - 1], s[|s| - 1];
      assert s == init + [last];
      HeadPerCategoryRows(init, n, name);
      HeadPerCategorySnoc(s, n);
      var kept := HeadPerCategory(init, n);
      var before := CategoryRows(init, name);
      CategoryRowsSnoc(init, last, name);
      CategoryRowsSnoc(kept, last, name);
      if last.Category() == Some(name) {
        if |before| < n {
          assert CategoryRows(kept, name) == before;
        } else {
          assert (before + [last])[..n] == before[..n];
        }
      }
    }
  }

  /** When no category holds more than `n` rows and none is missing, the head keeps everything. */
  lemma {:induction false} HeadPerCategoryKeepsAll(s: seq<Feature>, n: nat)
    requires forall i :: 0 <= i < |s| ==> s[i].Category().Some?
    requires forall name :: |CategoryRows(s, name)| <= n
    ensures HeadPerCategory(s, n) == s
    decreases |s|
  {
    if s != [] {
      var init, last := s[..|s| - 1], s[|s| - 1];
      assert s == init + [last];
      forall name ensures |CategoryRows(init, name)| <= n {
        CategoryRowsSnoc(init, last, name);
        assert |CategoryRows(s, name)| <= n;
      }
      HeadPerCategoryKeepsAll(init, n);
      var c := last.Category().value;
      CategoryRowsSnoc(init, last, c);
      assert |CategoryRows(s, c)| <= n;
    }
  }

  // ---------------------------------------------------------------------------
  // df_top and the category tab

  /** `df_top`: the significant rows sorted by category and descending eta,
      at most TOP_N of each category. */
  function TopPerCategory(rows: seq<Feature>): seq<Feature>
  {
    HeadPerCategory(Sort(SignificanceFilter(rows), RankBefore), TOP_N)
  }

  /** Every `df_top` row passes all three thresholds and has a mapped category. */
  lemma TopRowsSignificant(rows: seq<Feature>)
    ensures forall r :: r in TopPerCategory(rows) ==>
      r.anovaP < 0.05 && r.kruskalP < 0.05 && r.eta >= 0.139 && 1 <= r.code <= 7
  {
    var f := SignificanceFilter(rows);
    RankBeforeTotalPreorder();
    SortSpec(f, RankBefore);
    forall r | r in TopPerCategory(rows)
      ensures r.anovaP < 0.05 && r.kruskalP < 0.05 && r.eta >= 0.139 && 1 <= r.code <= 7
    {
      assert r in Sort(f, RankBefore);
      assert r in multiset(f);
    }
  }

  /** The category tab's rows are the eta-ranked significant rows of that category, cut at TOP_N. */
  lemma CategoryViewPrefix(rows: seq<Feature>, name: string)
    ensures var ranked := CategoryRows(Sort(SignificanceFilter(rows), RankBefore), name);
      && multiset(ranked) == multiset(CategoryRows(SignificanceFilter(rows), name))
      && NonIncreasingEta(ranked)
      && CategoryRows(TopPerCategory(rows), name) == ranked[..Min(TOP_N, |ranked|)]
  {
    var f := SignificanceFilter(rows);
    RankBeforeTotalPreorder();
    SortSpec(f, RankBefore);
    FilterPermutation(Sort(f, RankBefore), f, HasCategory(name));
    SameCategoryRanked(Sort(f, RankBefore), name);
    HeadPerCategoryRows(Sort(f, RankBefore), TOP_N, name);
  }

  /** The category tab shows min(15, count) rows, all taken from that category's significant rows. */
  lemma CategoryViewSize(rows: seq<Feature>, name: string)
    ensures var view := CategoryRows(TopPerCategory(rows), name);
            var pool := CategoryRows(SignificanceFilter(rows), name);
      && multiset(view) <= multiset(pool)
      && |view| == Min(TOP_N, |pool|)
  {
    CategoryViewPrefix(rows, name);
    var ranked := CategoryRows(Sort(SignificanceFilter(rows), RankBefore), name);
    var pool := CategoryRows(SignificanceFilter(rows), name);
    PrefixSubMultiset(ranked, Min(TOP_N, |ranked|));
    assert |ranked| == |multiset(ranked)| == |multiset(pool)| == |pool|;
  }

  /** The category tab lists its rows by non-increasing eta. */
  lemma CategoryViewOrdered(rows: seq<Feature>, name: string)
    ensures NonIncreasingEta(CategoryRows(TopPerCategory(rows), name))
  {
    CategoryViewPrefix(rows, name);
  }

  /** In a list by non-increasing eta, everything past position k is at most
      everything before it. */
  lemma CutIsTop(ranked: seq<Feature>, k: nat)
    requires k <= |ranked| && NonIncreasingEta(ranked)
    ensures forall x, y :: x in multiset(ranked[k..]) && y in ranked[..k] ==> x.eta <= y.eta
  {
    forall x, y | x in multiset(ranked[k..]) && y in ranked[..k] ensures x.eta <= y.eta {
      var j :| 0 <= j < |ranked[k..]| && ranked[k..][j] == x;
      var i :| 0 <= i < k && ranked[..k][i] == y;
      assert ranked[i] == y && ranked[k + j] == x;
    }
  }

  /** The top 15 is the top: a significant row of the category that was left
      out has an eta no larger than that of any row shown. */
  lemma CategoryViewIsTop(rows: seq<Feature>, name: string)
    ensures var view := CategoryRows(TopPerCategory(rows), name);
            var pool := CategoryRows(SignificanceFilter(rows), name);
      forall x, y :: x in multiset(pool) - multiset(view) && y in view ==> x.eta <= y.eta
  {
    CategoryViewPrefix(rows, name);
    var ranked := CategoryRows(Sort(SignificanceFilter(rows), RankBefore), name);
    var k := Min(TOP_N, |ranked|);
    CutIsTop(ranked, k);
    CutRemainder(ranked, k);
  }

  lemma CutRemainder<T>(s: seq<T>, k: nat)
    requires k <= |s|
    ensures multiset(s) - multiset(s[..k]) == multiset(s[k..])
  {
    assert s == s[..k] + s[k..];
  }

  /** Each category holds at most TOP_N rows of `df_top`. */
  lemma TopPerCategoryBounded(rows: seq<Feature>)
    ensures forall name :: |CategoryRows(TopPerCategory(rows), name)| <= TOP_N
  {
    forall name ensures |CategoryRows(TopPerCategory(rows), name)| <= TOP_N {
      CategoryViewSize(rows, name);
    }
  }

  // ---------------------------------------------------------------------------
  // The pair tab

  predicate OutsideDemoClinical(r: Feature)
  {
    r.Category() != Some(DEMO_CLINICAL)
  }

  function Flagged(p: Pair): Feature -> bool
  {
    (r: Feature) => r.FlaggedFor(p)
  }

  /** `sort_values("Eta-Squared", ascending=False)`. */
  predicate EtaBefore(a: Feature, b: Feature)
  {
    a.eta >= b.eta
  }

  /** The pair tab's pool: the `df_top` rows outside Demo+Clinical flagged for
      `p`, sorted by descending eta. */
  function PairPool(top: seq<Feature>, p: Pair): seq<Feature>
  {
    Sort(Filter(Filter(top, OutsideDemoClinical), Flagged(p)), EtaBefore)
  }

  /** `top10_df`: the pool, at most PAIR_TOP_N rows of each category. */
  function PairRows(top: seq<Feature>, p: Pair): seq<Feature>
  {
    HeadPerCategory(PairPool(top, p), PAIR_TOP_N)
  }

  lemma EtaBeforeTotalPreorder()
    ensures TotalPreorder(EtaBefore)
  {
  }

  lemma PairPoolCategoryBound(top: seq<Feature>, p: Pair, name: string)
    ensures |CategoryRows(PairPool(top, p), name)| <= |CategoryRows(top, name)|
  {
    var a := Filter(top, OutsideDemoClinical);
    var b := Filter(a, Flagged(p));
    EtaBeforeTotalPreorder();
    SortSpec(b, EtaBefore);
    FilterPermutation(PairPool(top, p), b, HasCategory(name));
    FilterFilterSub(a, Flagged(p), HasCategory(name));
    FilterFilterSub(top, OutsideDemoClinical, HasCategory(name));
    SubMultisetLength(CategoryRows(PairPool(top, p), name), CategoryRows(top, name));
  }

  lemma PairPoolMember(top: seq<Feature>, p: Pair, r: Feature)
    requires r in PairPool(top, p)
    ensures r.Category() != Some(DEMO_CLINICAL) && r.flags.Of(p) == 1
  {
    var a := Filter(top, OutsideDemoClinical);
    var b := Filter(a, Flagged(p));
    EtaBeforeTotalPreorder();
    SortSpec(b, EtaBefore);
    assert r in multiset(b);
    var i :| 0 <= i < |b| && b[i] == r;
    assert r in a;
  }

  lemma PairPoolSpec(top: seq<Feature>, p: Pair)
    ensures multiset(PairPool(top, p)) <= multiset(top)
    ensures Sorted(PairPool(top, p), EtaBefore)
    ensures forall name :: |CategoryRows(PairPool(top, p), name)| <= |CategoryRows(top, name)|
    ensures forall r :: r in PairPool(top, p) ==> r.Category() != Some(DEMO_CLINICAL) && r.flags.Of(p) == 1
    ensures forall r :: r in top && r.Category() != Some(DEMO_CLINICAL) && r.flags.Of(p) == 1 ==> r in PairPool(top, p)
    ensures multiset(PairPool(top, p)) == multiset(Filter(Filter(top, OutsideDemoClinical), Flagged(p)))
  {
    var a := Filter(top, OutsideDemoClinical);
    var b := Filter(a, Flagged(p));
    EtaBeforeTotalPreorder();
    SortSpec(b, EtaBefore);
    FilterFilterSub(top, OutsideDemoClinical, OutsideDemoClinical);
    FilterFilterSub(a, Flagged(p), Flagged(p));
    forall name ensures |CategoryRows(PairPool(top, p), name)| <= |CategoryRows(top, name)| {
      PairPoolCategoryBound(top, p, name);
    }
    forall r | r in PairPool(top, p) ensures r.Category() != Some(DEMO_CLINICAL) && r.flags.Of(p) == 1 {
      PairPoolMember(top, p, r);
    }
    forall r | r in top && r.Category() != Some(DEMO_CLINICAL) && r.flags.Of(p) == 1
      ensures r in PairPool(top, p)
    {
      var i :| 0 <= i < |top| && top[i] == r;
      assert r in a;
      var j :| 0 <= j < |a| && a[j] == r;
      assert r in b;
      assert r in multiset(PairPool(top, p));
    }
  }

  /** On `df_top` the pair tab's `head(20)` removes nothing: every category
      already holds at most 15 rows. */
  lemma PairHeadKeepsAll(rows: seq<Feature>, p: Pair)
    ensures PairRows(TopPerCategory(rows), p) == PairPool(TopPerCategory(rows), p)
    ensures forall name :: |CategoryRows(PairRows(TopPerCategory(rows), p), name)| <= TOP_N
  {
    var top := TopPerCategory(rows);
    var pool := PairPool(top, p);
    PairPoolSpec(top, p);
    TopPerCategoryBounded(rows);
    forall i | 0 <= i < |pool| ensures pool[i].Category().Some? {
      assert pool[i] in multiset(top);
    }
    HeadPerCategoryKeepsAll(pool, PAIR_TOP_N);
  }

  /** The pair tab shows exactly the `df_top` rows outside Demo+Clinical that
      are flagged for the pair, each as often as in `df_top`, by non-increasing eta. */
  lemma PairViewSpec(rows: seq<Feature>, p: Pair)
    ensures var view := PairRows(TopPerCategory(rows), p);
      && multiset(view) <= multiset(TopPerCategory(rows))
      && (forall r :: r in view ==> r.Category() != Some(DEMO_CLINICAL) && r.flags.Of(p) == 1)
      && NonIncreasingEta(view)
    ensures multiset(PairRows(TopPerCategory(rows), p))
      == multiset(Filter(Filter(TopPerCategory(rows), OutsideDemoClinical), Flagged(p)))
  {
    PairHeadKeepsAll(rows, p);
    PairPoolSpec(TopPerCategory(rows), p);
  }
}
