/**
  The view builder of `main`: the date-range and dealer filter, the summary
  counts, the per-dealer visit summary, the issue-frequency table and the
  share of "Yes" answers per flag.
 */
module View {
  import opened Outcomes
  import opened Records
  import opened Counting
  import opened Ordering

  // ---------------------------------------------------------------- filter

  /**
    The filter mask for one visit: its day lies in [start, end] (a NaT time
    compares false with every day) and, when dealers are selected, its dealer
    is one of them.
   */
  predicate Keep(v: Visit, start: Date, end: Date, selected: seq<Cell>)
    ensures v.submitted.NaT? ==> !Keep(v, start, end, selected)
    ensures start > end ==> !Keep(v, start, end, selected)
    ensures selected != [] && v.dealer !in selected ==> !Keep(v, start, end, selected)
  {
    && v.submitted.At?
    && start <= v.submitted.date <= end
    && (selected == [] || v.dealer in selected)
  }

  /** `df[mask]`: the visits that pass the filter, in their original order. */
  function Filter(vs: seq<Visit>, start: Date, end: Date, selected: seq<Cell>): (r: seq<Visit>)
    ensures |r| <= |vs|
    ensures forall k :: 0 <= k < |r| ==> Keep(r[k], start, end, selected)
  {
    if vs == [] then []
    else
      var rest := Filter(vs[1..], start, end, selected);
      if Keep(vs[0], start, end, selected) then [vs[0]] + rest else rest
  }

  /** a is b with some elements left out, the rest in their original order. */
  ghost predicate IsSubsequence<T>(a: seq<T>, b: seq<T>)
    decreases |b|
  {
    if a == [] then true
    else if b == [] then false
    else (a[0] == b[0] && IsSubsequence(a[1..], b[1..])) || IsSubsequence(a, b[1..])
  }

  /** The filtered visits are an order-preserving subsequence of all visits. */
  lemma {:induction false} FilterIsSubsequence(vs: seq<Visit>, start: Date, end: Date, selected: seq<Cell>)
    ensures IsSubsequence(Filter(vs, start, end, selected), vs)
  {
    if vs != [] {
      FilterIsSubsequence(vs[1..], start, end, selected);
    }
  }

  /** A visit is kept exactly when it is one of the visits and passes the mask. */
  lemma {:induction false} FilterMembers(vs: seq<Visit>, start: Date, end: Date, selected: seq<Cell>)
    ensures forall v :: v in Filter(vs, start, end, selected) <==> v in vs && Keep(v, start, end, selected)
  {
    if vs != [] {
      FilterMembers(vs[1..], start, end, selected);
      assert vs == [vs[0]] + vs[1..];
    }
  }

  /** A range whose start lies after its end keeps nothing. */
  lemma FilterEmptyRange(vs: seq<Visit>, start: Date, end: Date, selected: seq<Cell>)
    requires start > end
    ensures Filter(vs, start, end, selected) == []
  {
  }

  /** Filtering again with the same settings changes nothing. */
  lemma {:induction false} FilterIdempotent(vs: seq<Visit>, start: Date, end: Date, selected: seq<Cell>)
    ensures Filter(Filter(vs, start, end, selected), start, end, selected) == Filter(vs, start, end, selected)
  {
    if vs != [] {
      FilterIdempotent(vs[1..], start, end, selected);
    }
  }

  /** The mask is applied row by row: filtering two stretches of visits filters each on its own. */
  lemma {:induction false} FilterAppend(a: seq<Visit>, b: seq<Visit>, start: Date, end: Date, selected: seq<Cell>)
    ensures Filter(a + b, start, end, selected) == Filter(a, start, end, selected) + Filter(b, start, end, selected)
  {
    if a != [] {
      assert (a + b)[1..] == a[1..] + b;
      FilterAppend(a[1..], b, start, end, selected);
    } else {
      assert a + b == b;
    }
  }

  /** Visits that all pass the mask are all kept, repeated visits included. */
  lemma {:induction false} FilterAllKept(vs: seq<Visit>, start: Date, end: Date, selected: seq<Cell>)
    requires forall k :: 0 <= k < |vs| ==> Keep(vs[k], start, end, selected)
    ensures Filter(vs, start, end, selected) == vs
  {
    if vs != [] {
      FilterAllKept(vs[1..], start, end, selected);
    }
  }

  // ---------------------------------------------------------------- summary counts

  /** The dealer column of the visits. */
  function Dealers(vs: seq<Visit>): (ds: seq<Cell>)
    ensures |ds| == |vs|
    ensures forall k :: 0 <= k < |vs| ==> ds[k] == vs[k].dealer
  {
    seq(|vs|, k requires 0 <= k < |vs| => vs[k].dealer)
  }

  /** The "Total Visits" metric, `len(filtered_df)`. */
  function TotalVisits(vs: seq<Visit>): (n: nat)
    ensures n == SumOcc(Dealers(vs), Distinct(Dealers(vs)))
  {
    SumOccDistinct(Dealers(vs));
    |vs|
  }

  /**
    The "Unique Dealers Visited" metric, `nunique()` of the dealer column:
    never more than the visits, and zero exactly when there are none.
   */
  function UniqueDealers(vs: seq<Visit>): (n: nat)
    ensures n <= TotalVisits(vs)
    ensures n == 0 <==> vs == []
  {
    var d := Distinct(Dealers(vs));
    assert vs != [] ==> Dealers(vs)[0] in d;
    |d|
  }

  // ---------------------------------------------------------------- dealer summary

  /** One row of the dealer summary table. */
  datatype SummaryRow = SummaryRow(dealer: Cell, visits: nat, code: Option<Cell>)

  function VisitsOf(row: SummaryRow): nat {
    row.visits
  }

  /**
    The dealers of the visits with a submission time: `count` of the
    timestamp column counts only those, NaT being missing.
   */
  function StampedDealers(vs: seq<Visit>): (ds: seq<Cell>)
    ensures |ds| <= |vs|
    ensures forall d :: d in ds <==> exists k :: 0 <= k < |vs| && vs[k].dealer == d && vs[k].submitted.At?
  {
    if vs == [] then []
    else
      var front := StampedDealers(vs[..|vs| - 1]);
      assert forall k :: 0 <= k < |vs| - 1 ==> vs[..|vs| - 1][k] == vs[k];
      if vs[|vs| - 1].submitted.At? then front + [vs[|vs| - 1].dealer] else front
  }

  /**
    The `'first'` aggregate of the dealer code for dealer d: the code of the
    first of d's visits whose code is not missing, or missing if none has one.
   */
  function FirstCode(vs: seq<Visit>, d: Cell): (c: Option<Cell>)
    ensures c.None? <==> forall k :: 0 <= k < |vs| && vs[k].dealer == d ==> vs[k].dealerCode.None?
    ensures c.Some? ==> exists k :: 0 <= k < |vs| && vs[k].dealer == d && vs[k].dealerCode == c &&
                                    (forall j :: 0 <= j < k && vs[j].dealer == d ==> vs[j].dealerCode.None?)
  {
    if vs == [] then None
    else if vs[0].dealer == d && vs[0].dealerCode.Some? then vs[0].dealerCode
    else
      var c := FirstCode(vs[1..], d);
      assert forall k :: 1 <= k < |vs| ==> vs[k] == vs[1..][k - 1];
      if c.Some? then
        var k :| 0 <= k < |vs[1..]| && vs[1..][k].dealer == d && vs[1..][k].dealerCode == c &&
                 (forall j :: 0 <= j < k && vs[1..][j].dealer == d ==> vs[1..][j].dealerCode.None?);
        assert vs[k + 1].dealer == d && vs[k + 1].dealerCode == c;
        c
      else c
  }

  /** The aggregated row of dealer d. */
  function RowFor(vs: seq<Visit>, d: Cell): (row: SummaryRow)
    ensures row.dealer == d
    ensures row.visits == 0 <==> forall k :: 0 <= k < |vs| && vs[k].dealer == d ==> vs[k].submitted.NaT?
    ensures row.code.None? <==> forall k :: 0 <= k < |vs| && vs[k].dealer == d ==> vs[k].dealerCode.None?
  {
    SummaryRow(d, Occ(StampedDealers(vs), d), FirstCode(vs, d))
  }

  /** The aggregated rows of the dealers ds, in the order of ds. */
  function GroupRows(vs: seq<Visit>, ds: seq<Cell>): (rows: seq<SummaryRow>)
    ensures |rows| == |ds|
    ensures forall i :: 0 <= i < |ds| ==> rows[i] == RowFor(vs, ds[i])
  {
    if ds == [] then [] else GroupRows(vs, ds[..|ds| - 1]) + [RowFor(vs, ds[|ds| - 1])]
  }

  /**
    `groupby('dealer').agg(count, first)` followed by
    `sort_values('Number of Visits', ascending=False)`: one row per dealer,
    largest visit count first. The order among equal counts is not promised.
   */
  function DealerSummary(vs: seq<Visit>): (rows: seq<SummaryRow>)
    ensures |rows| == UniqueDealers(vs)
    ensures NonIncreasing(rows, VisitsOf)
    ensures multiset(rows) == multiset(GroupRows(vs, Distinct(Dealers(vs))))
  {
    SortDesc(GroupRows(vs, Distinct(Dealers(vs))), VisitsOf)
  }

  /** Every visit of a filtered table has a submission time. */
  ghost predicate AllStamped(vs: seq<Visit>) {
    forall k :: 0 <= k < |vs| ==> vs[k].submitted.At?
  }

  lemma FilterAllStamped(vs: seq<Visit>, start: Date, end: Date, selected: seq<Cell>)
    ensures AllStamped(Filter(vs, start, end, selected))
  {
  }

  lemma {:induction false} StampedDealersOfStamped(vs: seq<Visit>)
    requires AllStamped(vs)
    ensures StampedDealers(vs) == Dealers(vs)
  {
    if vs != [] {
      StampedDealersOfStamped(vs[..|vs| - 1]);
    }
  }

  lemma {:induction false} SumOfGroupRows(vs: seq<Visit>, ds: seq<Cell>)
    ensures SumBy(GroupRows(vs, ds), VisitsOf) == SumOcc(StampedDealers(vs), ds)
  {
    if ds != [] {
      SumOfGroupRows(vs, ds[..|ds| - 1]);
      var rows := GroupRows(vs, ds);
      assert rows[..|rows| - 1] == GroupRows(vs, ds[..|ds| - 1]);
    }
  }

  /** Each summary row is the aggregate of one of the visits' dealers. */
  lemma DealerSummaryRows(vs: seq<Visit>)
    ensures var rows := DealerSummary(vs);
      forall i :: 0 <= i < |rows| ==> rows[i].dealer in Dealers(vs) && rows[i] == RowFor(vs, rows[i].dealer)
  {
    var ds := Distinct(Dealers(vs));
    var grouped := GroupRows(vs, ds);
    var rows := DealerSummary(vs);
    forall i | 0 <= i < |rows|
      ensures rows[i].dealer in Dealers(vs) && rows[i] == RowFor(vs, rows[i].dealer)
    {
      assert rows[i] in multiset(rows);
      assert rows[i] in multiset(grouped);
      var g :| 0 <= g < |grouped| && grouped[g] == rows[i];
      assert grouped[g] == RowFor(vs, ds[g]);
    }
  }

  /** Every dealer among the visits has a summary row. */
  lemma DealerSummaryCovers(vs: seq<Visit>)
    ensures var rows := DealerSummary(vs);
      forall d :: d in Dealers(vs) ==> exists i :: 0 <= i < |rows| && rows[i].dealer == d
  {
    var ds := Distinct(Dealers(vs));
    var grouped := GroupRows(vs, ds);
    var rows := DealerSummary(vs);
    forall d | d in Dealers(vs)
      ensures exists i :: 0 <= i < |rows| && rows[i].dealer == d
    {
      var g :| 0 <= g < |ds| && ds[g] == d;
      assert grouped[g].dealer == d;
      assert grouped[g] in multiset(grouped);
      assert grouped[g] in multiset(rows);
      var i :| 0 <= i < |rows| && rows[i] == grouped[g];
    }
  }

  /** No dealer has two summary rows. */
  lemma DealerSummaryDistinct(vs: seq<Visit>)
    ensures var rows := DealerSummary(vs);
      forall i, j :: 0 <= i < j < |rows| ==> rows[i].dealer != rows[j].dealer
  {
    var ds := Distinct(Dealers(vs));
    var grouped := GroupRows(vs, ds);
    var rows := DealerSummary(vs);
    assert NoDups(grouped) by {
      forall i, j | 0 <= i < j < |grouped| ensures grouped[i] != grouped[j] {
        assert grouped[i].dealer == ds[i] && grouped[j].dealer == ds[j];
      }
    }
    SortKeepsNoDups(grouped, VisitsOf);
    DealerSummaryRows(vs);
  }

  /** For visits that all have a submission time, the visit counts add up to the number of visits. */
  lemma DealerSummarySum(vs: seq<Visit>)
    requires AllStamped(vs)
    ensures SumBy(DealerSummary(vs), VisitsOf) == TotalVisits(vs)
  {
    var ds := Distinct(Dealers(vs));
    StampedDealersOfStamped(vs);
    SumOfGroupRows(vs, ds);
    SumOccDistinct(Dealers(vs));
    SumBySort(GroupRows(vs, ds), VisitsOf);
  }

  /**
    For visits that all have a submission time (as every filtered table
    does): the summary has one row per distinct dealer, each with that
    dealer's visit count (at least one) and first non-missing dealer code;
    the counts add up to the number of visits and never increase down the
    table.
   */
  lemma DealerSummaryFacts(vs: seq<Visit>)
    requires AllStamped(vs)
    ensures var rows := DealerSummary(vs);
      && |rows| == UniqueDealers(vs)
      && (forall i, j :: 0 <= i < j < |rows| ==> rows[i].dealer != rows[j].dealer)
      && (forall d :: d in Dealers(vs) <==> exists i :: 0 <= i < |rows| && rows[i].dealer == d)
      && (forall i :: 0 <= i < |rows| ==>
            rows[i].visits == Occ(Dealers(vs), rows[i].dealer) >= 1 &&
            rows[i].code == FirstCode(vs, rows[i].dealer))
      && SumBy(rows, VisitsOf) == TotalVisits(vs)
      && NonIncreasing(rows, VisitsOf)
  {
    StampedDealersOfStamped(vs);
    DealerSummaryRows(vs);
    DealerSummaryCovers(vs);
    DealerSummaryDistinct(vs);
    DealerSummarySum(vs);
  }

  // ---------------------------------------------------------------- issue frequency

  /**
    All issue tags of the visits, row by row, skipping visits whose issue list
    is missing (the `dropna()` before the `extend` loop).
   */
  function IssueData(vs: seq<Visit>): (data: seq<string>)
    ensures forall k, i :: 0 <= k < |vs| && vs[k].issues.Some? && 0 <= i < |vs[k].issues.value| ==>
                           vs[k].issues.value[i] in data
  {
    if vs == [] then []
    else
      var front := IssueData(vs[..|vs| - 1]);
      assert forall k :: 0 <= k < |vs| - 1 ==> vs[..|vs| - 1][k] == vs[k];
      match vs[|vs| - 1].issues
      case Some(tags) => front + tags
      case None => front
  }

  /** The loop `for issues in ...dropna(): issues_data.extend(issues)`. */
  method CollectIssues(vs: seq<Visit>) returns (data: seq<string>)
    ensures data == IssueData(vs)
  {
    data := [];
    for k := 0 to |vs|
      invariant data == IssueData(vs[..k])
    {
      assert vs[..k + 1][..k] == vs[..k];
      match vs[k].issues {
        case Some(tags) => data := data + tags;
        case None =>
      }
    }
    assert vs[..|vs|] == vs;
  }

  /** A tag is collected exactly when some visit's issue list holds it. */
  lemma {:induction false} IssueDataMembers(vs: seq<Visit>, tag: string)
    ensures tag in IssueData(vs) <==>
      exists k :: 0 <= k < |vs| && vs[k].issues.Some? && tag in vs[k].issues.value
  {
    if vs != [] {
      var front := vs[..|vs| - 1];
      IssueDataMembers(front, tag);
      assert forall k :: 0 <= k < |front| ==> front[k] == vs[k];
    }
  }

  /** Collecting from two stretches of visits joins their collected tags, in order and with repeats. */
  lemma {:induction false} IssueDataAppend(a: seq<Visit>, b: seq<Visit>)
    ensures IssueData(a + b) == IssueData(a) + IssueData(b)
    decreases |b|
  {
    var ab := a + b;
    if b == [] {
      assert ab == a;
    } else {
      var front := b[..|b| - 1];
      IssueDataAppend(a, front);
      assert ab[..|ab| - 1] == a + front;
      assert ab[|ab| - 1] == b[|b| - 1];
      match b[|b| - 1].issues {
        case Some(tags) =>
          assert IssueData(ab) == IssueData(a + front) + tags;
          assert IssueData(b) == IssueData(front) + tags;
        case None =>
          assert IssueData(ab) == IssueData(a + front);
          assert IssueData(b) == IssueData(front);
      }
    }
  }

  /** One row of the issue frequency table. */
  datatype IssueCount = IssueCount(tag: string, count: nat)

  function CountOf(row: IssueCount): nat {
    row.count
  }

  /** The rows of the tags ts, each with its number of occurrences in data, in the order of ts. */
  function TagRows(data: seq<string>, ts: seq<string>): (rows: seq<IssueCount>)
    ensures |rows| == |ts|
    ensures forall i :: 0 <= i < |ts| ==> rows[i] == IssueCount(ts[i], Occ(data, ts[i]))
  {
    if ts == [] then [] else TagRows(data, ts[..|ts| - 1]) + [IssueCount(ts[|ts| - 1], Occ(data, ts[|ts| - 1]))]
  }

  /** `pd.Series(issues_data).value_counts()`: one row per distinct tag, most frequent first. */
  function IssueFrequency(data: seq<string>): (rows: seq<IssueCount>)
    ensures |rows| == |Distinct(data)|
    ensures NonIncreasing(rows, CountOf)
    ensures multiset(rows) == multiset(TagRows(data, Distinct(data)))
  {
    SortDesc(TagRows(data, Distinct(data)), CountOf)
  }

  lemma {:induction false} SumOfTagRows(data: seq<string>, ts: seq<string>)
    ensures SumBy(TagRows(data, ts), CountOf) == SumOcc(data, ts)
  {
    if ts != [] {
      SumOfTagRows(data, ts[..|ts| - 1]);
      var rows := TagRows(data, ts);
      assert rows[..|rows| - 1] == TagRows(data, ts[..|ts| - 1]);
    }
  }

  /** Each frequency row counts the occurrences of one collected tag. */
  lemma IssueFrequencyRows(data: seq<string>)
    ensures var rows := IssueFrequency(data);
      forall i :: 0 <= i < |rows| ==> rows[i].tag in data && rows[i].count == Occ(data, rows[i].tag) >= 1
  {
    var ts := Distinct(data);
    var tagged := TagRows(data, ts);
    var rows := IssueFrequency(data);
    SortSameElements(tagged, CountOf);
    forall i | 0 <= i < |rows|
      ensures rows[i].tag in data && rows[i].count == Occ(data, rows[i].tag) >= 1
    {
      assert rows[i] in tagged;
      var g :| 0 <= g < |tagged| && tagged[g] == rows[i];
      assert tagged[g] == IssueCount(ts[g], Occ(data, ts[g]));
    }
  }

  /** Every collected tag has a frequency row. */
  lemma IssueFrequencyCovers(data: seq<string>)
    ensures var rows := IssueFrequency(data);
      forall t :: t in data ==> exists i :: 0 <= i < |rows| && rows[i].tag == t
  {
    var ts := Distinct(data);
    var tagged := TagRows(data, ts);
    var rows := IssueFrequency(data);
    SortSameElements(tagged, CountOf);
    forall t | t in data
      ensures exists i :: 0 <= i < |rows| && rows[i].tag == t
    {
      var g :| 0 <= g < |ts| && ts[g] == t;
      assert tagged[g].tag == t;
      assert tagged[g] in tagged;
      var i :| 0 <= i < |rows| && rows[i] == tagged[g];
    }
  }

  /** No tag has two frequency rows. */
  lemma IssueFrequencyDistinct(data: seq<string>)
    ensures var rows := IssueFrequency(data);
      forall i, j :: 0 <= i < j < |rows| ==> rows[i].tag != rows[j].tag
  {
    var ts := Distinct(data);
    var tagged := TagRows(data, ts);
    assert NoDups(tagged) by {
      forall i, j | 0 <= i < j < |tagged| ensures tagged[i] != tagged[j] {
        assert tagged[i].tag == ts[i] && tagged[j].tag == ts[j];
      }
    }
    SortKeepsNoDups(tagged, CountOf);
    IssueFrequencyRows(data);
  }

  /**
    The frequency table has one row per distinct tag, each counting that
    tag's occurrences (at least one); the counts add up to the number of
    collected tags and never increase down the table.
   */
  lemma IssueFrequencyFacts(data: seq<string>)
    ensures var rows := IssueFrequency(data);
      && (forall i, j :: 0 <= i < j < |rows| ==> rows[i].tag != rows[j].tag)
      && (forall t :: t in data <==> exists i :: 0 <= i < |rows| && rows[i].tag == t)
      && (forall i :: 0 <= i < |rows| ==> rows[i].count == Occ(data, rows[i].tag) >= 1)
      && SumBy(rows, CountOf) == |data|
      && NonIncreasing(rows, CountOf)
  {
    var ts := Distinct(data);
    IssueFrequencyRows(data);
    IssueFrequencyCovers(data);
    IssueFrequencyDistinct(data);
    SumOfTagRows(data, ts);
    SumOccDistinct(data);
    SumBySort(TagRows(data, ts), CountOf);
  }

  // ---------------------------------------------------------------- yes percentages

  /** The four yes/no flags, in the order the metrics chart shows them. */
  datatype Flag = Showroom | Swift | Lending | BuyNow

  /** The flags in chart order. */
  const FLAGS: seq<Flag> := [Showroom, Swift, Lending, BuyNow]

  function FlagValue(v: Visit, f: Flag): Option<bool> {
    match f
    case Showroom => v.showroom
    case Swift => v.swift
    case Lending => v.lending
    case BuyNow => v.buyNow
  }

  function FlagColumn(vs: seq<Visit>, f: Flag): (col: seq<Option<bool>>)
    ensures |col| == |vs|
    ensures forall k :: 0 <= k < |vs| ==> col[k] == FlagValue(vs[k], f)
  {
    seq(|vs|, k requires 0 <= k < |vs| => FlagValue(vs[k], f))
  }

  /**
    `mean()` of a flag column as a fraction: the "Yes" answers over the
    answered cells, missing cells skipped. No answered cell leaves the mean
    undefined (pandas' NaN).
   */
  datatype Ratio = Ratio(yes: nat, answered: nat)

  function YesRatio(col: seq<Option<bool>>): (r: Ratio)
    ensures r.yes <= r.answered <= |col|
    ensures r.answered == 0 <==> forall k :: 0 <= k < |col| ==> col[k].None?
    ensures r.yes == 0 <==> forall k :: 0 <= k < |col| ==> col[k] != Some(true)
  {
    if col == [] then Ratio(0, 0)
    else
      var front := YesRatio(col[..|col| - 1]);
      assert forall k :: 0 <= k < |col| - 1 ==> col[..|col| - 1][k] == col[k];
      match col[|col| - 1]
      case None => front
      case Some(b) => Ratio(front.yes + (if b then 1 else 0), front.answered + 1)
  }

  /** The four values of the metrics chart: Showroom, Swift, Lending, Buy Now. */
  function YesRatios(vs: seq<Visit>): (rs: seq<Ratio>)
    ensures |rs| == 4
    ensures forall i :: 0 <= i < 4 ==> rs[i].yes <= rs[i].answered <= |vs|
    ensures forall i :: 0 <= i < 4 ==>
      rs[i] == Ratio(Occ(FlagColumn(vs, FLAGS[i]), Some(true)), |vs| - Occ(FlagColumn(vs, FLAGS[i]), None))
  {
    forall i | 0 <= i < 4 {
      YesRatioCounts(FlagColumn(vs, FLAGS[i]));
    }
    [YesRatio(FlagColumn(vs, Showroom)), YesRatio(FlagColumn(vs, Swift)),
     YesRatio(FlagColumn(vs, Lending)), YesRatio(FlagColumn(vs, BuyNow))]
  }

  /** The ratio of two stacked columns adds their answers: the mean counts cells, not rows. */
  lemma {:induction false} YesRatioAppend(a: seq<Option<bool>>, b: seq<Option<bool>>)
    ensures YesRatio(a + b) == Ratio(YesRatio(a).yes + YesRatio(b).yes, YesRatio(a).answered + YesRatio(b).answered)
    decreases |b|
  {
    if b == [] {
      assert a + b == a;
    } else {
      var front := b[..|b| - 1];
      YesRatioAppend(a, front);
      assert (a + b)[..|a + b| - 1] == a + front;
    }
  }

  /** A column without missing cells is answered in every row. */
  lemma {:induction false} YesRatioComplete(col: seq<Option<bool>>)
    requires forall k :: 0 <= k < |col| ==> col[k].Some?
    ensures YesRatio(col).answered == |col|
  {
    if col != [] {
      YesRatioComplete(col[..|col| - 1]);
    }
  }

  /**
    The ratio in terms of counts: the "Yes" answers are the true cells and the
    answered cells are all cells but the missing ones.
   */
  lemma {:induction false} YesRatioCounts(col: seq<Option<bool>>)
    ensures YesRatio(col) == Ratio(Occ(col, Some(true)), |col| - Occ(col, None))
  {
    if col != [] {
      YesRatioCounts(col[..|col| - 1]);
    }
  }

  /**
    An empty view counts nothing: no visits, no dealers, no summary or
    frequency rows, and every flag has no answer (an undefined mean).
   */
  lemma EmptyView()
    ensures TotalVisits([]) == 0 && UniqueDealers([]) == 0
    ensures DealerSummary([]) == []
    ensures IssueFrequency(IssueData([])) == []
    ensures YesRatios([]) == [Ratio(0, 0), Ratio(0, 0), Ratio(0, 0), Ratio(0, 0)]
  {
    assert Distinct(Dealers([])) == [];
    assert Distinct(IssueData([])) == [];
  }

  // ---------------------------------------------------------------- a worked example

  /** Three visits on days 0, 1 and 4: dealers A, B, A; showroom Yes, No, Yes. */
  const DEALER_A: Cell := Text("Dealer A")
  const DEALER_B: Cell := Text("Dealer B")
  const VISIT_1: Visit := Visit(At(0, 0), DEALER_A, Some(Text("A1")), Some(true), None, None, None, None)
  const VISIT_2: Visit := Visit(At(1, 0), DEALER_B, Some(Text("B1")), Some(false), None, None, None, None)
  const VISIT_3: Visit := Visit(At(4, 0), DEALER_A, Some(Text("A1")), Some(true), None, None, None, None)

  /** Viewing days 0 to 1 with no dealer selected keeps the first two visits. */
  lemma ExampleFilter()
    ensures Filter([VISIT_1, VISIT_2, VISIT_3], 0, 1, []) == [VISIT_1, VISIT_2]
  {
    assert [VISIT_1, VISIT_2, VISIT_3][1..] == [VISIT_2, VISIT_3];
    assert [VISIT_2, VISIT_3][1..] == [VISIT_3];
    assert [VISIT_3][1..] == [];
    assert Filter([VISIT_3], 0, 1, []) == [];
    assert Filter([VISIT_2, VISIT_3], 0, 1, []) == [VISIT_2];
  }

  /** The two kept visits: two dealers, and half of the showroom answers are "Yes". */
  lemma ExampleCounts()
    ensures UniqueDealers([VISIT_1, VISIT_2]) == 2
    ensures YesRatio(FlagColumn([VISIT_1, VISIT_2], Showroom)) == Ratio(1, 2)
  {
    var f := [VISIT_1, VISIT_2];
    assert Dealers(f) == [DEALER_A, DEALER_B];
    assert Distinct([DEALER_A, DEALER_B]) == [DEALER_A, DEALER_B];
    var col := FlagColumn(f, Showroom);
    assert col == [Some(true), Some(false)];
    assert col[..1] == [Some(true)];
    assert YesRatio([Some(true)]) == Ratio(1, 1);
  }

  /** The two kept visits: one summary row per dealer, one visit each, with its own code. */
  lemma ExampleSummary()
    ensures multiset(DealerSummary([VISIT_1, VISIT_2])) ==
            multiset{SummaryRow(DEALER_A, 1, Some(Text("A1"))), SummaryRow(DEALER_B, 1, Some(Text("B1")))}
  {
    var f := [VISIT_1, VISIT_2];
    assert Dealers(f) == [DEALER_A, DEALER_B];
    assert Distinct([DEALER_A, DEALER_B]) == [DEALER_A, DEALER_B];
    assert f[..1] == [VISIT_1];
    assert StampedDealers([VISIT_1]) == [DEALER_A];
    assert StampedDealers(f) == [DEALER_A, DEALER_B];
    assert RowFor(f, DEALER_A) == SummaryRow(DEALER_A, 1, Some(Text("A1")));
    assert RowFor(f, DEALER_B) == SummaryRow(DEALER_B, 1, Some(Text("B1")));
  }
}
