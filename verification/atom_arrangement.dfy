/** The device atom-arrangement validator: a register is a list of 2-D
    sites and a filling list; its five pre root validators run in order and
    the first failure ends validation. */
module AtomArrangement {
  import opened Wrappers
  import opened AhsCapabilities
  import opened AhsFields

  /** A site's (x, y) coordinates in metres. */
  type Site = (real, real)

  datatype Register = Register(sites: seq<Site>, filling: seq<int>)

  // ---------------------------------------------------------------------
  // Sorting the sites by y, stably, as Python's `sorted` does
  // ---------------------------------------------------------------------

  predicate SortedByY(s: seq<Site>) {
    forall i, j :: 0 <= i < j < |s| ==> s[i].1 <= s[j].1
  }

  /** The sites at height y, in list order.  A sort by y is stable exactly
      when it keeps every row in this order. */
  function Row(s: seq<Site>, y: real): seq<Site> {
    if |s| == 0 then []
    else Row(s[..|s| - 1], y) + (if s[|s| - 1].1 == y then [s[|s| - 1]] else [])
  }

  /** Inserts x after every element whose y is at most x's, so that earlier
      elements with the same y stay in front of it. */
  function InsertByY(x: Site, s: seq<Site>): (r: seq<Site>)
    requires SortedByY(s)
    ensures SortedByY(r)
    ensures multiset(r) == multiset(s) + multiset{x}
    ensures forall y :: y in r <==> y in s || y == x
  {
    if |s| == 0 then [x]
    else if s[|s| - 1].1 <= x.1 then s + [x]
    else
      var last := s[|s| - 1];
      var front := s[..|s| - 1];
      assert s == front + [last];
      var r := InsertByY(x, front) + [last];
      assert forall y :: y in InsertByY(x, front) ==> y.1 <= last.1;
      r
  }

  /** Insertion puts x behind every site of its own row: each row gains x
      at its end and otherwise keeps its order. */
  lemma {:induction false} InsertByYKeepsRows(x: Site, s: seq<Site>, y: real)
    requires SortedByY(s)
    ensures Row(InsertByY(x, s), y) == Row(s, y) + (if x.1 == y then [x] else [])
    decreases |s|
  {
    if |s| == 0 {
      RowSnoc([], x, y);
    } else if s[|s| - 1].1 <= x.1 {
      RowSnoc(s, x, y);
    } else {
      var front, last := s[..|s| - 1], s[|s| - 1];
      assert s == front + [last];
      var r := InsertByY(x, front);
      assert InsertByY(x, s) == r + [last];
      InsertByYKeepsRows(x, front, y);
      RowSnoc(r, last, y);
      RowSnoc(front, last, y);
      if last.1 == y {
        assert x.1 != y;
        assert Row(r, y) == Row(front, y) + [];
        assert Row(r, y) == Row(front, y);
        assert Row(InsertByY(x, s), y) == Row(r, y) + [last];
      } else {
        assert Row(InsertByY(x, s), y) == Row(front, y) + (if x.1 == y then [x] else []);
      }
    }
  }

  lemma RowSnoc(s: seq<Site>, z: Site, y: real)
    ensures Row(s + [z], y) == Row(s, y) + (if z.1 == y then [z] else [])
  {
    assert (s + [z])[..|s|] == s;
  }

  /** `sorted(sites, key=lambda xy: xy[1])`: sorted by y, and stable, so
      every row keeps the list's order. */
  function SortByY(s: seq<Site>): (r: seq<Site>)
    ensures SortedByY(r)
    ensures multiset(r) == multiset(s)
    ensures forall y :: y in r <==> y in s
    ensures forall y :: Row(r, y) == Row(s, y)
  {
    if |s| == 0 then []
    else
      var front := SortByY(s[..|s| - 1]);
      assert s == s[..|s| - 1] + [s[|s| - 1]];
      assert forall y :: Row(InsertByY(s[|s| - 1], front), y) == Row(s, y) by {
        forall y ensures Row(InsertByY(s[|s| - 1], front), y) == Row(s, y) {
          InsertByYKeepsRows(s[|s| - 1], front, y);
        }
      }
      InsertByY(s[|s| - 1], front)
  }

  // ---------------------------------------------------------------------
  // The row rule
  // ---------------------------------------------------------------------

  /** The minimum row distance: a fixed 2 micrometres on devices with local
      Rydberg control, the device's MIN_ROW_DISTANCE otherwise. */
  function RowThreshold(caps: Constants): (d: real)
    ensures caps.localRydberg ==> d == 0.000002
    ensures !caps.localRydberg ==> d == caps.minRowDistance
  {
    if caps.localRydberg then 0.000002 else caps.minRowDistance
  }

  /** Any two sites are in the same row or at least d apart in y. */
  ghost predicate RowsSeparated(sites: seq<Site>, d: real) {
    forall a, b | a in sites && b in sites :: a.1 == b.1 || Abs(a.1 - b.1) >= d
  }

  /** Whether the consecutive pair (i, i + 1) is a violation. */
  predicate RowGapBad(s: seq<Site>, d: real, i: nat) {
    i + 1 < |s| && Abs(s[i].1 - s[i + 1].1) != 0.0 && Abs(s[i].1 - s[i + 1].1) < d
  }

  /** The loop over consecutive pairs of the sorted sites. */
  function CheckRows(sorted: seq<Site>, d: real): (r: Outcome<AhsError>)
    ensures r.Pass? <==> forall i: nat :: i + 1 < |sorted| ==> !RowGapBad(sorted, d, i)
    ensures r.Fail? ==> exists i: nat ::
      && i + 1 < |sorted| && RowGapBad(sorted, d, i)
      && r.error == RowsTooClose(sorted[i], sorted[i + 1], Abs(sorted[i].1 - sorted[i + 1].1))
    ensures r.Fail? ==>
      && r.error.RowsTooClose?
      && r.error.lower in sorted && r.error.upper in sorted
      && 0.0 < r.error.distance < d
      && r.error.distance == Abs(r.error.lower.1 - r.error.upper.1)
  {
    if |sorted| < 2 then Pass
    else
      var bad := (i: nat) => RowGapBad(sorted, d, i);
      match FirstIndex(|sorted| - 1, bad, 0)
      case None =>
        assert forall i: nat :: i + 1 < |sorted| ==> !RowGapBad(sorted, d, i) by {
          forall i: nat | i + 1 < |sorted| ensures !RowGapBad(sorted, d, i) { assert !bad(i); }
        }
        Pass
      case Some(i) =>
        assert bad(i);
        assert sorted[i] in sorted && sorted[i + 1] in sorted;
        Fail(RowsTooClose(sorted[i], sorted[i + 1], Abs(sorted[i].1 - sorted[i + 1].1)))
  }

  /** In a sorted list whose consecutive gaps are all zero or at least d,
      every pair is. */
  lemma {:induction false} SortedGap(s: seq<Site>, d: real, i: nat, j: nat)
    requires SortedByY(s)
    requires forall k: nat :: k + 1 < |s| ==> !RowGapBad(s, d, k)
    requires i <= j < |s|
    ensures s[j].1 == s[i].1 || s[j].1 - s[i].1 >= d
    decreases j - i
  {
    if i < j {
      SortedGap(s, d, i, j - 1);
      assert !RowGapBad(s, d, j - 1);
    }
  }

  /** The row rule passes exactly when every two sites are in one row or at
      least the threshold apart: checking the sorted neighbours suffices. */
  lemma RowsCheckMeaning(sites: seq<Site>, d: real)
    ensures CheckRows(SortByY(sites), d).Pass? <==> RowsSeparated(sites, d)
  {
    var s := SortByY(sites);
    if CheckRows(s, d).Pass? {
      SortedRowsSeparated(s, d);
    } else {
      var i: nat :| i + 1 < |s| && RowGapBad(s, d, i);
      assert s[i] in sites && s[i + 1] in sites;
    }
  }

  /** A sorted list that passes the neighbour check has every pair of
      sites in one row or at least d apart. */
  lemma SortedRowsSeparated(s: seq<Site>, d: real)
    requires SortedByY(s)
    requires forall i: nat :: i + 1 < |s| ==> !RowGapBad(s, d, i)
    ensures RowsSeparated(s, d)
  {
    forall a, b | a in s && b in s
      ensures a.1 == b.1 || Abs(a.1 - b.1) >= d
    {
      var i :| 0 <= i < |s| && s[i] == a;
      var j :| 0 <= j < |s| && s[j] == b;
      if i <= j {
        SortedGap(s, d, i, j);
      } else {
        SortedGap(s, d, j, i);
      }
    }
  }

  // ---------------------------------------------------------------------
  // The other rules
  // ---------------------------------------------------------------------

  /** Both coordinates are multiples of the site precision. */
  predicate SiteOnGrid(s: Site, p: real) {
    IsMultipleOf(s.0, p) && IsMultipleOf(s.1, p)
  }

  /** The precision rule, reporting the first offending site by index; a
      zero precision makes the first remainder fail. */
  function CheckSitePrecision(sites: seq<Site>, p: real): (r: Outcome<AhsError>)
    ensures r.Pass? <==> forall i :: 0 <= i < |sites| ==> SiteOnGrid(sites[i], p)
    ensures r.Fail? && p == 0.0 ==> r.error == ZeroPrecision("sites")
    ensures r.Fail? && p != 0.0 ==>
      && r.error.SiteTooPrecise? && r.error.index < |sites|
      && !SiteOnGrid(sites[r.error.index], p)
      && forall i :: 0 <= i < r.error.index ==> SiteOnGrid(sites[i], p)
  {
    if |sites| == 0 then Pass
    else if p == 0.0 then
      assert !SiteOnGrid(sites[0], p);
      Fail(ZeroPrecision("sites"))
    else
      var bad := (i: nat) => i < |sites| && !SiteOnGrid(sites[i], p);
      match FirstIndex(|sites|, bad, 0)
      case None =>
        assert forall i :: 0 <= i < |sites| ==> SiteOnGrid(sites[i], p) by {
          forall i | 0 <= i < |sites| ensures SiteOnGrid(sites[i], p) { assert !bad(i); }
        }
        Pass
      case Some(k) =>
        assert bad(k);
        assert forall i :: 0 <= i < k ==> SiteOnGrid(sites[i], p) by {
          forall i | 0 <= i < k ensures SiteOnGrid(sites[i], p) { assert !bad(i); }
        }
        Fail(SiteTooPrecise(k))
  }

  function Sum(xs: seq<int>): int {
    if |xs| == 0 then 0 else Sum(xs[..|xs| - 1]) + xs[|xs| - 1]
  }

  // ---------------------------------------------------------------------
  // The validator
  // ---------------------------------------------------------------------

  /** Everything the validator demands of a register, stated without the
      sort: at least one site, every site on the precision grid, not too
      many sites, rows far enough apart, not too many filled sites. */
  ghost predicate ArrangementOk(caps: Constants, reg: Register) {
    && |reg.sites| > 0
    && (forall s | s in reg.sites :: SiteOnGrid(s, caps.sitePrecision))
    && |reg.sites| <= caps.maxSites
    && RowsSeparated(reg.sites, RowThreshold(caps))
    && Sum(reg.filling) <= caps.maxFilledSites
  }

  /** The five pre root validators in their declared order; each error
      carries the facts its message reports. */
  function AtomArrangementValidate(caps: Constants, reg: Register): (r: Outcome<AhsError>)
    ensures r == Fail(NoSites) <==> |reg.sites| == 0
    ensures r.Fail? && r.error.SiteTooPrecise? ==>
      && r.error.index < |reg.sites|
      && !SiteOnGrid(reg.sites[r.error.index], caps.sitePrecision)
    ensures r.Fail? && r.error.TooManySites? ==> r.error.count == |reg.sites| > caps.maxSites
    ensures r.Fail? && r.error.RowsTooClose? ==>
      && r.error.lower in reg.sites && r.error.upper in reg.sites
      && 0.0 < r.error.distance < RowThreshold(caps)
      && r.error.distance == Abs(r.error.lower.1 - r.error.upper.1)
    ensures r.Fail? && r.error.TooManyFilledSites? ==> r.error.filled == Sum(reg.filling) > caps.maxFilledSites
    ensures r.Fail? ==> Raises(r.error) == ValueError || r.error == ZeroPrecision("sites")
  {
    var precision := CheckSitePrecision(reg.sites, caps.sitePrecision);
    var rows := CheckRows(SortByY(reg.sites), RowThreshold(caps));
    if |reg.sites| == 0 then Fail(NoSites)
    else if precision.Fail? then precision
    else if |reg.sites| > caps.maxSites then Fail(TooManySites(|reg.sites|, caps.maxSites))
    else if rows.Fail? then rows
    else if Sum(reg.filling) > caps.maxFilledSites then Fail(TooManyFilledSites(Sum(reg.filling), caps.maxFilledSites))
    else Pass
  }

  /** The rules fire in a fixed order: each clause names the first rule the
      register breaks and says the outcome is that rule's own report. */
  lemma AtomArrangementPriority(caps: Constants, reg: Register)
    ensures (|reg.sites| > 0 && !(forall s | s in reg.sites :: SiteOnGrid(s, caps.sitePrecision))) ==>
      AtomArrangementValidate(caps, reg) == CheckSitePrecision(reg.sites, caps.sitePrecision)
    ensures (|reg.sites| > 0 && (forall s | s in reg.sites :: SiteOnGrid(s, caps.sitePrecision))
             && |reg.sites| > caps.maxSites) ==>
      AtomArrangementValidate(caps, reg) == Fail(TooManySites(|reg.sites|, caps.maxSites))
    ensures (|reg.sites| > 0 && (forall s | s in reg.sites :: SiteOnGrid(s, caps.sitePrecision))
             && |reg.sites| <= caps.maxSites && !RowsSeparated(reg.sites, RowThreshold(caps))) ==>
      AtomArrangementValidate(caps, reg) == CheckRows(SortByY(reg.sites), RowThreshold(caps))
    ensures (|reg.sites| > 0 && (forall s | s in reg.sites :: SiteOnGrid(s, caps.sitePrecision))
             && |reg.sites| <= caps.maxSites && RowsSeparated(reg.sites, RowThreshold(caps))) ==>
      AtomArrangementValidate(caps, reg) == (if Sum(reg.filling) > caps.maxFilledSites
            then Fail(TooManyFilledSites(Sum(reg.filling), caps.maxFilledSites)) else Pass)
  {
    SitePrecisionMeaning(reg.sites, caps.sitePrecision);
    RowsCheckMeaning(reg.sites, RowThreshold(caps));
  }


  /** The validator accepts exactly the registers that meet every rule,
      stated without the sort. */
  lemma AtomArrangementMeaning(caps: Constants, reg: Register)
    ensures AtomArrangementValidate(caps, reg).Pass? <==> ArrangementOk(caps, reg)
  {
    SitePrecisionMeaning(reg.sites, caps.sitePrecision);
    RowsCheckMeaning(reg.sites, RowThreshold(caps));
  }

  /** The precision rule passes exactly when every listed site is on the
      grid. */
  lemma SitePrecisionMeaning(sites: seq<Site>, p: real)
    ensures CheckSitePrecision(sites, p).Pass? <==> forall s | s in sites :: SiteOnGrid(s, p)
  {
    if forall i :: 0 <= i < |sites| ==> SiteOnGrid(sites[i], p) {
      forall s | s in sites ensures SiteOnGrid(s, p) {
        var i :| 0 <= i < |sites| && sites[i] == s;
      }
    }
  }

  /** The verdict does not depend on the order in which the sites are
      listed: only which sites there are matters. */
  lemma SiteOrderIrrelevant(caps: Constants, a: Register, b: Register)
    requires multiset(a.sites) == multiset(b.sites)
    requires a.filling == b.filling
    ensures AtomArrangementValidate(caps, a).Pass? <==> AtomArrangementValidate(caps, b).Pass?
  {
    assert |a.sites| == |multiset(a.sites)| == |b.sites|;
    assert forall s :: s in a.sites <==> s in b.sites by {
      forall s ensures s in a.sites <==> s in b.sites {
        assert s in a.sites <==> s in multiset(a.sites);
        assert s in b.sites <==> s in multiset(b.sites);
      }
    }
    AtomArrangementMeaning(caps, a);
    AtomArrangementMeaning(caps, b);
  }

  /** Sites in one row pass the row rule whatever their spacing. */
  lemma OneRowPasses(sites: seq<Site>, y: real, d: real)
    requires forall s | s in sites :: s.1 == y
    ensures CheckRows(SortByY(sites), d).Pass?
  {
    RowsCheckMeaning(sites, d);
  }

  /** A list already sorted by y is left exactly as it is: equal-y sites
      are never reordered. */
  lemma {:induction false} SortByYKeepsSorted(s: seq<Site>)
    requires SortedByY(s)
    ensures SortByY(s) == s
    decreases |s|
  {
    if |s| > 0 {
      var front := s[..|s| - 1];
      assert SortedByY(front);
      SortByYKeepsSorted(front);
      assert s == front + [s[|s| - 1]];
    }
  }

  /** Sites (0, 0), (5, 0), (0, 1) are already sorted by y, and the
      stable sort leaves (5, 0) between the other two. */
  lemma StableSortExample()
    ensures SortByY([(0.0, 0.0), (5.0, 0.0), (0.0, 1.0)]) == [(0.0, 0.0), (5.0, 0.0), (0.0, 1.0)]
  {
    SortByYKeepsSorted([(0.0, 0.0), (5.0, 0.0), (0.0, 1.0)]);
  }

  /** For that register the reported pair is therefore (5, 0) and (0, 1),
      one unit apart, and not (0, 0) and (0, 1). */
  lemma StableSortReportsAdjacentPair(d: real)
    requires d > 1.0
    ensures CheckRows(SortByY([(0.0, 0.0), (5.0, 0.0), (0.0, 1.0)]), d)
      == Fail(RowsTooClose((5.0, 0.0), (0.0, 1.0), 1.0))
  {
    StableSortExample();
    SortedRowsExample(d);
  }

  lemma SortedRowsExample(d: real)
    requires d > 1.0
    ensures CheckRows([(0.0, 0.0), (5.0, 0.0), (0.0, 1.0)], d) == Fail(RowsTooClose((5.0, 0.0), (0.0, 1.0), 1.0))
  {
    var s := [(0.0, 0.0), (5.0, 0.0), (0.0, 1.0)];
    assert !RowGapBad(s, d, 0) && RowGapBad(s, d, 1);
  }
}
