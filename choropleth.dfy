/**
 The month selection of the vaccination choropleth: every country shape carries a
 datum whose `total` is the rate its fill colour is computed from, and moving the
 month slider rewrites those totals from the selected month's table.
 */
module Choropleth {
  import opened VaccineData

  /** The datum bound to one country shape: its code never changes, its total is
      reassigned by every redraw. */
  class Feature {
    const id: string
    var total: real

    constructor (id: string, total: real)
      ensures this.id == id && this.total == total
    {
      this.id := id;
      this.total := total;
    }
  }

  // ---------------------------------------------------------------------------
  // What one redraw does, as values

  /** The total a feature with code `id` holds after a redraw: with a month selected,
      its rate in that month's table (0 when the code is missing); without one, the
      total it had before. */
  function Fill(prev: real, id: string, selected: Option<map<string, real>>): (r: real)
    ensures selected.None? ==> r == prev
    ensures selected.Some? && id in selected.value ==> r == selected.value[id]
    ensures selected.Some? && id !in selected.value ==> r == 0.0
  {
    match selected
    case Some(table) => Lookup(table, id)
    case None => prev
  }

  /** The totals of all features after a redraw, feature by feature. */
  function Fills(prev: seq<real>, ids: seq<string>, selected: Option<map<string, real>>): (r: seq<real>)
    requires |prev| == |ids|
    ensures |r| == |ids|
    ensures forall k :: 0 <= k < |ids| ==> r[k] == Fill(prev[k], ids[k], selected)
  {
    seq(|ids|, k requires 0 <= k < |ids| => Fill(prev[k], ids[k], selected))
  }

  /** The totals drawn straight from `table`, a missing code giving 0: the first
      draw's fill with the January table, and a redraw's with the selected one. */
  function Drawn(ids: seq<string>, table: map<string, real>): (r: seq<real>)
    ensures |r| == |ids|
    ensures forall k :: 0 <= k < |ids| && ids[k] in table ==> r[k] == table[ids[k]]
    ensures forall k :: 0 <= k < |ids| && ids[k] !in table ==> r[k] == 0.0
  {
    seq(|ids|, k requires 0 <= k < |ids| => Lookup(table, ids[k]))
  }

  /** The month label after a redraw over `count` features: the label is written
      while the features are visited, so it changes only when a month is selected
      and there is at least one feature. */
  function ShownLabel(prev: string, month: int, count: nat): (r: string)
    ensures count > 0 && 1 <= month <= 4 ==> r == MonthName(MonthOfSlider(month).value)
    ensures count == 0 || month < 1 || month > 4 ==> r == prev
  {
    match MonthOfSlider(month)
    case Some(m) => if count > 0 then MonthName(m) else prev
    case None => prev
  }

  /** The value a range input with minimum 1, maximum 4 and step 1 holds after its
      value is set to `n`: a value outside the range is clamped to the nearer end. */
  function SliderPosition(n: int): (r: int)
    ensures 1 <= r <= 4
    ensures 1 <= n <= 4 ==> r == n
    ensures n < 1 ==> r == 1
    ensures n > 4 ==> r == 4
  {
    if n < 1 then 1 else if n > 4 then 4 else n
  }

  /** With a month selected, a redraw gives every feature its stored rate in that
      month, or 0 when its code is missing, whatever it held before. */
  lemma SelectedMonthRedraws(prev: seq<real>, ids: seq<string>, table: map<string, real>)
    requires |prev| == |ids|
    ensures Fills(prev, ids, Some(table)) == Drawn(ids, table)
    ensures forall k :: 0 <= k < |ids| && ids[k] !in table ==> Fills(prev, ids, Some(table))[k] == 0.0
    ensures forall k :: 0 <= k < |ids| && ids[k] in table ==> Fills(prev, ids, Some(table))[k] == table[ids[k]]
  {
  }

  /** Without a month selected, a redraw leaves every total as it was. */
  lemma UnselectedMonthKeeps(prev: seq<real>, ids: seq<string>)
    requires |prev| == |ids|
    ensures Fills(prev, ids, None) == prev
  {
  }

  /** Redrawing twice for the same month gives the totals and label of redrawing once. */
  lemma RedrawIdempotent(prev: seq<real>, ids: seq<string>, shown: string, month: int, selected: Option<map<string, real>>)
    requires |prev| == |ids|
    ensures Fills(Fills(prev, ids, selected), ids, selected) == Fills(prev, ids, selected)
    ensures ShownLabel(ShownLabel(shown, month, |ids|), month, |ids|) == ShownLabel(shown, month, |ids|)
  {
  }

  /** The slider's four positions show the four English month names. */
  lemma MonthLabels(prev: string, count: nat)
    requires count > 0
    ensures ShownLabel(prev, 1, count) == "January"
    ensures ShownLabel(prev, 2, count) == "February"
    ensures ShownLabel(prev, 3, count) == "March"
    ensures ShownLabel(prev, 4, count) == "April"
  {
  }

  // ---------------------------------------------------------------------------
  // The drawn map

  class ChoroplethMap {
    /** The loaded tables, only read here. */
    const data: DataTables
    /** The country shapes' data, one distinct object per boundary feature. */
    const features: array<Feature>
    /** The text of the month label. */
    var monthLabel: string
    /** The value of the month slider, always between 1 and 4 once `update` has run. */
    var sliderValue: int

    /** Each boundary feature is its own object. */
    ghost predicate Valid()
      reads features
    {
      forall j, k :: 0 <= j < k < features.Length ==> features[j] != features[k]
    }

    ghost function Shapes(): set<Feature>
      reads features
    {
      set k | 0 <= k < features.Length :: features[k]
    }

    ghost function Ids(): seq<string>
      reads features
    {
      seq(features.Length, k requires 0 <= k < features.Length reads features => features[k].id)
    }

    ghost function Totals(): seq<real>
      reads features, Shapes()
    {
      seq(features.Length, k requires 0 <= k < features.Length reads features, Shapes() => features[k].total)
    }

    /** The table a slider value selects, if it selects one. */
    ghost function Selected(month: int): Option<map<string, real>>
      reads data
    {
      match MonthOfSlider(month)
      case Some(m) => Some(data.Table(m))
      case None => None
    }

    constructor (data: DataTables, features: array<Feature>, shown: string, slider: int)
      requires forall j, k :: 0 <= j < k < features.Length ==> features[j] != features[k]
      ensures Valid()
      ensures this.data == data && this.features == features
      ensures monthLabel == shown && sliderValue == slider
    {
      this.data := data;
      this.features := features;
      monthLabel := shown;
      sliderValue := slider;
    }

    /** The first draw: every shape's total is its January rate, or 0. */
    method InitialDraw()
      requires Valid()
      modifies Shapes()
      ensures Totals() == Drawn(Ids(), data.Table(Jan))
    {
      var i := 0;
      while i < features.Length
        invariant 0 <= i <= features.Length
        invariant forall k :: 0 <= k < i ==> features[k].total == Lookup(data.Table(Jan), features[k].id)
      {
        var f := features[i];
        f.total := data.RateFor(Jan, f.id);
        i := i + 1;
      }
    }

    /** `update(month)`: sets the slider to `month`, which the range input clamps
        to 1..4, and, for a month from 1 to 4, rewrites every shape's total from
        that month's table and shows the month's name; any other value changes no
        total and no label. */
    method Update(month: int)
      requires Valid()
      modifies this`monthLabel, this`sliderValue, Shapes()
      ensures sliderValue == SliderPosition(month)
      ensures monthLabel == ShownLabel(old(monthLabel), month, features.Length)
      ensures Totals() == Fills(old(Totals()), Ids(), Selected(month))
    {
      sliderValue := SliderPosition(month);
      var i := 0;
      while i < features.Length
        invariant 0 <= i <= features.Length
        invariant sliderValue == SliderPosition(month)
        invariant monthLabel == ShownLabel(old(monthLabel), month, i)
        invariant forall k :: 0 <= k < i ==>
                    features[k].total == Fill(old(features[k].total), features[k].id, Selected(month))
        invariant forall k :: i <= k < features.Length ==> features[k].total == old(features[k].total)
      {
        var f := features[i];
        if month == 1 {
          monthLabel := "January";
          f.total := data.RateFor(Jan, f.id);
        } else if month == 2 {
          monthLabel := "February";
          f.total := data.RateFor(Feb, f.id);
        } else if month == 3 {
          monthLabel := "March";
          f.total := data.RateFor(Mar, f.id);
        } else if month == 4 {
          monthLabel := "April";
          f.total := data.RateFor(Apr, f.id);
        }
        i := i + 1;
      }
    }
  }

  /** The load-complete handler: draws every shape with its January total, then
      selects month 1. */
  method Ready(data: DataTables, features: array<Feature>, shown: string, slider: int) returns (view: ChoroplethMap)
    requires forall j, k :: 0 <= j < k < features.Length ==> features[j] != features[k]
    modifies set k | 0 <= k < features.Length :: features[k]
    ensures fresh(view) && view.Valid() && view.data == data && view.features == features
    ensures view.Totals() == Drawn(view.Ids(), data.Table(Jan))
    ensures view.sliderValue == 1
    ensures view.monthLabel == if features.Length > 0 then "January" else shown
  {
    view := new ChoroplethMap(data, features, shown, slider);
    view.InitialDraw();
    ghost var drawn := view.Totals();
    view.Update(1);
    SelectedMonthRedraws(drawn, view.Ids(), data.Table(Jan));
  }
}
