/**
 The data join of the vaccination choropleth: the CSV rows of the rate file are
 routed by their month label into four code-to-rate tables, and every row also
 records the display name of its country code.
 */
module VaccineData {

  datatype Option<T> = None | Some(value: T)

  /** The four tracked months, January to April. */
  datatype Month = Jan | Feb | Mar | Apr

  /** One parsed row of the rate file; the rate is already a number. */
  datatype Row = Row(month: string, code: string, country: string, rate: real)

  /** The literal month label a row carries for month `m`. */
  function Label(m: Month): string
  {
    match m
    case Jan => "Jan"
    case Feb => "Feb"
    case Mar => "Mar"
    case Apr => "Apr"
  }

  /** The position of `m` on the month slider (1 for January). */
  function Number(m: Month): int
  {
    match m
    case Jan => 1
    case Feb => 2
    case Mar => 3
    case Apr => 4
  }

  /** The English month name shown in the month label. */
  function MonthName(m: Month): string
  {
    match m
    case Jan => "January"
    case Feb => "February"
    case Mar => "March"
    case Apr => "April"
  }

  /** The month a row's label selects: only the four exact labels are recognised. */
  function MonthOfLabel(s: string): (r: Option<Month>)
    ensures r.Some? <==> s in {"Jan", "Feb", "Mar", "Apr"}
    ensures r.Some? ==> Label(r.value) == s
  {
    if s == "Jan" then Some(Jan)
    else if s == "Feb" then Some(Feb)
    else if s == "Mar" then Some(Mar)
    else if s == "Apr" then Some(Apr)
    else None
  }

  /** The month a slider value selects: only 1, 2, 3 and 4 select one. */
  function MonthOfSlider(n: int): (r: Option<Month>)
    ensures r.Some? <==> 1 <= n <= 4
    ensures r.Some? ==> Number(r.value) == n
  {
    if n == 1 then Some(Jan)
    else if n == 2 then Some(Feb)
    else if n == 3 then Some(Mar)
    else if n == 4 then Some(Apr)
    else None
  }

  lemma LabelRoundTrip(m: Month)
    ensures MonthOfLabel(Label(m)) == Some(m)
    ensures MonthOfSlider(Number(m)) == Some(m)
  {
  }

  /** A table lookup where a missing code reads as rate 0. */
  function Lookup(table: map<string, real>, code: string): (r: real)
    ensures code in table ==> r == table[code]
    ensures code !in table ==> r == 0.0
  {
    if code in table then table[code] else 0.0
  }

  /** A code missing from a table is filled exactly like a code stored with rate 0. */
  lemma MissingReadsAsZero(table: map<string, real>, code: string)
    requires code !in table
    ensures Lookup(table, code) == Lookup(table[code := 0.0], code)
  {
  }

  // ---------------------------------------------------------------------------
  // Reference definitions: what the tables hold after a sequence of rows

  /** Row `r` writes `code` into month `m`'s table. */
  predicate Writes(r: Row, m: Month, code: string)
  {
    MonthOfLabel(r.month) == Some(m) && r.code == code
  }

  /** Row `i` is the last row of `rows` that writes `code` into month `m`'s table. */
  predicate IsLastWrite(rows: seq<Row>, m: Month, code: string, i: int)
  {
    0 <= i < |rows| && Writes(rows[i], m, code) &&
    forall j :: i < j < |rows| ==> !Writes(rows[j], m, code)
  }

  /** Row `i` is the last row of `rows` that carries `code`, whatever its month. */
  predicate IsLastRowFor(rows: seq<Row>, code: string, i: int)
  {
    0 <= i < |rows| && rows[i].code == code &&
    forall j :: i < j < |rows| ==> rows[j].code != code
  }

  /** Month `m`'s table after the rows are ingested in order, starting from `init`. */
  function TableAfter(init: map<string, real>, rows: seq<Row>, m: Month): (r: map<string, real>)
    ensures forall c :: c in r <==> c in init || exists i :: 0 <= i < |rows| && Writes(rows[i], m, c)
    decreases |rows|
  {
    if rows == [] then init
    else
      var t := TableAfter(init, rows[..|rows| - 1], m);
      var last := rows[|rows| - 1];
      if MonthOfLabel(last.month) == Some(m) then t[last.code := last.rate] else t
  }

  /** The name table after the rows are ingested in order, starting from `init`. */
  function NamesAfter(init: map<string, string>, rows: seq<Row>): (r: map<string, string>)
    ensures forall c :: c in r <==> c in init || exists i :: 0 <= i < |rows| && rows[i].code == c
    decreases |rows|
  {
    if rows == [] then init
    else
      var last := rows[|rows| - 1];
      NamesAfter(init, rows[..|rows| - 1])[last.code := last.country]
  }

  /** After ingestion, a month table holds for each code the rate of the last row
      with that month label and that code. */
  lemma {:induction false} TableAfterLastWrite(init: map<string, real>, rows: seq<Row>, m: Month, code: string, i: int)
    requires IsLastWrite(rows, m, code, i)
    ensures code in TableAfter(init, rows, m)
    ensures TableAfter(init, rows, m)[code] == rows[i].rate
    decreases |rows|
  {
    var n := |rows|;
    var front := rows[..n - 1];
    if i < n - 1 {
      assert IsLastWrite(front, m, code, i);
      TableAfterLastWrite(init, front, m, code, i);
      assert !Writes(rows[n - 1], m, code);
    }
  }

  /** A code that no row writes into month `m` keeps its initial entry, or its
      initial absence. */
  lemma {:induction false} TableAfterUnwritten(init: map<string, real>, rows: seq<Row>, m: Month, code: string)
    requires forall j :: 0 <= j < |rows| ==> !Writes(rows[j], m, code)
    ensures code in TableAfter(init, rows, m) <==> code in init
    ensures code in init ==> TableAfter(init, rows, m)[code] == init[code]
    decreases |rows|
  {
    if rows != [] {
      var n := |rows|;
      assert !Writes(rows[n - 1], m, code);
      TableAfterUnwritten(init, rows[..n - 1], m, code);
    }
  }

  /** Loaded from empty tables: a code is in month `m`'s table exactly when some row
      wrote it there, and then its rate is that of the last such row. */
  lemma LoadedTable(rows: seq<Row>, m: Month, code: string)
    ensures code in TableAfter(map[], rows, m) <==> exists i :: 0 <= i < |rows| && Writes(rows[i], m, code)
    ensures forall i :: IsLastWrite(rows, m, code, i) ==> TableAfter(map[], rows, m)[code] == rows[i].rate
  {
    if exists i :: 0 <= i < |rows| && Writes(rows[i], m, code) {
      var i := LastWriteIndex(rows, m, code);
      TableAfterLastWrite(map[], rows, m, code, i);
      forall k | IsLastWrite(rows, m, code, k)
        ensures TableAfter(map[], rows, m)[code] == rows[k].rate
      {
        assert k == i;
      }
    } else {
      TableAfterUnwritten(map[], rows, m, code);
    }
  }

  /** The index of the last row writing `code` into month `m`, when there is one. */
  lemma {:induction false} LastWriteIndex(rows: seq<Row>, m: Month, code: string) returns (i: int)
    requires exists k :: 0 <= k < |rows| && Writes(rows[k], m, code)
    ensures IsLastWrite(rows, m, code, i)
    decreases |rows|
  {
    var n := |rows|;
    if Writes(rows[n - 1], m, code) {
      i := n - 1;
    } else {
      var k :| 0 <= k < n && Writes(rows[k], m, code);
      assert Writes(rows[..n - 1][k], m, code);
      i := LastWriteIndex(rows[..n - 1], m, code);
    }
  }

  /** A row whose month label is not one of the four changes no month table, yet
      still records its country name. */
  lemma UnrecognisedRowIgnored(init: map<string, real>, names: map<string, string>, rows: seq<Row>, r: Row, m: Month)
    requires MonthOfLabel(r.month) == None
    ensures TableAfter(init, rows + [r], m) == TableAfter(init, rows, m)
    ensures NamesAfter(names, rows + [r]) == NamesAfter(names, rows)[r.code := r.country]
  {
    assert (rows + [r])[..|rows|] == rows;
  }

  /** After ingestion, the name table holds for each code the country of the last
      row with that code, whatever that row's month label. */
  lemma {:induction false} NamesAfterLastRow(init: map<string, string>, rows: seq<Row>, code: string, i: int)
    requires IsLastRowFor(rows, code, i)
    ensures code in NamesAfter(init, rows)
    ensures NamesAfter(init, rows)[code] == rows[i].country
    decreases |rows|
  {
    var n := |rows|;
    var front, last := rows[..n - 1], rows[n - 1];
    assert NamesAfter(init, rows) == NamesAfter(init, front)[last.code := last.country];
    if i < n - 1 {
      assert IsLastRowFor(front, code, i);
      NamesAfterLastRow(init, front, code, i);
      assert last.code != code;
    }
  }

  /** A code carried by no row keeps its initial name entry, or its initial absence. */
  lemma {:induction false} NamesAfterUnseen(init: map<string, string>, rows: seq<Row>, code: string)
    requires forall j :: 0 <= j < |rows| ==> rows[j].code != code
    ensures code in NamesAfter(init, rows) <==> code in init
    ensures code in init ==> NamesAfter(init, rows)[code] == init[code]
    decreases |rows|
  {
    if rows != [] {
      var n := |rows|;
      assert rows[n - 1].code != code;
      NamesAfterUnseen(init, rows[..n - 1], code);
    }
  }

  /** A single February row for Canada lands in the February table and the name table only. */
  lemma CanadaFebruaryRow()
    ensures var rows := [Row("Feb", "CAN", "Canada", 12.5)];
      && TableAfter(map[], rows, Feb) == map["CAN" := 12.5]
      && (forall m :: m != Feb ==> TableAfter(map[], rows, m) == map[])
      && NamesAfter(map[], rows) == map["CAN" := "Canada"]
  {
    var rows := [Row("Feb", "CAN", "Canada", 12.5)];
    assert rows[..0] == [];
  }

  // ---------------------------------------------------------------------------
  // The five lookup tables, filled in place by the CSV row callback

  class DataTables {
    var jan: map<string, real>
    var feb: map<string, real>
    var mar: map<string, real>
    var apr: map<string, real>
    var countries: map<string, string>

    /** The rate table of month `m`. */
    function Table(m: Month): map<string, real>
      reads this
    {
      match m
      case Jan => jan
      case Feb => feb
      case Mar => mar
      case Apr => apr
    }

    /** Five empty tables, as created before loading. */
    constructor ()
      ensures forall m :: Table(m) == map[]
      ensures countries == map[]
    {
      jan, feb, mar, apr := map[], map[], map[], map[];
      countries := map[];
    }

    /** The CSV row callback: a recognised month label sets code to rate in that
        month's table only; every row sets code to country in the name table. */
    method IngestRow(month: string, code: string, country: string, rate: real)
      modifies this
      ensures forall m :: Table(m) ==
                          (if MonthOfLabel(month) == Some(m) then old(Table(m))[code := rate] else old(Table(m)))
      ensures countries == old(countries)[code := country]
    {
      if month == "Jan" {
        jan := jan[code := rate];
      } else if month == "Feb" {
        feb := feb[code := rate];
      } else if month == "Mar" {
        mar := mar[code := rate];
      } else if month == "Apr" {
        apr := apr[code := rate];
      }
      countries := countries[code := country];
    }

    /** Runs the row callback on every row of the file, in order. */
    method IngestAll(rows: seq<Row>)
      modifies this
      ensures forall m :: Table(m) == TableAfter(old(Table(m)), rows, m)
      ensures countries == NamesAfter(old(countries), rows)
    {
      var i := 0;
      while i < |rows|
        invariant 0 <= i <= |rows|
        invariant forall m :: Table(m) == TableAfter(old(Table(m)), rows[..i], m)
        invariant countries == NamesAfter(old(countries), rows[..i])
      {
        var r := rows[i];
        assert rows[..i + 1][..i] == rows[..i];
        IngestRow(r.month, r.code, r.country, r.rate);
        i := i + 1;
      }
      assert rows[..i] == rows;
    }

    /** The fill lookup `table.get(code) || 0` on month `m`'s table. */
    method RateFor(m: Month, code: string) returns (r: real)
      ensures code in Table(m) ==> r == Table(m)[code]
      ensures code !in Table(m) ==> r == 0.0
    {
      r := Lookup(Table(m), code);
    }
  }

  /** Loads the rate file into fresh tables. */
  method Load(rows: seq<Row>) returns (data: DataTables)
    ensures fresh(data)
    ensures forall m :: data.Table(m) == TableAfter(map[], rows, m)
    ensures data.countries == NamesAfter(map[], rows)
  {
    data := new DataTables();
    data.IngestAll(rows);
  }
}
