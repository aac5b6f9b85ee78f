/**
  `load_data`: from the fetched rows of the responses sheet to the normalised
  visit records. The fetch itself is not modelled; the rows it returns are the
  input, and the timestamp parser `pd.to_datetime` is a parameter.
 */
module Loader {
  import opened Outcomes
  import opened Records
  import opened Columns
  import opened Coding

  /** The fetched sheet: its header row and its data rows. */
  datatype Sheet = Sheet(header: seq<string>, rows: seq<seq<Cell>>)

  /**
    The shape of the fetched rows: one cell per header name in every row.
    Repeated header names are not excluded here; a repeated name that the
    loader looks up is reported as a duplicate column.
   */
  ghost predicate WellShaped(sheet: Sheet) {
    forall k :: 0 <= k < |sheet.rows| ==> |sheet.rows[k]| == |sheet.header|
  }

  /** The loader's data frame: column names and rows of cells. */
  datatype Frame = Frame(names: seq<string>, rows: seq<seq<Cell>>)

  ghost predicate Rectangular(df: Frame) {
    forall k :: 0 <= k < |df.rows| ==> |df.rows[k]| == |df.names|
  }

  /** Why loading fails; every failure aborts the whole load. */
  datatype LoadError =
    | MissingColumn(name: string)    // KeyError: no column of that name
    | DuplicateColumn(name: string)  // two columns share the name after renaming
    | BadTimestamp(row: nat)         // pd.to_datetime cannot parse this row's cell
    | NoTextValues(name: string)     // the .str accessor finds no string in the column

  /** The flag columns, in the order the loader converts them. */
  const FLAG_COLUMNS: seq<string> := ["showroom", "swift", "lending", "buy_now"]

  /**
    `pd.DataFrame(records)`: the columns are the records' keys, so a frame
    built from no records at all has no columns, whatever the header says.
   */
  function ToFrame(sheet: Sheet): (df: Frame)
    requires WellShaped(sheet)
    ensures Rectangular(df) && df.rows == sheet.rows
    ensures sheet.rows == [] ==> df.names == []
    ensures sheet.rows != [] ==> df.names == sheet.header
  {
    Frame(if sheet.rows == [] then [] else sheet.header, sheet.rows)
  }

  /** `df.rename(columns=...)`: the column names renamed, the data untouched. */
  function RenameFrame(df: Frame): (r: Frame)
    requires Rectangular(df)
    ensures Rectangular(r) && r.rows == df.rows && r.names == Rename(df.names)
  {
    Frame(Rename(df.names), df.rows)
  }

  /**
    The position of the one column called `name`: missing when there is none,
    an error when there are several (pandas then hands back a frame, which
    each of the loader's column operations rejects).
   */
  function Find(names: seq<string>, name: string): (r: Result<nat, LoadError>)
    ensures r.Ok? ==> r.value < |names| && names[r.value] == name
    ensures r.Ok? ==> forall j :: 0 <= j < |names| && j != r.value ==> names[j] != name
    ensures r == Err(MissingColumn(name)) <==> name !in names
    ensures r.Err? ==> r == Err(MissingColumn(name)) || r == Err(DuplicateColumn(name))
  {
    if name !in names then Err(MissingColumn(name))
    else
      var i := IndexOf(names, name);
      if name in names[i + 1..] then Err(DuplicateColumn(name))
      else
        assert forall j :: i < j < |names| ==> names[j] == names[i + 1..][j - i - 1];
        Ok(i)
  }

  /** A lookup reports a duplicate exactly when two columns carry the name. */
  lemma FindDuplicate(names: seq<string>, name: string)
    ensures Find(names, name) == Err(DuplicateColumn(name)) <==>
      exists i, j :: 0 <= i < j < |names| && names[i] == name && names[j] == name
  {
    if name in names {
      var i := IndexOf(names, name);
      if name in names[i + 1..] {
        var j :| 0 <= j < |names[i + 1..]| && names[i + 1..][j] == name;
        assert names[i + 1 + j] == name;
      }
    }
  }

  /** The first position of x in s. */
  function IndexOf(s: seq<string>, x: string): (i: nat)
    requires x in s
    ensures i < |s| && s[i] == x
    ensures forall j :: 0 <= j < i ==> s[j] != x
  {
    if s[0] == x then 0 else 1 + IndexOf(s[1..], x)
  }

  /** `df[name]`: the cells of the one column of that name, one per row. */
  function Column(df: Frame, name: string): (r: Result<seq<Cell>, LoadError>)
    requires Rectangular(df)
    ensures r.Ok? <==> Find(df.names, name).Ok?
    ensures r.Err? ==> r.error == Find(df.names, name).error
    ensures r.Ok? ==> |r.value| == |df.rows|
  {
    var i :- Find(df.names, name);
    Ok(seq(|df.rows|, k requires 0 <= k < |df.rows| => df.rows[k][i]))
  }

  /** A column read gives, for each row, that row's cell at the one position carrying the name. */
  lemma ColumnCells(df: Frame, name: string)
    requires Rectangular(df)
    ensures Column(df, name).Ok? ==>
      forall k :: 0 <= k < |df.rows| ==> Column(df, name).value[k] == df.rows[k][Find(df.names, name).value]
  {
  }

  /**
    `pd.to_datetime` on a column: every cell parses (possibly to NaT), or the
    load fails at the first cell that does not.
   */
  function ParseAll(cells: seq<Cell>, parse: Cell -> Option<Timestamp>): (r: Result<seq<Timestamp>, LoadError>)
    ensures r.Ok? ==> |r.value| == |cells|
    ensures r.Ok? ==> forall k :: 0 <= k < |cells| ==> parse(cells[k]) == Some(r.value[k])
    ensures r.Err? ==> r.error.BadTimestamp? && r.error.row < |cells| && parse(cells[r.error.row]).None?
    ensures r.Err? ==> forall k :: 0 <= k < r.error.row ==> parse(cells[k]).Some?
  {
    if cells == [] then Ok([])
    else
      match parse(cells[0])
      case None => Err(BadTimestamp(0))
      case Some(t) =>
        match ParseAll(cells[1..], parse)
        case Ok(ts) => Ok([t] + ts)
        case Err(e) => Err(BadTimestamp(e.row + 1))
  }

  /** `Series.map({'Yes': True, 'No': False})` on a whole column. */
  function MapYesNo(cells: seq<Cell>): (r: seq<Option<bool>>)
    ensures |r| == |cells|
    ensures forall k :: 0 <= k < |cells| ==> r[k] == YesNo(cells[k])
  {
    seq(|cells|, k requires 0 <= k < |cells| => YesNo(cells[k]))
  }

  /** The converted flag columns, in order; the first column that cannot be found aborts the load. */
  function FlagColumns(df: Frame, names: seq<string>): (r: Result<seq<seq<Option<bool>>>, LoadError>)
    requires Rectangular(df)
    ensures r.Ok? ==> |r.value| == |names|
    ensures r.Ok? ==> forall j :: 0 <= j < |names| ==> |r.value[j]| == |df.rows|
    decreases |names|
  {
    if names == [] then Ok([])
    else
      var done :- FlagColumns(df, names[..|names| - 1]);
      var cells :- Column(df, names[|names| - 1]);
      Ok(done + [MapYesNo(cells)])
  }

  /**
    `Series.str.split(", ")` on the issues column: each text cell is split and
    every other value gives a missing list; a column holding values but no
    text at all is rejected by the `.str` accessor.
   */
  function SplitColumn(cells: seq<Cell>): (r: Result<seq<Option<seq<string>>>, LoadError>)
    ensures r.Err? <==> cells != [] && forall k :: 0 <= k < |cells| ==> !cells[k].Text?
    ensures r.Err? ==> r.error == NoTextValues("issues")
    ensures r.Ok? ==> |r.value| == |cells|
    ensures r.Ok? ==> forall k :: 0 <= k < |cells| ==> r.value[k] == SplitIssues(cells[k])
  {
    if cells != [] && forall k :: 0 <= k < |cells| ==> !cells[k].Text? then Err(NoTextValues("issues"))
    else Ok(seq(|cells|, k requires 0 <= k < |cells| => SplitIssues(cells[k])))
  }

  /** `df['submitted_datetime'] = pd.to_datetime(df['submitted_datetime'])`. */
  function Stamps(df: Frame, parse: Cell -> Option<Timestamp>): (r: Result<seq<Timestamp>, LoadError>)
    requires Rectangular(df)
    ensures r.Ok? ==> |r.value| == |df.rows|
  {
    var cells :- Column(df, "submitted_datetime");
    ParseAll(cells, parse)
  }

  /** `df['issues_list'] = df['issues'].str.split(', ')`. */
  function IssueLists(df: Frame): (r: Result<seq<Option<seq<string>>>, LoadError>)
    requires Rectangular(df)
    ensures r.Ok? ==> |r.value| == |df.rows|
  {
    var cells :- Column(df, "issues");
    SplitColumn(cells)
  }

  /** One visit per row, taken from the converted columns. */
  function Assemble(
    stamps: seq<Timestamp>, flags: seq<seq<Option<bool>>>, issues: seq<Option<seq<string>>>,
    dealers: seq<Cell>, codes: seq<Cell>): (vs: seq<Visit>)
    requires |flags| == 4
    requires |flags[0]| == |flags[1]| == |flags[2]| == |flags[3]| == |stamps|
    requires |issues| == |dealers| == |codes| == |stamps|
    ensures |vs| == |stamps|
    ensures forall k :: 0 <= k < |vs| ==> vs[k].submitted == stamps[k] && vs[k].dealer == dealers[k]
    ensures forall k :: 0 <= k < |vs| ==> vs[k].dealerCode == Some(codes[k])
    ensures forall k :: 0 <= k < |vs| ==>
      vs[k].showroom == flags[0][k] && vs[k].swift == flags[1][k] &&
      vs[k].lending == flags[2][k] && vs[k].buyNow == flags[3][k]
    ensures forall k :: 0 <= k < |vs| ==> vs[k].issues == issues[k]
  {
    seq(|stamps|, k requires 0 <= k < |stamps| =>
      Visit(stamps[k], dealers[k], Some(codes[k]),
            flags[0][k], flags[1][k], flags[2][k], flags[3][k], issues[k]))
  }

  /**
    The normalisation of a renamed frame, in the loader's order: parse the
    submission times, convert the four flag columns, split the issues; then
    the dealer and dealer-code columns the dashboard reads.
   */
  function Normalise(df: Frame, parse: Cell -> Option<Timestamp>): (r: Result<seq<Visit>, LoadError>)
    requires Rectangular(df)
    ensures r.Ok? ==> |r.value| == |df.rows|
  {
    var stamps :- Stamps(df, parse);
    var flags :- FlagColumns(df, FLAG_COLUMNS);
    var issues :- IssueLists(df);
    var dealers :- Column(df, "dealer");
    var codes :- Column(df, "dealer_code");
    Ok(Assemble(stamps, flags, issues, dealers, codes))
  }

  /** The whole load: build the frame, rename its columns, normalise it. */
  function Load(sheet: Sheet, parse: Cell -> Option<Timestamp>): (r: Result<seq<Visit>, LoadError>)
    requires WellShaped(sheet)
    ensures r.Ok? ==> |r.value| == |sheet.rows|
  {
    Normalise(RenameFrame(ToFrame(sheet)), parse)
  }

  /**
    `load_data` as the loader runs it: the renamed frame stays fixed while
    the converted columns are produced one step after another, the four flag
    columns in a loop, and the first failing step ends the load.
   */
  method LoadData(sheet: Sheet, parse: Cell -> Option<Timestamp>) returns (r: Result<seq<Visit>, LoadError>)
    requires WellShaped(sheet)
    ensures r == Load(sheet, parse)
  {
    var df := ToFrame(sheet);
    df := RenameFrame(df);
    var stamps := Stamps(df, parse);
    if stamps.Err? {
      return Err(stamps.error);
    }
    var flags: seq<seq<Option<bool>>> := [];
    for j := 0 to |FLAG_COLUMNS|
      invariant FlagColumns(df, FLAG_COLUMNS[..j]) == Ok(flags)
    {
      var cells := Column(df, FLAG_COLUMNS[j]);
      assert FLAG_COLUMNS[..j + 1][..j] == FLAG_COLUMNS[..j];
      if cells.Err? {
        FlagColumnsPrefixFails(df, FLAG_COLUMNS, j + 1);
        return Err(cells.error);
      }
      flags := flags + [MapYesNo(cells.value)];
    }
    assert FLAG_COLUMNS[..|FLAG_COLUMNS|] == FLAG_COLUMNS;
    r := FinishLoad(df, parse, stamps.value, flags);
  }

  /** The steps after the flag loop: split the issues, then read the dealer and dealer-code columns. */
  method FinishLoad(df: Frame, parse: Cell -> Option<Timestamp>, stamps: seq<Timestamp>, flags: seq<seq<Option<bool>>>)
    returns (r: Result<seq<Visit>, LoadError>)
    requires Rectangular(df)
    requires Stamps(df, parse) == Ok(stamps)
    requires FlagColumns(df, FLAG_COLUMNS) == Ok(flags)
    ensures r == Normalise(df, parse)
  {
    var issues := IssueLists(df);
    if issues.Err? {
      return Err(issues.error);
    }
    var dealers := Column(df, "dealer");
    if dealers.Err? {
      return Err(dealers.error);
    }
    var codes := Column(df, "dealer_code");
    if codes.Err? {
      return Err(codes.error);
    }
    r := Ok(Assemble(stamps, flags, issues.value, dealers.value, codes.value));
  }

  /** Once the conversion of a prefix of the flag columns fails, the whole conversion fails the same way. */
  lemma {:induction false} FlagColumnsPrefixFails(df: Frame, names: seq<string>, m: nat)
    requires Rectangular(df)
    requires m <= |names|
    requires FlagColumns(df, names[..m]).Err?
    ensures FlagColumns(df, names) == FlagColumns(df, names[..m])
    decreases |names| - m
  {
    if m < |names| {
      assert names[..|names| - 1][..m] == names[..m];
      FlagColumnsPrefixFails(df, names[..|names| - 1], m);
    } else {
      assert names[..m] == names;
    }
  }

  /** The flag conversion succeeds exactly when every flag column is found once, and then holds their Yes/No codings. */
  lemma {:induction false} FlagColumnsValues(df: Frame, names: seq<string>)
    requires Rectangular(df)
    ensures FlagColumns(df, names).Ok? <==> forall j :: 0 <= j < |names| ==> Column(df, names[j]).Ok?
    ensures FlagColumns(df, names).Ok? ==> forall j :: 0 <= j < |names| ==>
      FlagColumns(df, names).value[j] == MapYesNo(Column(df, names[j]).value)
    decreases |names|
  {
    if names != [] {
      var front := names[..|names| - 1];
      FlagColumnsValues(df, front);
      assert forall j :: 0 <= j < |front| ==> front[j] == names[j];
    }
  }

  /** A sheet without data rows fails to load: the frame has no columns, so the first lookup fails. */
  lemma LoadEmptySheet(header: seq<string>, parse: Cell -> Option<Timestamp>)
    ensures Load(Sheet(header, []), parse) == Err(MissingColumn("submitted_datetime"))
  {
  }

  /** A header already in snake_case loads exactly like its spaced original. */
  lemma LoadRenameInvariant(sheet: Sheet, parse: Cell -> Option<Timestamp>)
    requires WellShaped(sheet)
    ensures WellShaped(Sheet(Rename(sheet.header), sheet.rows))
    ensures Load(Sheet(Rename(sheet.header), sheet.rows), parse) == Load(sheet, parse)
  {
    RenameIdempotent(sheet.header);
    assert RenameFrame(ToFrame(Sheet(Rename(sheet.header), sheet.rows))) == RenameFrame(ToFrame(sheet));
  }

  /**
    What a renamed frame needs for the normalisation to succeed: every column
    it looks up is found once, every submission time parses, and the issues
    column holds some text.
   */
  ghost predicate Loadable(df: Frame, parse: Cell -> Option<Timestamp>)
    requires Rectangular(df)
  {
    && Column(df, "submitted_datetime").Ok?
    && (forall k :: 0 <= k < |df.rows| ==> parse(Column(df, "submitted_datetime").value[k]).Some?)
    && Column(df, "showroom").Ok?
    && Column(df, "swift").Ok?
    && Column(df, "lending").Ok?
    && Column(df, "buy_now").Ok?
    && Column(df, "issues").Ok?
    && (df.rows == [] || exists k :: 0 <= k < |df.rows| && Column(df, "issues").value[k].Text?)
    && Column(df, "dealer").Ok?
    && Column(df, "dealer_code").Ok?
  }

  /** The submission times convert exactly when the column is found once and every cell parses. */
  lemma StampsSucceed(df: Frame, parse: Cell -> Option<Timestamp>)
    requires Rectangular(df)
    ensures Stamps(df, parse).Ok? <==>
      Column(df, "submitted_datetime").Ok? &&
      forall k :: 0 <= k < |df.rows| ==> parse(Column(df, "submitted_datetime").value[k]).Some?
    ensures Stamps(df, parse).Ok? ==>
      forall k :: 0 <= k < |df.rows| ==> parse(Column(df, "submitted_datetime").value[k]) == Some(Stamps(df, parse).value[k])
  {
    var cells := Column(df, "submitted_datetime");
    if cells.Ok? {
      var r := ParseAll(cells.value, parse);
      if r.Err? {
        assert !parse(cells.value[r.error.row]).Some?;
      }
    }
  }

  /** The issues split succeeds exactly when the column is found once and, unless the frame is empty, holds text. */
  lemma IssueListsSucceed(df: Frame)
    requires Rectangular(df)
    ensures IssueLists(df).Ok? <==>
      Column(df, "issues").Ok? &&
      (df.rows == [] || exists k :: 0 <= k < |df.rows| && Column(df, "issues").value[k].Text?)
    ensures IssueLists(df).Ok? ==>
      forall k :: 0 <= k < |df.rows| ==> IssueLists(df).value[k] == SplitIssues(Column(df, "issues").value[k])
  {
  }

  /** The normalisation succeeds exactly when each of its steps does. */
  lemma NormaliseStages(df: Frame, parse: Cell -> Option<Timestamp>)
    requires Rectangular(df)
    ensures Normalise(df, parse).Ok? <==>
      && Stamps(df, parse).Ok?
      && FlagColumns(df, FLAG_COLUMNS).Ok?
      && IssueLists(df).Ok?
      && Column(df, "dealer").Ok?
      && Column(df, "dealer_code").Ok?
  {
  }

  /** The normalisation succeeds exactly when the frame is loadable. */
  lemma NormaliseSucceeds(df: Frame, parse: Cell -> Option<Timestamp>)
    requires Rectangular(df)
    ensures Normalise(df, parse).Ok? <==> Loadable(df, parse)
  {
    NormaliseStages(df, parse);
    StampsSucceed(df, parse);
    IssueListsSucceed(df);
    FlagsSucceed(df);
  }

  /** The four flag columns convert exactly when each of them is found once. */
  lemma FlagsSucceed(df: Frame)
    requires Rectangular(df)
    ensures FlagColumns(df, FLAG_COLUMNS).Ok? <==>
      && Column(df, "showroom").Ok?
      && Column(df, "swift").Ok?
      && Column(df, "lending").Ok?
      && Column(df, "buy_now").Ok?
  {
    FlagColumnsValues(df, FLAG_COLUMNS);
    assert FLAG_COLUMNS[0] == "showroom" && FLAG_COLUMNS[1] == "swift";
    assert FLAG_COLUMNS[2] == "lending" && FLAG_COLUMNS[3] == "buy_now";
  }

  /**
    Loading succeeds exactly when, after renaming, every column the loader
    and the dashboard look up is found once, every submission time parses
    and the issues column holds some text.
   */
  lemma LoadSucceeds(sheet: Sheet, parse: Cell -> Option<Timestamp>)
    requires WellShaped(sheet)
    ensures Load(sheet, parse).Ok? <==> Loadable(RenameFrame(ToFrame(sheet)), parse)
  {
    NormaliseSucceeds(RenameFrame(ToFrame(sheet)), parse);
  }

  /**
    Each normalised visit holds its row's cells, converted: the parsed
    submission time, the Yes/No coding of each flag, the split issues, the
    dealer and the dealer code.
   */
  lemma NormaliseRow(df: Frame, parse: Cell -> Option<Timestamp>, k: nat)
    requires Rectangular(df)
    requires Normalise(df, parse).Ok? && k < |df.rows|
    ensures Loadable(df, parse)
    ensures var v := Normalise(df, parse).value[k];
      && parse(Column(df, "submitted_datetime").value[k]) == Some(v.submitted)
      && v.showroom == YesNo(Column(df, "showroom").value[k])
      && v.swift == YesNo(Column(df, "swift").value[k])
      && v.lending == YesNo(Column(df, "lending").value[k])
      && v.buyNow == YesNo(Column(df, "buy_now").value[k])
      && v.issues == SplitIssues(Column(df, "issues").value[k])
      && v.dealer == Column(df, "dealer").value[k]
      && v.dealerCode == Some(Column(df, "dealer_code").value[k])
  {
    NormaliseSucceeds(df, parse);
    StampsSucceed(df, parse);
    IssueListsSucceed(df);
    FlagColumnsValues(df, FLAG_COLUMNS);
    var stamps := Stamps(df, parse).value;
    var flags := FlagColumns(df, FLAG_COLUMNS).value;
    var issues := IssueLists(df).value;
    var dealers := Column(df, "dealer").value;
    var codes := Column(df, "dealer_code").value;
    assert Normalise(df, parse).value == Assemble(stamps, flags, issues, dealers, codes);
    var v := Normalise(df, parse).value[k];
    assert v == Visit(stamps[k], dealers[k], Some(codes[k]),
                      flags[0][k], flags[1][k], flags[2][k], flags[3][k], issues[k]);
    assert FLAG_COLUMNS[0] == "showroom" && FLAG_COLUMNS[1] == "swift";
    assert FLAG_COLUMNS[2] == "lending" && FLAG_COLUMNS[3] == "buy_now";
  }
}
