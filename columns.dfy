/** The fixed rename table that turns the sheet's spaced headers into snake_case. */
module Columns {

  /** The five header names the loader renames, with their replacements. */
  const RENAME_TABLE: map<string, string> := map[
    "buy now" := "buy_now",
    "dealer code" := "dealer_code",
    "Hatla2ee link" := "hatla2ee_link",
    "dubizzle link" := "dubizzle_link",
    "showroom capacity" := "showroom_capacity"]

  /**
    The new name of one column: its entry in the table, or the name itself.
    No result is itself a name the table would rename again.
   */
  function RenameColumn(name: string): (r: string)
    ensures name in RENAME_TABLE ==> r == RENAME_TABLE[name]
    ensures name !in RENAME_TABLE ==> r == name
    ensures r !in RENAME_TABLE
  {
    if name in RENAME_TABLE then RENAME_TABLE[name] else name
  }

  /** `DataFrame.rename(columns=...)`: every header renamed in place, none added or dropped. */
  function Rename(names: seq<string>): (r: seq<string>)
    ensures |r| == |names|
    ensures forall i :: 0 <= i < |names| && names[i] in RENAME_TABLE ==> r[i] == RENAME_TABLE[names[i]]
    ensures forall i :: 0 <= i < |names| && names[i] !in RENAME_TABLE ==> r[i] == names[i]
    ensures forall i :: 0 <= i < |r| ==> r[i] !in RENAME_TABLE
  {
    seq(|names|, i requires 0 <= i < |names| => RenameColumn(names[i]))
  }

  /** Renaming an already renamed header changes nothing. */
  lemma RenameIdempotent(names: seq<string>)
    ensures Rename(Rename(names)) == Rename(names)
  {
    var once := Rename(names);
    var twice := Rename(once);
    assert |twice| == |once|;
    forall i | 0 <= i < |once|
      ensures twice[i] == once[i]
    {
      assert once[i] !in RENAME_TABLE;
    }
  }

  /** A header that holds none of the table's source names comes out as it went in. */
  lemma RenameIgnoresAbsent(names: seq<string>)
    requires forall i :: 0 <= i < |names| ==> names[i] !in RENAME_TABLE
    ensures Rename(names) == names
  {
    var r := Rename(names);
    forall i | 0 <= i < |names|
      ensures r[i] == names[i]
    {
    }
  }
}
