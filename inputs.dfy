/** What happens to the uploaded hourly table and the appliance form
    before any optimisation: the required-column check, cleaning of the
    solar column, the W-to-kW conversion of the rated power and the
    blank-name check. */
module Inputs {
  import opened Formulation

  /** The hourly columns the table must have, in the order they are
      checked and reported. */
  const RequiredColumns: seq<string> := [
    "Generación solar disponible (kW)",
    "Tarifa de compra (Bs / kWh)",
    "Tarifa de venta (Bs / kWh)",
    "Consumo base obligatorio (kW)"
  ]

  /** The solar column. */
  const SolarColumn: string := "Generación solar disponible (kW)"

  /** The marker a user writes in the solar column for "no reading". */
  const NoReading: string := "-"

  // ---------------------------------------------------------------------
  // Required columns

  /** `r` keeps elements of `s` in their order. */
  ghost predicate Subsequence(r: seq<string>, s: seq<string>)
    decreases |s|
  {
    r == [] || (s != [] && ((r[0] == s[0] && Subsequence(r[1..], s[1..])) || Subsequence(r, s[1..])))
  }

  /** The names of `required` that are not among `present`, in the order
      of `required`, each as often as `required` lists it. */
  function MissingFrom(required: seq<string>, present: seq<string>): (r: seq<string>)
    ensures forall c :: c in r <==> c in required && c !in present
    ensures Subsequence(r, required)
    ensures forall c :: multiset(r)[c] == if c in present then 0 else multiset(required)[c]
  {
    if required == [] then []
    else if required[0] in present then
      assert required == [required[0]] + required[1..];
      MissingFrom(required[1..], present)
    else
      assert required == [required[0]] + required[1..];
      [required[0]] + MissingFrom(required[1..], present)
  }

  /** The required columns missing from a table whose header is `columns`. */
  function MissingColumns(columns: seq<string>): seq<string>
  {
    MissingFrom(RequiredColumns, columns)
  }

  /** The missing-column list is empty exactly when every required column
      is present, and it names only required columns that are absent. */
  lemma MissingColumnsEmptyIff(columns: seq<string>)
    ensures MissingColumns(columns) == [] <==> forall c :: c in RequiredColumns ==> c in columns
    ensures forall c :: c in MissingColumns(columns) <==> c in RequiredColumns && c !in columns
    ensures Subsequence(MissingColumns(columns), RequiredColumns)
  {
    if MissingColumns(columns) != [] {
      assert MissingColumns(columns)[0] in MissingColumns(columns);
    }
  }

  // ---------------------------------------------------------------------
  // Blank names

  /** Python's `str.isspace` for one character: the ASCII and Unicode
      white-space characters that `str.strip()` removes. */
  predicate IsSpace(c: char)
  {
    || c == ' ' || c == '\t' || c == '\n' || c == '\r' || c == '\U{000B}' || c == '\U{000C}'
    || ('\U{001C}' <= c <= '\U{001F}')
    || c == '\U{0085}' || c == '\U{00A0}' || c == '\U{1680}'
    || ('\U{2000}' <= c <= '\U{200A}')
    || c == '\U{2028}' || c == '\U{2029}' || c == '\U{202F}' || c == '\U{205F}' || c == '\U{3000}'
  }

  /** `s` without its leading white space. */
  function TrimStart(s: string): (r: string)
    ensures |r| <= |s| && r == s[|s| - |r|..]
    ensures r == [] || !IsSpace(r[0])
    ensures forall i :: 0 <= i < |s| - |r| ==> IsSpace(s[i])
  {
    if s != [] && IsSpace(s[0]) then TrimStart(s[1..]) else s
  }

  /** `s` without its trailing white space. */
  function TrimEnd(s: string): (r: string)
    ensures |r| <= |s| && r == s[..|r|]
    ensures r == [] || !IsSpace(r[|r| - 1])
    ensures forall i :: |r| <= i < |s| ==> IsSpace(s[i])
  {
    if s != [] && IsSpace(s[|s| - 1]) then TrimEnd(s[..|s| - 1]) else s
  }

  /** Python's `str.strip()` with no argument. */
  function Strip(s: string): string
  {
    TrimEnd(TrimStart(s))
  }

  /** A name strips to nothing exactly when every character is white space. */
  lemma StripEmptyIff(s: string)
    ensures Strip(s) == [] <==> forall i :: 0 <= i < |s| ==> IsSpace(s[i])
  {
    if forall i :: 0 <= i < |s| ==> IsSpace(s[i]) {
      AllSpaceTrimsToEmpty(s);
    }
  }

  /** A string of white space only loses every character to `TrimStart`. */
  lemma {:induction false} AllSpaceTrimsToEmpty(s: string)
    requires forall i :: 0 <= i < |s| ==> IsSpace(s[i])
    ensures TrimStart(s) == []
  {
    if s != [] {
      assert forall i :: 0 <= i < |s| - 1 ==> s[1..][i] == s[i + 1];
      AllSpaceTrimsToEmpty(s[1..]);
    }
  }

  /** Why the table or the form is turned away before optimisation. */
  datatype Rejection = MissingColumnsError(names: seq<string>) | BlankName

  /** The outcome of the checks: go on to optimise, or stop with a reason. */
  datatype Gate = Proceed | Stop(reason: Rejection)

  /** The checks in the order they run: the column check as soon as the
      table is loaded, the name check when optimisation is requested. */
  function Admit(columns: seq<string>, name: string): (r: Gate)
    ensures r == Proceed <==>
      (forall c :: c in RequiredColumns ==> c in columns) && (exists i :: 0 <= i < |name| && !IsSpace(name[i]))
    ensures r.Stop? && r.reason.MissingColumnsError? ==>
      r.reason.names != [] && forall c :: c in r.reason.names <==> c in RequiredColumns && c !in columns
    ensures r == Stop(BlankName) ==> forall c :: c in RequiredColumns ==> c in columns
  {
    MissingColumnsEmptyIff(columns);
    StripEmptyIff(name);
    var missing := MissingColumns(columns);
    if missing != [] then Stop(MissingColumnsError(missing))
    else if Strip(name) == [] then Stop(BlankName)
    else Proceed
  }

  // ---------------------------------------------------------------------
  // Solar column cleaning

  /** A cell of the uploaded table as read: a number, some text, or empty. */
  datatype Cell = Num(value: real) | Text(text: string) | Empty

  /** Replace the "no reading" marker by 0, then fill empty cells with 0. */
  function CleanCell(c: Cell): Cell
  {
    match c
    case Text(t) => if t == NoReading then Num(0.0) else c
    case Empty => Num(0.0)
    case Num(_) => c
  }

  /** The solar column after cleaning: no row is dropped, the marker and
      empty cells become 0, and every other cell is kept as it is. */
  function CleanSolar(column: seq<Cell>): (r: seq<Cell>)
    ensures |r| == |column|
    ensures forall i :: 0 <= i < |r| && (column[i] == Text(NoReading) || column[i] == Empty) ==> r[i] == Num(0.0)
    ensures forall i :: 0 <= i < |r| && column[i] != Text(NoReading) && column[i] != Empty ==> r[i] == column[i]
  {
    seq(|column|, i requires 0 <= i < |column| => CleanCell(column[i]))
  }

  /** Cleaning maps the marker and empty cells to 0 and leaves every other
      cell unchanged; afterwards the only non-numbers left are texts other
      than the marker. */
  lemma CleanSolarCells(column: seq<Cell>, i: int)
    requires 0 <= i < |column|
    ensures column[i] == Text(NoReading) || column[i] == Empty ==> CleanSolar(column)[i] == Num(0.0)
    ensures column[i] != Text(NoReading) && column[i] != Empty ==> CleanSolar(column)[i] == column[i]
    ensures CleanSolar(column)[i].Num? || (CleanSolar(column)[i].Text? && CleanSolar(column)[i].text != NoReading)
  {
  }

  /** Cleaning twice is cleaning once. */
  lemma CleanSolarIdempotent(column: seq<Cell>)
    ensures CleanSolar(CleanSolar(column)) == CleanSolar(column)
  {
  }

  /** A column of numbers, markers and empty cells becomes all numbers. */
  lemma CleanSolarAllNumbers(column: seq<Cell>)
    requires forall i :: 0 <= i < |column| ==> column[i].Num? || column[i] == Text(NoReading) || column[i] == Empty
    ensures forall i :: 0 <= i < |column| ==> CleanSolar(column)[i].Num?
  {
  }

  // ---------------------------------------------------------------------
  // Rated power and the appliance parameters

  /** The rated power entered in watts, in kilowatts. */
  function PowerKW(watts: int): (kw: real)
    ensures kw * 1000.0 == watts as real
    ensures 1 <= watts <= 20000 ==> 0.001 <= kw <= 20.0
  {
    watts as real / 1000.0
  }

  /** The appliance parameters handed to the formulation: the rated power
      entered in watts becomes kilowatts; the contracted power and the
      required hours pass through unchanged. */
  function MakeAppliance(watts: int, contractedKW: real, hours: int): (a: Appliance)
    ensures a.ratedKW * 1000.0 == watts as real
    ensures a.contractedKW == contractedKW && a.minHours == hours
    ensures Draw(a, true) == PowerKW(watts) && Draw(a, false) == 0.0
  {
    Appliance(PowerKW(watts), contractedKW, hours)
  }
}
