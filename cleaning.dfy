/** Reading and cleaning one fiscal-year partition (`process_fy`), row by row. */
module Cleaning {
  import opened Wrappers
  import opened Schema
  import opened FiscalYears

  /** A parsed award amount; its numeric value is never inspected here. */
  type Amount = real

  /** The lenient library parsers, taken as given: a parse that fails yields None. */
  datatype Parsers = Parsers(toDatetime: string -> Option<CalendarDate>, toNumeric: string -> Option<Amount>)

  /** One data line of an extract: column name -> text. A column absent from the
      map is an empty or NA cell. */
  type Record = map<string, string>

  /** A tokenised extract: its header and its data lines. */
  datatype SourceFile = SourceFile(header: seq<string>, records: seq<Record>)

  /** One row of a frame read as text: column name -> cell, None for a null cell. */
  type Frame = map<string, Option<string>>

  /** One cleaned row in the canonical schema. */
  datatype CleanRow = CleanRow(
    awardAmount: Option<Amount>,
    actionDate: Option<CalendarDate>,
    periodOfPerformanceStartDate: Option<CalendarDate>,
    naicsCode: Option<string>,
    productOrServiceCode: Option<string>,
    recipientUei: Option<string>,
    awardingSubAgencyName: Option<string>,
    typeOfContractPricing: Option<string>,
    extentCompeted: Option<string>,
    primaryPlaceOfPerformanceZip5: Option<string>,
    contractDescription: Option<string>,
    parentAwardAgencyId: Option<string>,
    fiscalYear: Option<int>)

  type Table = seq<CleanRow>

  /** The errors that end a run. */
  datatype RunError =
    | MissingColumns(columns: set<string>)  // read_csv with usecols naming absent columns
    | NothingToConcatenate                  // concat of an empty list of frames

  /** The cell a record holds for column `c`, None when it is empty. */
  function Cell(rec: Record, c: string): (cell: Option<string>)
    ensures cell.Some? <==> c in rec
    ensures cell.Some? ==> cell.value == rec[c]
  {
    if c in rec then Some(rec[c]) else None
  }

  /** One record read with `usecols=USE_COLS, dtype=str`: the twelve source columns as text. */
  function ReadRow(rec: Record): (f: Frame)
    ensures forall col :: col in f <==> col in UseCols
    ensures forall col :: col in f ==> f[col] == Cell(rec, col)
  {
    map col | col in UseCols :: Cell(rec, col)
  }

  /** The source columns the header lacks. */
  function MissingUseCols(header: seq<string>): set<string>
  {
    set c | c in UseCols && c !in header
  }

  /** `pd.read_csv(path, usecols=USE_COLS, dtype=str)`: fails when a required
      column is absent from the header, otherwise reads every record. */
  function ReadUseCols(file: SourceFile): (r: Result<seq<Frame>, RunError>)
    ensures r.Err? <==> exists c :: c in UseCols && c !in file.header
    ensures r.Err? ==> r.error.MissingColumns? && r.error.columns != {}
    ensures r.Err? ==> forall c :: c in r.error.columns <==> c in UseCols && c !in file.header
    ensures r.Ok? ==> |r.value| == |file.records|
    ensures r.Ok? ==> forall i :: 0 <= i < |r.value| ==> r.value[i] == ReadRow(file.records[i])
  {
    var missing := MissingUseCols(file.header);
    assert forall c :: c in UseCols && c !in file.header ==> c in missing;
    if missing != {} then
      Err(MissingColumns(missing))
    else
      Ok(seq(|file.records|, i requires 0 <= i < |file.records| => ReadRow(file.records[i])))
  }

  /** `df.rename(columns=reverse_map)` on one row of source columns. */
  function Rename(f: Frame): (r: Frame)
    requires forall c :: c in f ==> c in ReverseMap()
    ensures forall c :: c in f ==> ReverseMap()[c] in r && r[ReverseMap()[c]] == f[c]
    ensures forall k :: k in r ==> k in ColumnMap && ColumnMap[k] in f && r[k] == f[ColumnMap[k]]
  {
    ReverseMapInvertsColumnMap();
    map c | c in f :: ReverseMap()[c] := f[c]
  }

  /** `pd.to_datetime(..., errors="coerce")` on one cell: null stays null, a failed parse becomes null. */
  function ToDatetime(p: Parsers, cell: Option<string>): (d: Option<CalendarDate>)
    ensures cell.None? ==> d.None?
    ensures cell.Some? ==> d == p.toDatetime(cell.value)
  {
    match cell
    case None => None
    case Some(s) => p.toDatetime(s)
  }

  /** `pd.to_numeric(..., errors="coerce")` on one cell. */
  function ToNumeric(p: Parsers, cell: Option<string>): (a: Option<Amount>)
    ensures cell.None? ==> a.None?
    ensures cell.Some? ==> a == p.toNumeric(cell.value)
  {
    match cell
    case None => None
    case Some(s) => p.toNumeric(s)
  }

  function Min(a: int, b: int): int
  {
    if a <= b then a else b
  }

  /** `astype(str)` on one cell: a null cell is rendered as the text "nan". */
  function AsStr(cell: Option<string>): (s: string)
    ensures cell.None? ==> s == "nan"
    ensures cell.Some? ==> s == cell.value
  {
    match cell
    case None => "nan"
    case Some(s) => s
  }

  /** `.astype(str).str[:5].replace("nan", pd.NA)` on one cell. */
  function Zip5(cell: Option<string>): (z: Option<string>)
    ensures cell.None? ==> z.None?
    ensures z.Some? ==> |z.value| <= 5 && z.value <= AsStr(cell)
    ensures z.Some? ==> |z.value| == Min(5, |AsStr(cell)|)
    ensures z.None? <==> AsStr(cell)[..Min(5, |AsStr(cell)|)] == "nan"
  {
    var s := AsStr(cell);
    var prefix := s[..Min(5, |s|)];
    if prefix == "nan" then None else Some(prefix)
  }

  /** The cleaned zip is null exactly when the text rendering of the cell is
      "nan" (a null cell or the literal text): a cut of five characters can never equal it. */
  lemma {:induction false} Zip5NullExactlyForNan(cell: Option<string>)
    ensures Zip5(cell).None? <==> AsStr(cell) == "nan"
  {
    var s := AsStr(cell);
    if |s| > 5 {
      assert |s[..5]| != |"nan"|;
    }
  }

  /** A text of at most five characters other than "nan" passes through unchanged;
      a longer one is cut to its first five characters. */
  lemma Zip5KeepsOrCuts(s: string)
    requires s != "nan"
    ensures |s| <= 5 ==> Zip5(Some(s)) == Some(s)
    ensures |s| > 5 ==> Zip5(Some(s)) == Some(s[..5])
  {
    Zip5NullExactlyForNan(Some(s));
    if |s| <= 5 {
      assert s[..Min(5, |s|)] == s;
    }
  }

  lemma Zip5Examples()
    ensures Zip5(Some("123456789")) == Some("12345")
    ensures Zip5(Some("20500-0001")) == Some("20500")
    ensures Zip5(Some("2050")) == Some("2050")
    ensures Zip5(Some("nan")) == None
    ensures Zip5(None) == None
  {
    assert "123456789"[..5] == "12345";
    assert "20500-0001"[..5] == "20500";
    assert "2050"[..4] == "2050";
  }

  /** The cleaning steps of `process_fy` on one renamed row: coerce both dates and
      the amount, cut the zip, pass the text columns through, derive the fiscal year. */
  function CleanFrame(p: Parsers, f: Frame): (row: CleanRow)
    requires forall k :: k in ColumnMap ==> k in f
    ensures row.actionDate == ToDatetime(p, f["action_date"])
    ensures row.periodOfPerformanceStartDate == ToDatetime(p, f["period_of_performance_start_date"])
    ensures row.awardAmount == ToNumeric(p, f["award_amount"])
    ensures row.primaryPlaceOfPerformanceZip5 == Zip5(f["primary_place_of_performance_zip_5"])
    ensures row.contractDescription == f["contract_description"]
    ensures row.naicsCode == f["naics_code"] && row.productOrServiceCode == f["product_or_service_code"]
    ensures row.recipientUei == f["recipient_uei"] && row.awardingSubAgencyName == f["awarding_sub_agency_name"]
    ensures row.typeOfContractPricing == f["type_of_contract_pricing"] && row.extentCompeted == f["extent_competed"]
    ensures row.parentAwardAgencyId == f["parent_award_agency_id"]
    ensures row.fiscalYear.Some? <==> row.actionDate.Some?
    ensures row.actionDate.Some? ==> row.fiscalYear.value == FiscalYear(row.actionDate.value)
  {
    var actionDate := ToDatetime(p, f["action_date"]);
    CleanRow(
      awardAmount := ToNumeric(p, f["award_amount"]),
      actionDate := actionDate,
      periodOfPerformanceStartDate := ToDatetime(p, f["period_of_performance_start_date"]),
      naicsCode := f["naics_code"],
      productOrServiceCode := f["product_or_service_code"],
      recipientUei := f["recipient_uei"],
      awardingSubAgencyName := f["awarding_sub_agency_name"],
      typeOfContractPricing := f["type_of_contract_pricing"],
      extentCompeted := f["extent_competed"],
      primaryPlaceOfPerformanceZip5 := Zip5(f["primary_place_of_performance_zip_5"]),
      contractDescription := f["contract_description"],
      parentAwardAgencyId := f["parent_award_agency_id"],
      fiscalYear := ComputeFiscalYear(actionDate))
  }

  /** The rename of a row read with `usecols`: exactly the canonical columns,
      each holding the cell of its source column. */
  lemma RenameReadFrame(f: Frame)
    requires forall c :: c in f <==> c in UseCols
    ensures forall c :: c in f ==> c in ReverseMap()
    ensures forall k :: k in Rename(f) <==> k in ColumnMap
    ensures forall k :: k in ColumnMap ==> ColumnMap[k] in f && Rename(f)[k] == f[ColumnMap[k]]
  {
    UseColsAreTheValues();
    ReverseMapInvertsColumnMap();
    forall k | k in ColumnMap ensures k in Rename(f) {
      assert ReverseMap()[ColumnMap[k]] == k;
    }
  }

  /** The per-row pipeline of `process_fy` after the read: rename, then clean. */
  function CleanReadFrame(p: Parsers, f: Frame): (row: CleanRow)
    requires forall c :: c in f <==> c in UseCols
    ensures row.actionDate == ToDatetime(p, f[ColumnMap["action_date"]])
    ensures row.awardAmount == ToNumeric(p, f[ColumnMap["award_amount"]])
    ensures row.primaryPlaceOfPerformanceZip5 == Zip5(f[ColumnMap["primary_place_of_performance_zip_5"]])
    ensures row.periodOfPerformanceStartDate == ToDatetime(p, f[ColumnMap["period_of_performance_start_date"]])
    ensures row.contractDescription == f[ColumnMap["contract_description"]]
    ensures row.naicsCode == f[ColumnMap["naics_code"]]
    ensures row.productOrServiceCode == f[ColumnMap["product_or_service_code"]]
    ensures row.recipientUei == f[ColumnMap["recipient_uei"]]
    ensures row.awardingSubAgencyName == f[ColumnMap["awarding_sub_agency_name"]]
    ensures row.typeOfContractPricing == f[ColumnMap["type_of_contract_pricing"]]
    ensures row.extentCompeted == f[ColumnMap["extent_competed"]]
    ensures row.parentAwardAgencyId == f[ColumnMap["parent_award_agency_id"]]
    ensures row.fiscalYear == ComputeFiscalYear(row.actionDate)
  {
    RenameReadFrame(f);
    CleanFrame(p, Rename(f))
  }

  /** Cleans every row of a frame read with `usecols`. */
  function CleanFrames(p: Parsers, frames: seq<Frame>): (t: Table)
    requires forall i, c :: 0 <= i < |frames| ==> (c in frames[i] <==> c in UseCols)
    ensures |t| == |frames|
    ensures forall i :: 0 <= i < |t| ==> t[i] == CleanReadFrame(p, frames[i])
  {
    seq(|frames|, i requires 0 <= i < |frames| => CleanReadFrame(p, frames[i]))
  }

  /** `process_fy` given the listing of its folder: None when the listing is
      empty, otherwise the cleaned contents of the first listed file, or the
      error of reading it. */
  function ProcessFy(p: Parsers, csvs: seq<SourceFile>): (r: Result<Option<Table>, RunError>)
    ensures csvs == [] ==> r == Ok(None)
    ensures csvs != [] ==> (r.Err? <==> exists c :: c in UseCols && c !in csvs[0].header)
    ensures r.Err? ==> r.error.MissingColumns?
    ensures csvs != [] && r.Ok? ==> r.value.Some? && |r.value.value| == |csvs[0].records|
    ensures csvs != [] && r.Ok? ==> forall i :: 0 <= i < |r.value.value| ==>
              r.value.value[i] == CleanReadFrame(p, ReadRow(csvs[0].records[i]))
  {
    if csvs == [] then
      Ok(None)
    else
      match ReadUseCols(csvs[0])
      case Err(e) => Err(e)
      case Ok(frames) => Ok(Some(CleanFrames(p, frames)))
  }

  /** Only the first listed file is read: the rest of the listing never matters. */
  lemma OnlyFirstFileIsRead(p: Parsers, first: SourceFile, rest1: seq<SourceFile>, rest2: seq<SourceFile>)
    ensures ProcessFy(p, [first] + rest1) == ProcessFy(p, [first] + rest2)
  {
  }

  /** The fields of a cleaned row in terms of the cells of the source record:
      a failed or missing date or amount is null and never an error, and the
      fiscal year is null exactly when the action date is. */
  lemma CleanedRowFromRecord(p: Parsers, rec: Record)
    ensures CleanReadFrame(p, ReadRow(rec)).actionDate == ToDatetime(p, Cell(rec, "action_date"))
    ensures CleanReadFrame(p, ReadRow(rec)).awardAmount == ToNumeric(p, Cell(rec, "federal_action_obligation"))
    ensures CleanReadFrame(p, ReadRow(rec)).primaryPlaceOfPerformanceZip5 == Zip5(Cell(rec, "primary_place_of_performance_zip_4"))
    ensures CleanReadFrame(p, ReadRow(rec)).periodOfPerformanceStartDate == ToDatetime(p, Cell(rec, "period_of_performance_start_date"))
    ensures CleanReadFrame(p, ReadRow(rec)).contractDescription == Cell(rec, "transaction_description")
    ensures CleanReadFrame(p, ReadRow(rec)).fiscalYear.None? <==>
              ("action_date" !in rec || p.toDatetime(rec["action_date"]).None?)
  {
    var f := ReadRow(rec);
    assert ColumnMap["action_date"] == "action_date";
    assert ColumnMap["award_amount"] == "federal_action_obligation";
    assert ColumnMap["primary_place_of_performance_zip_5"] == "primary_place_of_performance_zip_4";
    assert ColumnMap["contract_description"] == "transaction_description";
    assert ColumnMap["period_of_performance_start_date"] == "period_of_performance_start_date";
    UseColsListTheValues();
  }

  /** The seven text columns whose source and canonical names agree pass
      through from the record unchanged. */
  lemma PassThroughFromRecord(p: Parsers, rec: Record)
    ensures CleanReadFrame(p, ReadRow(rec)).naicsCode == Cell(rec, "naics_code")
    ensures CleanReadFrame(p, ReadRow(rec)).productOrServiceCode == Cell(rec, "product_or_service_code")
    ensures CleanReadFrame(p, ReadRow(rec)).recipientUei == Cell(rec, "recipient_uei")
    ensures CleanReadFrame(p, ReadRow(rec)).awardingSubAgencyName == Cell(rec, "awarding_sub_agency_name")
    ensures CleanReadFrame(p, ReadRow(rec)).typeOfContractPricing == Cell(rec, "type_of_contract_pricing")
    ensures CleanReadFrame(p, ReadRow(rec)).extentCompeted == Cell(rec, "extent_competed")
    ensures CleanReadFrame(p, ReadRow(rec)).parentAwardAgencyId == Cell(rec, "parent_award_agency_id")
  {
    assert ColumnMap["naics_code"] == "naics_code";
    assert ColumnMap["product_or_service_code"] == "product_or_service_code";
    assert ColumnMap["recipient_uei"] == "recipient_uei";
    assert ColumnMap["awarding_sub_agency_name"] == "awarding_sub_agency_name";
    assert ColumnMap["type_of_contract_pricing"] == "type_of_contract_pricing";
    assert ColumnMap["extent_competed"] == "extent_competed";
    assert ColumnMap["parent_award_agency_id"] == "parent_award_agency_id";
    UseColsListTheValues();
  }
}
