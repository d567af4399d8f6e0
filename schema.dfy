/** The fixed configuration of the batch job: the column mapping, the source
    columns to read, the fiscal-year folders and the expected fiscal years. */
module Schema {

  /** Canonical column names, in the insertion order of the mapping. */
  const CanonicalColumns: seq<string> := [
    "award_amount", "action_date", "period_of_performance_start_date",
    "naics_code", "product_or_service_code", "recipient_uei",
    "awarding_sub_agency_name", "type_of_contract_pricing", "extent_competed",
    "primary_place_of_performance_zip_5", "contract_description",
    "parent_award_agency_id"
  ]

  /** Canonical column name -> column name in the source extract. */
  const ColumnMap: map<string, string> := map[
    "award_amount" := "federal_action_obligation",
    "action_date" := "action_date",
    "period_of_performance_start_date" := "period_of_performance_start_date",
    "naics_code" := "naics_code",
    "product_or_service_code" := "product_or_service_code",
    "recipient_uei" := "recipient_uei",
    "awarding_sub_agency_name" := "awarding_sub_agency_name",
    "type_of_contract_pricing" := "type_of_contract_pricing",
    "extent_competed" := "extent_competed",
    "primary_place_of_performance_zip_5" := "primary_place_of_performance_zip_4",
    "contract_description" := "transaction_description",
    "parent_award_agency_id" := "parent_award_agency_id"
  ]

  /** The source columns to read: the mapping's values, in the mapping's order
      (UseColsListTheValues proves it). */
  const UseCols: seq<string> := [
    "federal_action_obligation", "action_date", "period_of_performance_start_date",
    "naics_code", "product_or_service_code", "recipient_uei",
    "awarding_sub_agency_name", "type_of_contract_pricing", "extent_competed",
    "primary_place_of_performance_zip_4", "transaction_description",
    "parent_award_agency_id"
  ]

  /** The fiscal-year partition folders, walked in this order. */
  const FyFolders: seq<string> := [
    "FY2017", "FY2018", "FY2019", "FY2020",
    "FY2021", "FY2022", "FY2023", "FY2024", "FY2025"
  ]

  /** The fiscal years a complete run is expected to cover: range(2017, 2026). */
  const FirstExpectedYear: int := 2017
  const EndExpectedYear: int := 2026

  ghost predicate Injective(m: map<string, string>)
  {
    forall k1, k2 :: k1 in m && k2 in m && k1 != k2 ==> m[k1] != m[k2]
  }

  lemma ColumnMapInjective()
    ensures Injective(ColumnMap)
  {
  }

  /** `{v: k for k, v in COLUMN_MAP.items()}`: source column -> canonical column. */
  function ReverseMap(): (rm: map<string, string>)
    ensures rm.Keys == ColumnMap.Values
    ensures forall k :: k in ColumnMap ==> rm[ColumnMap[k]] == k
  {
    ColumnMapInjective();
    map k | k in ColumnMap :: ColumnMap[k] := k
  }

  /** The inverse is exact: it is defined on every source column, only yields
      canonical columns, and undoes the mapping in both directions. */
  lemma ReverseMapInvertsColumnMap()
    ensures ReverseMap().Keys == ColumnMap.Values
    ensures ReverseMap().Values == ColumnMap.Keys
    ensures forall k :: k in ColumnMap ==> ReverseMap()[ColumnMap[k]] == k
    ensures forall v :: v in ReverseMap() ==> ColumnMap[ReverseMap()[v]] == v
    ensures Injective(ReverseMap())
  {
    var rm := ReverseMap();
    forall v | v in rm ensures ColumnMap[rm[v]] == v {
      var k :| k in ColumnMap && ColumnMap[k] == v;
      assert rm[v] == k;
    }
    forall k | k in ColumnMap ensures k in rm.Values {
      assert rm[ColumnMap[k]] == k;
    }
  }

  lemma CanonicalColumnsAreTheKeys()
    ensures forall i :: 0 <= i < |CanonicalColumns| ==> CanonicalColumns[i] in ColumnMap
    ensures forall k :: k in ColumnMap ==> k in CanonicalColumns
  {
  }

  /** `USE_COLS = list(COLUMN_MAP.values())`: position by position. */
  lemma UseColsListTheValues()
    ensures |UseCols| == |CanonicalColumns|
    ensures forall i :: 0 <= i < |UseCols| ==> CanonicalColumns[i] in ColumnMap && UseCols[i] == ColumnMap[CanonicalColumns[i]]
  {
  }

  lemma UseColsAreDistinct()
    ensures |UseCols| == 12
    ensures forall i, j :: 0 <= i < j < |UseCols| ==> UseCols[i] != UseCols[j]
  {
  }

  lemma UseColsAreTheValues()
    ensures forall c :: c in UseCols <==> c in ColumnMap.Values
  {
    CanonicalColumnsAreTheKeys();
    UseColsListTheValues();
    forall c | c in UseCols ensures c in ColumnMap.Values {
      var i :| 0 <= i < |UseCols| && UseCols[i] == c;
      assert ColumnMap[CanonicalColumns[i]] == c;
    }
    forall v | v in ColumnMap.Values ensures v in UseCols {
      var k :| k in ColumnMap && ColumnMap[k] == v;
      var i :| 0 <= i < |CanonicalColumns| && CanonicalColumns[i] == k;
      assert UseCols[i] == v;
    }
  }

  /** Renaming the twelve source columns through the inverse gives exactly the
      twelve canonical columns, position by position. */
  lemma RenamingUseColsGivesCanonicalColumns()
    ensures forall c :: c in UseCols ==> c in ReverseMap() && ReverseMap()[c] in ColumnMap
    ensures forall i :: 0 <= i < |UseCols| ==> ReverseMap()[UseCols[i]] == CanonicalColumns[i]
  {
    UseColsAreTheValues();
    UseColsListTheValues();
    ReverseMapInvertsColumnMap();
    forall i | 0 <= i < |UseCols| ensures ReverseMap()[UseCols[i]] == CanonicalColumns[i] {
      assert UseCols[i] == ColumnMap[CanonicalColumns[i]];
    }
  }

  /** `transaction_description` is renamed to `contract_description`. */
  lemma DescriptionIsRenamed()
    ensures "transaction_description" in ReverseMap()
    ensures ReverseMap()["transaction_description"] == "contract_description"
  {
    assert ColumnMap["contract_description"] == "transaction_description";
  }

  /** `federal_action_obligation` is renamed to `award_amount`. */
  lemma ObligationIsRenamed()
    ensures "federal_action_obligation" in ReverseMap()
    ensures ReverseMap()["federal_action_obligation"] == "award_amount"
  {
    assert ColumnMap["award_amount"] == "federal_action_obligation";
  }

  /** The zip+4 source column becomes the five-character zip column. */
  lemma ZipColumnIsRenamed()
    ensures "primary_place_of_performance_zip_4" in ReverseMap()
    ensures ReverseMap()["primary_place_of_performance_zip_4"] == "primary_place_of_performance_zip_5"
  {
    assert ColumnMap["primary_place_of_performance_zip_5"] == "primary_place_of_performance_zip_4";
  }
}
