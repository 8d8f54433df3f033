/** Worked examples of one submission each, stated on concrete tables. */
module Scenarios {
  import opened Wrappers
  import opened Grouping
  import opened Eligibility
  import opened Details
  import opened Aggregation
  import opened GeoJoin
  import opened SchemePipeline

  const GoaStudent := SchemeRecord("Student", "Any", 200000, "S1", "Goa", 5000)

  /** A wildcard-gender record under the income ceiling is eligible, and its state's
      summary totals and lists it with its amount grouped by thousands. */
  lemma ScenarioSingleRecord()
    ensures Filter([GoaStudent], "Student", "Female", 100000) == [GoaStudent]
    ensures Aggregate([GoaStudent]) == map["Goa" := StateSummary(5000, Some("S1: \U{20B9}5,000"))]
  {
    var rs := [GoaStudent];
    assert FormatGrouped(5000) == "5,000";
    assert StatesOf(rs) == {"Goa"};
    assert StateRecords(rs, "Goa") == rs;
    assert DetailItem("S1", 5000) == "S1: \U{20B9}5,000";
    assert Items(rs) == ["S1: \U{20B9}5,000"];
    var summary := Aggregate(rs);
    assert summary.Keys == {"Goa"};
    assert summary["Goa"] == StateSummary(5000, Some("S1: \U{20B9}5,000"));
  }

  /** Nothing matches: the submission stops with no summary and no map. */
  lemma ScenarioNothingMatches(regions: seq<Region<int>>)
    ensures Pipeline([GoaStudent], "Student", "Female", 300000, regions) == NoSchemesFound
    ensures Pipeline([GoaStudent], "Worker", "Female", 0, regions) == NoSchemesFound
  {
  }

  const GoaA := SchemeRecord("Student", "Any", 200000, "A", "Goa", 1000)
  const GoaB := SchemeRecord("Student", "Male", 200000, "B", "Goa", 2000)

  lemma TwoSchemesGroup()
    ensures StateRecords([GoaA, GoaB], "Goa") == [GoaA, GoaB]
    ensures SumBenefit([GoaA, GoaB]) == 3000
  {
    assert [GoaA, GoaB][1..] == [GoaB];
    assert StateRecords([GoaB], "Goa") == [GoaB];
    assert SumBenefit([GoaB]) == 2000;
  }

  lemma TwoSchemesItems()
    ensures Items([GoaA, GoaB]) == ["A: \U{20B9}1,000", "B: \U{20B9}2,000"]
  {
    assert FormatGrouped(1000) == "1,000";
    assert FormatGrouped(2000) == "2,000";
    assert DetailItem("A", 1000) == "A: \U{20B9}1,000";
    assert DetailItem("B", 2000) == "B: \U{20B9}2,000";
    assert [GoaA, GoaB][1..] == [GoaB];
    assert Items([GoaB]) == ["B: \U{20B9}2,000"];
  }

  /** Two schemes of one state: the benefits add up and both items are listed in table order. */
  lemma ScenarioTwoSchemesOneState()
    ensures "Goa" in Aggregate([GoaA, GoaB])
    ensures Aggregate([GoaA, GoaB])["Goa"] == StateSummary(3000, Some("A: \U{20B9}1,000<br>B: \U{20B9}2,000"))
  {
    TwoSchemesGroup();
    TwoSchemesItems();
    assert "Goa" in StatesOf([GoaA, GoaB]);
    var items := ["A: \U{20B9}1,000", "B: \U{20B9}2,000"];
    assert items[1..] == ["B: \U{20B9}2,000"];
    assert Join(items) == "A: \U{20B9}1,000<br>B: \U{20B9}2,000";
  }

  /** A region no eligible scheme names gets the defaults; the matched one its summary. */
  lemma ScenarioRegionWithoutSchemes()
    ensures Pipeline([GoaStudent], "Student", "Female", 100000, [Region("Goa", 1), Region("Kerala", 2)])
         == Results([GoaStudent], [EnrichedRegion("Goa", 1, 5000, "S1: \U{20B9}5,000"),
                                   EnrichedRegion("Kerala", 2, 0, "No Schemes Available")])
  {
    ScenarioSingleRecord();
  }
}
