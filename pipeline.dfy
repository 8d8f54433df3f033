/** One form submission: filter, stop on an empty result, aggregate per state, and
    join the summary onto the map regions. */
module SchemePipeline {
  import opened Wrappers
  import opened Eligibility
  import opened Details
  import opened Aggregation
  import opened GeoJoin

  /** The terminal "no schemes found" outcome, or the eligible records (the table
      shown under the map) together with the enriched regions (the map's data). */
  datatype Outcome<G> =
    | NoSchemesFound
    | Results(eligible: seq<SchemeRecord>, regions: seq<EnrichedRegion<G>>)

  function Pipeline<G>(records: seq<SchemeRecord>, category: string, gender: string, income: nat,
                       regions: seq<Region<G>>): (outcome: Outcome<G>)
    ensures outcome.NoSchemesFound? <==>
      forall i :: 0 <= i < |records| ==> !Eligible(records[i], category, gender, income)
    ensures outcome.Results? ==>
      && outcome.eligible == Filter(records, category, gender, income)
      && |outcome.regions| == |regions|
  {
    var filtered := Filter(records, category, gender, income);
    if filtered == [] then
      NoSchemesFound
    else
      SubsequenceMembers(filtered, records, filtered[0]);
      Results(filtered, LeftJoin(regions, Aggregate(filtered)))
  }

  /** Filtering the table and then taking a state's group gives the eligible records
      of that state's group, in table order. */
  lemma {:induction false} FilterThenGroup(records: seq<SchemeRecord>, category: string, gender: string,
                                           income: nat, s: string)
    ensures StateRecords(Filter(records, category, gender, income), s)
         == Filter(StateRecords(records, s), category, gender, income)
    decreases |records|
  {
    if records != [] {
      var h, tail := records[0], records[1..];
      FilterThenGroup(tail, category, gender, income, s);
      var ft := Filter(tail, category, gender, income);
      var gt := StateRecords(tail, s);
      if h.state == s {
        assert StateRecords(records, s) == [h] + gt;
        assert ([h] + gt)[1..] == gt;
        if Eligible(h, category, gender, income) {
          assert ([h] + ft)[1..] == ft;
        }
      } else {
        assert StateRecords(records, s) == gt;
        if Eligible(h, category, gender, income) {
          assert Filter(records, category, gender, income) == [h] + ft;
          assert ([h] + ft)[1..] == ft;
          assert StateRecords([h] + ft, s) == StateRecords(ft, s);
        } else {
          assert Filter(records, category, gender, income) == ft;
        }
      }
    }
  }

  /** A state's joined details are never the default text: every item carries a rupee sign. */
  lemma DetailsNeverDefault(group: seq<SchemeRecord>)
    requires group != []
    ensures Join(Items(group)) != NoSchemesAvailable
  {
    var items := Items(group);
    JoinStartsWithFirst(items);
    var p := |group[0].schemeName| + 2;
    assert items[0][p] == Rupee;
    assert Join(items)[p] == Rupee;
    assert Rupee !in NoSchemesAvailable;
  }

  /** A region's row after the join, in terms of the group of its state. */
  lemma JoinedRow<G>(filtered: seq<SchemeRecord>, regions: seq<Region<G>>, k: nat)
    requires k < |regions|
    ensures var row := LeftJoin(regions, Aggregate(filtered))[k];
      var group := StateRecords(filtered, regions[k].state);
      && row.totalBenefit == SumBenefit(group)
      && row.schemeDetails == (if group == [] then NoSchemesAvailable else Join(Items(group)))
  {
  }

  /** Every map row, end to end: the total and the listed items of the eligible
      schemes of that row's state, and the "No Schemes Available" default exactly
      when the state has none. */
  lemma PipelineRow<G>(records: seq<SchemeRecord>, category: string, gender: string, income: nat,
                       regions: seq<Region<G>>, k: nat)
    requires Pipeline(records, category, gender, income, regions).Results?
    requires k < |regions|
    ensures var row := Pipeline(records, category, gender, income, regions).regions[k];
      var schemes := Filter(StateRecords(records, regions[k].state), category, gender, income);
      && row.state == regions[k].state
      && row.geometry == regions[k].geometry
      && row.totalBenefit == SumBenefit(schemes)
      && row.schemeDetails == (if schemes == [] then NoSchemesAvailable else Join(Items(schemes)))
      && (row.schemeDetails == NoSchemesAvailable <==> schemes == [])
  {
    var filtered := Filter(records, category, gender, income);
    var schemes := StateRecords(filtered, regions[k].state);
    FilterThenGroup(records, category, gender, income, regions[k].state);
    JoinedRow(filtered, regions, k);
    if schemes != [] {
      DetailsNeverDefault(schemes);
    }
  }
}
