/** The left merge of the state summary onto the dissolved map regions, with the
    defaults `fillna` writes into regions that no summary matched. */
module GeoJoin {
  import opened Wrappers
  import opened Aggregation

  /** One dissolved region: a state name and its geometry, carried through untouched. */
  datatype Region<G> = Region(state: string, geometry: G)

  /** A region with its Total Benefit and Scheme Details columns filled in. */
  datatype EnrichedRegion<G> = EnrichedRegion(state: string, geometry: G, totalBenefit: nat, schemeDetails: string)

  const NoSchemesAvailable: string := "No Schemes Available"

  /** No two regions share a state name, as `dissolve(by="STATE")` guarantees. */
  predicate DistinctStates<G>(regions: seq<Region<G>>) {
    forall i, j :: 0 <= i < j < |regions| ==> regions[i].state != regions[j].state
  }

  /** One output row: the summary of the region's state (exact name match), and the
      two `fillna` defaults wherever the merge left a cell missing. */
  function Enrich<G>(region: Region<G>, summaries: map<string, StateSummary>): EnrichedRegion<G> {
    if region.state in summaries then
      var summary := summaries[region.state];
      EnrichedRegion(region.state, region.geometry, summary.totalBenefit,
                     summary.schemeDetails.GetOr(NoSchemesAvailable))
    else
      EnrichedRegion(region.state, region.geometry, 0, NoSchemesAvailable)
  }

  /** `gdf_states.merge(summary, how='left', left_on='STATE', right_on='State')` followed
      by `fillna(0)` on Total Benefit and `fillna("No Schemes Available")` on Scheme Details. */
  function LeftJoin<G>(regions: seq<Region<G>>, summaries: map<string, StateSummary>)
    : (joined: seq<EnrichedRegion<G>>)
    ensures |joined| == |regions|
    ensures forall i :: 0 <= i < |regions| ==>
      joined[i].state == regions[i].state && joined[i].geometry == regions[i].geometry
    ensures forall i :: 0 <= i < |regions| && regions[i].state in summaries ==>
      && joined[i].totalBenefit == summaries[regions[i].state].totalBenefit
      && joined[i].schemeDetails == summaries[regions[i].state].schemeDetails.GetOr(NoSchemesAvailable)
    ensures forall i :: 0 <= i < |regions| && regions[i].state !in summaries ==>
      joined[i].totalBenefit == 0 && joined[i].schemeDetails == NoSchemesAvailable
  {
    if regions == [] then [] else [Enrich(regions[0], summaries)] + LeftJoin(regions[1..], summaries)
  }

  /** A summary whose state names no region appears nowhere: neither its name nor its
      values reach any row, so removing it leaves the whole join unchanged. */
  lemma {:induction false} UnmatchedSummaryDropped<G>(regions: seq<Region<G>>, summaries: map<string, StateSummary>, s: string)
    requires s in summaries
    requires forall i :: 0 <= i < |regions| ==> regions[i].state != s
    ensures forall i :: 0 <= i < |LeftJoin(regions, summaries)| ==> LeftJoin(regions, summaries)[i].state != s
    ensures LeftJoin(regions, summaries) == LeftJoin(regions, summaries - {s})
    decreases |regions|
  {
    if regions != [] {
      UnmatchedSummaryDropped(regions[1..], summaries, s);
    }
  }

  /** Over dissolved regions, a summary whose state names a region lands in exactly one row, which carries the whole summary. */
  lemma MatchedSummaryOnce<G>(regions: seq<Region<G>>, summaries: map<string, StateSummary>, k: nat)
    requires DistinctStates(regions)
    requires k < |regions| && regions[k].state in summaries
    ensures var joined := LeftJoin(regions, summaries);
      && joined[k].totalBenefit == summaries[regions[k].state].totalBenefit
      && joined[k].schemeDetails == summaries[regions[k].state].schemeDetails.GetOr(NoSchemesAvailable)
      && forall i :: 0 <= i < |joined| && joined[i].state == regions[k].state ==> i == k
  {
  }
}
