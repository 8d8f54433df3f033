/** The per-state summary of the eligible schemes: the two `groupby('State')`
    aggregations (the Benefit sum and the details text) and the merge of the two. */
module Aggregation {
  import opened Wrappers
  import opened Eligibility
  import opened Details

  /** One row of the merged summary table; `schemeDetails` is `None` where the left
      merge found no details row for the state (pandas would hold NaN there). */
  datatype StateSummary = StateSummary(totalBenefit: nat, schemeDetails: Option<string>)

  /** The distinct State values of `rs`: the group keys. */
  function StatesOf(rs: seq<SchemeRecord>): (states: set<string>)
  {
    if rs == [] then {} else {rs[0].state} + StatesOf(rs[1..])
  }

  /** The group keys are exactly the states some record carries. */
  lemma {:induction false} StatesOfMembers(rs: seq<SchemeRecord>, s: string)
    ensures s in StatesOf(rs) <==> exists i :: 0 <= i < |rs| && rs[i].state == s
    decreases |rs|
  {
    if rs != [] {
      StatesOfMembers(rs[1..], s);
      if s != rs[0].state && s in StatesOf(rs[1..]) {
        var i :| 0 <= i < |rs[1..]| && rs[1..][i].state == s;
        assert rs[i + 1].state == s;
      }
      if exists i :: 0 <= i < |rs| && rs[i].state == s {
        var i :| 0 <= i < |rs| && rs[i].state == s;
        if i > 0 {
          assert rs[1..][i - 1].state == s;
        }
      }
    }
  }

  /** The group of state `s`: its records, in table order. */
  function StateRecords(rs: seq<SchemeRecord>, s: string): (group: seq<SchemeRecord>)
    ensures |group| > 0 <==> s in StatesOf(rs)
  {
    if rs == [] then []
    else (if rs[0].state == s then [rs[0]] else []) + StateRecords(rs[1..], s)
  }

  /** A group holds records of the table with that state and no others. */
  lemma {:induction false} StateRecordsMembers(rs: seq<SchemeRecord>, s: string)
    ensures forall x :: x in StateRecords(rs, s) <==> x in rs && x.state == s
    decreases |rs|
  {
    if rs != [] {
      StateRecordsMembers(rs[1..], s);
      assert rs == [rs[0]] + rs[1..];
    }
  }

  function SumBenefit(rs: seq<SchemeRecord>): nat {
    if rs == [] then 0 else rs[0].benefit + SumBenefit(rs[1..])
  }

  /** The detail item of every record, in order. */
  function Items(rs: seq<SchemeRecord>): (items: seq<string>)
    ensures |items| == |rs|
    ensures forall i :: 0 <= i < |rs| ==> items[i] == DetailItem(rs[i].schemeName, rs[i].benefit)
  {
    if rs == [] then [] else [DetailItem(rs[0].schemeName, rs[0].benefit)] + Items(rs[1..])
  }

  /** `groupby('State').agg({'Benefit': 'sum'})`, renamed to Total Benefit. */
  function TotalsByState(rs: seq<SchemeRecord>): (totals: map<string, nat>)
    ensures totals.Keys == StatesOf(rs)
  {
    if rs == [] then map[]
    else
      var m := TotalsByState(rs[1..]);
      var h := rs[0];
      m[h.state := h.benefit + (if h.state in m then m[h.state] else 0)]
  }

  /** Each state's Total Benefit is the exact sum of the Benefit of its records. */
  lemma {:induction false} TotalsByStateSum(rs: seq<SchemeRecord>, s: string)
    requires s in StatesOf(rs)
    ensures TotalsByState(rs)[s] == SumBenefit(StateRecords(rs, s))
    decreases |rs|
  {
    var h, rest := rs[0], StateRecords(rs[1..], s);
    if s == h.state {
      assert StateRecords(rs, s) == [h] + rest;
      assert ([h] + rest)[1..] == rest;
      if s in StatesOf(rs[1..]) {
        TotalsByStateSum(rs[1..], s);
      }
    } else {
      assert StateRecords(rs, s) == rest;
      TotalsByStateSum(rs[1..], s);
    }
  }

  /** `groupby('State').apply(lambda x: '<br>'.join(...))`, named Scheme Details. */
  function DetailsByState(rs: seq<SchemeRecord>): (details: map<string, string>)
    ensures details.Keys == StatesOf(rs)
  {
    if rs == [] then map[]
    else
      var m := DetailsByState(rs[1..]);
      var h := rs[0];
      var item := DetailItem(h.schemeName, h.benefit);
      m[h.state := if h.state in m then item + Sep + m[h.state] else item]
  }

  /** Each state's Scheme Details is the `"<br>"` join of the items of its records, in order. */
  lemma {:induction false} DetailsByStateJoin(rs: seq<SchemeRecord>, s: string)
    requires s in StatesOf(rs)
    ensures DetailsByState(rs)[s] == Join(Items(StateRecords(rs, s)))
    decreases |rs|
  {
    var h, rest := rs[0], StateRecords(rs[1..], s);
    if s == h.state {
      var group := [h] + rest;
      assert StateRecords(rs, s) == group;
      assert group[1..] == rest;
      assert Items(group) == [DetailItem(h.schemeName, h.benefit)] + Items(rest);
      assert Items(group)[1..] == Items(rest);
      if s in StatesOf(rs[1..]) {
        DetailsByStateJoin(rs[1..], s);
      }
    } else {
      assert StateRecords(rs, s) == rest;
      DetailsByStateJoin(rs[1..], s);
    }
  }

  /** `pd.merge(totals, details, on='State', how='left')`: every totals row is kept
      and gets the details row of its state, if there is one. */
  function MergeSummaries(totals: map<string, nat>, details: map<string, string>)
    : (merged: map<string, StateSummary>)
    ensures merged.Keys == totals.Keys
    ensures forall s :: s in merged ==> merged[s].totalBenefit == totals[s]
    ensures forall s :: s in merged ==> (merged[s].schemeDetails.Some? <==> s in details)
    ensures forall s :: s in merged && s in details ==> merged[s].schemeDetails == Some(details[s])
  {
    map s | s in totals :: StateSummary(totals[s], if s in details then Some(details[s]) else None)
  }

  /** The merged summary of the eligible records: one entry per distinct state, with
      the exact Benefit sum and the joined items of that state's records. */
  function Aggregate(filtered: seq<SchemeRecord>): (summary: map<string, StateSummary>)
    ensures summary.Keys == StatesOf(filtered)
    ensures forall s :: s in summary ==>
      summary[s] == StateSummary(SumBenefit(StateRecords(filtered, s)),
                                 Some(Join(Items(StateRecords(filtered, s)))))
  {
    var totals, details := TotalsByState(filtered), DetailsByState(filtered);
    assert forall s :: s in totals ==>
      && totals[s] == SumBenefit(StateRecords(filtered, s))
      && details[s] == Join(Items(StateRecords(filtered, s))) by {
      forall s | s in totals
        ensures totals[s] == SumBenefit(StateRecords(filtered, s))
        ensures details[s] == Join(Items(StateRecords(filtered, s)))
      {
        TotalsByStateSum(filtered, s);
        DetailsByStateJoin(filtered, s);
      }
    }
    MergeSummaries(totals, details)
  }

  /** Every record's benefit, as the amount it contributes. */
  function BenefitAmounts(rs: seq<SchemeRecord>): seq<Option<nat>> {
    seq(|rs|, i requires 0 <= i < |rs| => Some(rs[i].benefit))
  }

  /** Each item reads back as the Benefit of the record it was rendered from. */
  lemma AmountsOfItems(rs: seq<SchemeRecord>)
    ensures Amounts(Items(rs)) == BenefitAmounts(rs)
  {
    forall i | 0 <= i < |rs| ensures Amounts(Items(rs))[i] == BenefitAmounts(rs)[i] {
      ItemAmountOfDetailItem(rs[i].schemeName, rs[i].benefit);
    }
  }

  /** Adding up every record's benefit amount gives the group's Benefit sum. */
  lemma {:induction false} SumBenefitAmounts(rs: seq<SchemeRecord>)
    ensures SumOptions(BenefitAmounts(rs)) == Some(SumBenefit(rs))
    decreases |rs|
  {
    if rs != [] {
      assert BenefitAmounts(rs)[1..] == BenefitAmounts(rs[1..]);
      SumBenefitAmounts(rs[1..]);
    }
  }

  /** The amounts written in a group's items add up to the group's Benefit sum. */
  lemma ItemsSumToTotal(rs: seq<SchemeRecord>)
    ensures SumOptions(Amounts(Items(rs))) == Some(SumBenefit(rs))
  {
    AmountsOfItems(rs);
    SumBenefitAmounts(rs);
  }

  /** Read back from the text alone, a state's Scheme Details list one item per
      record of the state and their amounts add up to its Total Benefit. Names
      without `'<'` are a sufficient condition for the separator to be unambiguous;
      only a name containing `"<br>"` would actually split into extra items. */
  lemma TotalMatchesDetails(filtered: seq<SchemeRecord>, s: string)
    requires s in StatesOf(filtered)
    requires forall x :: x in filtered && x.state == s ==> '<' !in x.schemeName
    ensures var summary := Aggregate(filtered)[s];
      && summary.schemeDetails.Some?
      && |Split(summary.schemeDetails.value)| == |StateRecords(filtered, s)|
      && SumOptions(Amounts(Split(summary.schemeDetails.value))) == Some(summary.totalBenefit)
  {
    var group := StateRecords(filtered, s);
    var items := Items(group);
    assert NoItemContainsLt(items) by {
      StateRecordsMembers(filtered, s);
      forall i | 0 <= i < |items| ensures '<' !in items[i] {
        assert group[i] in group;
      }
    }
    SplitJoin(items);
    ItemsSumToTotal(group);
  }

  /** Each state's details text holds exactly one separator fewer than the state has records. */
  lemma DetailsSeparators(filtered: seq<SchemeRecord>, s: string)
    requires s in StatesOf(filtered)
    ensures var summary := Aggregate(filtered)[s];
      var group := StateRecords(filtered, s);
      && summary.schemeDetails.Some?
      && |summary.schemeDetails.value| == TotalLength(Items(group)) + |Sep| * (|group| - 1)
  {
    JoinLength(Items(StateRecords(filtered, s)));
  }
}
