/** The scheme table and the eligibility mask of the submitted form. */
module Eligibility {

  /** One row of the scheme table. */
  datatype SchemeRecord = SchemeRecord(
    category: string,
    gender: string,
    maxAnnualIncome: nat,
    schemeName: string,
    state: string,
    benefit: nat)

  /** The Gender value that matches every selected gender. */
  const AnyGender: string := "Any"

  /** The three conjuncts of the boolean mask. */
  predicate Eligible(x: SchemeRecord, category: string, gender: string, income: nat) {
    && x.category == category
    && (x.gender == gender || x.gender == AnyGender)
    && x.maxAnnualIncome >= income
  }

  /** `a` is `b` with some elements removed, the rest kept in order. */
  ghost predicate IsSubsequence<T>(a: seq<T>, b: seq<T>)
    decreases |b|
  {
    if a == [] then true
    else if b == [] then false
    else (a[0] == b[0] && IsSubsequence(a[1..], b[1..])) || IsSubsequence(a, b[1..])
  }

  /** `df[mask]`: the eligible rows, in table order. */
  function Filter(records: seq<SchemeRecord>, category: string, gender: string, income: nat)
    : (r: seq<SchemeRecord>)
    ensures forall x :: x in r ==> Eligible(x, category, gender, income)
    ensures forall i :: 0 <= i < |records| && Eligible(records[i], category, gender, income) ==> records[i] in r
    ensures IsSubsequence(r, records)
  {
    if records == [] then []
    else
      assert records == [records[0]] + records[1..];
      var rest := Filter(records[1..], category, gender, income);
      if Eligible(records[0], category, gender, income) then [records[0]] + rest else rest
  }

  /** The filter keeps every copy of an eligible record and no copy of any other. */
  lemma {:induction false} FilterCount(records: seq<SchemeRecord>, category: string, gender: string, income: nat,
                                      x: SchemeRecord)
    ensures multiset(Filter(records, category, gender, income))[x]
         == if Eligible(x, category, gender, income) then multiset(records)[x] else 0
    decreases |records|
  {
    if records != [] {
      FilterCount(records[1..], category, gender, income, x);
      assert records == [records[0]] + records[1..];
    }
  }

  /** A record of the table whose category and gender match is kept when its income
      ceiling equals the selected income, and dropped when its ceiling is smaller. */
  lemma IncomeBoundary(records: seq<SchemeRecord>, i: int, category: string, gender: string, income: nat)
    requires 0 <= i < |records|
    requires records[i].category == category
    requires records[i].gender == gender || records[i].gender == AnyGender
    ensures records[i].maxAnnualIncome == income ==> records[i] in Filter(records, category, gender, income)
    ensures records[i].maxAnnualIncome < income ==> records[i] !in Filter(records, category, gender, income)
  {
  }

  /** A sequence with the same multiset as the filter output that is a subsequence
      of the table is the filter output: the contract of `Filter` pins it down. */
  lemma {:induction false} FilterUnique(t: seq<SchemeRecord>, records: seq<SchemeRecord>,
                                       category: string, gender: string, income: nat)
    requires IsSubsequence(t, records)
    requires multiset(t) == multiset(Filter(records, category, gender, income))
    ensures t == Filter(records, category, gender, income)
    decreases |records|
  {
    if records != [] {
      var h, tail := records[0], records[1..];
      assert records == [h] + tail;
      var ft := Filter(tail, category, gender, income);
      FilterCount(records, category, gender, income, h);
      if Eligible(h, category, gender, income) {
        assert Filter(records, category, gender, income) == [h] + ft;
        assert multiset(records)[h] == multiset(tail)[h] + 1;
        HeadIsKept(t, h, tail);
        assert t == [h] + t[1..];
        CancelHead(h, t[1..], ft);
        FilterUnique(t[1..], tail, category, gender, income);
      } else {
        HeadIsSkipped(t, h, tail);
        FilterUnique(t, tail, category, gender, income);
      }
    }
  }

  /** Two sequences with the same multiset after the same head have the same multiset. */
  lemma CancelHead<T>(h: T, a: seq<T>, b: seq<T>)
    requires multiset([h] + a) == multiset([h] + b)
    ensures multiset(a) == multiset(b)
  {
    forall x ensures multiset(a)[x] == multiset(b)[x] {
      assert multiset([h] + a)[x] == multiset([h])[x] + multiset(a)[x];
      assert multiset([h] + b)[x] == multiset([h])[x] + multiset(b)[x];
    }
  }

  /** A subsequence of `[h] + tail` holding more copies of `h` than `tail` has starts with `h`. */
  lemma HeadIsKept<T>(t: seq<T>, h: T, tail: seq<T>)
    requires IsSubsequence(t, [h] + tail)
    requires multiset(t)[h] > multiset(tail)[h]
    ensures t != [] && t[0] == h && IsSubsequence(t[1..], tail)
  {
    assert ([h] + tail)[1..] == tail;
    if t != [] && !(t[0] == h && IsSubsequence(t[1..], tail)) {
      SubsequenceCount(t, tail, h);
    }
  }

  /** A subsequence of `[h] + tail` without `h` is a subsequence of `tail`. */
  lemma HeadIsSkipped<T>(t: seq<T>, h: T, tail: seq<T>)
    requires IsSubsequence(t, [h] + tail)
    requires multiset(t)[h] == 0
    ensures IsSubsequence(t, tail)
  {
    assert ([h] + tail)[1..] == tail;
    if t != [] {
      assert t[0] in multiset(t);
    }
  }

  lemma {:induction false} SubsequenceMembers<T>(a: seq<T>, b: seq<T>, x: T)
    requires IsSubsequence(a, b) && x in a
    ensures x in b
    decreases |b|
  {
    if a[0] == b[0] && IsSubsequence(a[1..], b[1..]) {
      if x != a[0] {
        SubsequenceMembers(a[1..], b[1..], x);
      }
    } else {
      SubsequenceMembers(a, b[1..], x);
    }
  }

  lemma {:induction false} SubsequenceCount<T>(a: seq<T>, b: seq<T>, x: T)
    requires IsSubsequence(a, b)
    ensures multiset(a)[x] <= multiset(b)[x]
    decreases |b|
  {
    if a != [] {
      assert b == [b[0]] + b[1..];
      if a[0] == b[0] && IsSubsequence(a[1..], b[1..]) {
        assert a == [a[0]] + a[1..];
        SubsequenceCount(a[1..], b[1..], x);
      } else {
        SubsequenceCount(a, b[1..], x);
      }
    }
  }
}
