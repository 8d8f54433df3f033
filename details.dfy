/** The "Scheme Details" text of a state: one `"<Scheme Name>: ₹<Benefit>"` item per
    scheme, joined by the HTML line break `"<br>"`, and the means to read it back. */
module Details {
  import opened Wrappers
  import opened Grouping

  const Sep: string := "<br>"
  const Rupee: char := '\U{20B9}'

  /** `f"{name}: ₹{benefit:,}"` */
  function DetailItem(name: string, benefit: nat): (item: string)
    ensures '<' in item ==> '<' in name
  {
    var amount := FormatGrouped(benefit);
    assert '<' !in amount;
    name + ": " + [Rupee] + amount
  }

  /** `"<br>".join(items)` */
  function Join(items: seq<string>): string {
    if |items| == 0 then ""
    else if |items| == 1 then items[0]
    else items[0] + Sep + Join(items[1..])
  }

  /** `s.split("<br>")`: the pieces between separators, read left to right. */
  function Split(s: string): (pieces: seq<string>)
    ensures |pieces| >= 1
    decreases |s|
  {
    if |s| >= |Sep| && s[..|Sep|] == Sep then [""] + Split(s[|Sep|..])
    else if s == [] then [""]
    else
      var t := Split(s[1..]);
      [[s[0]] + t[0]] + t[1..]
  }

  /** What follows the last `c` in `s` (all of `s` when `c` does not occur). */
  function AfterLast(s: string, c: char): (r: string)
    ensures c !in r
  {
    if s == [] then []
    else if s[|s| - 1] == c then []
    else AfterLast(s[..|s| - 1], c) + [s[|s| - 1]]
  }

  /** The amount written at the end of a detail item, after its last rupee sign. */
  function ItemAmount(item: string): Option<nat> {
    ParseGrouped(AfterLast(item, Rupee))
  }

  /** The amount written in each item, in order. */
  function Amounts(items: seq<string>): seq<Option<nat>> {
    seq(|items|, i requires 0 <= i < |items| => ItemAmount(items[i]))
  }

  /** The sum of the amounts, if every one of them is present. */
  function SumOptions(amounts: seq<Option<nat>>): Option<nat> {
    if amounts == [] then Some(0)
    else
      var rest := SumOptions(amounts[1..]);
      if amounts[0].Some? && rest.Some? then Some(amounts[0].value + rest.value) else None
  }

  /** No item contains `'<'`, the first character of the separator. */
  predicate NoItemContainsLt(items: seq<string>) {
    forall i :: 0 <= i < |items| ==> '<' !in items[i]
  }

  function TotalLength(items: seq<string>): nat {
    if items == [] then 0 else |items[0]| + TotalLength(items[1..])
  }

  lemma {:induction false} AfterLastAppend(a: string, c: char, b: string)
    requires c !in b
    ensures AfterLast(a + [c] + b, c) == b
    decreases |b|
  {
    var s := a + [c] + b;
    if b != [] {
      assert s[..|s| - 1] == a + [c] + b[..|b| - 1];
      AfterLastAppend(a, c, b[..|b| - 1]);
    }
  }

  /** The amount of a rendered item reads back as the record's Benefit, whatever the name. */
  lemma ItemAmountOfDetailItem(name: string, benefit: nat)
    ensures ItemAmount(DetailItem(name, benefit)) == Some(benefit)
  {
    var amount := FormatGrouped(benefit);
    assert Rupee !in amount;
    assert DetailItem(name, benefit) == (name + ": ") + [Rupee] + amount;
    AfterLastAppend(name + ": ", Rupee, amount);
    ParseFormatGrouped(benefit);
  }

  lemma {:induction false} SplitPlain(a: string)
    requires '<' !in a
    ensures Split(a) == [a]
    decreases |a|
  {
    if a != [] {
      assert a[0] != '<';
      SplitPlain(a[1..]);
      assert [a[0]] + a[1..] == a;
    }
  }

  lemma {:induction false} SplitAfterItem(a: string, rest: string)
    requires '<' !in a
    ensures Split(a + Sep + rest) == [a] + Split(rest)
    decreases |a|
  {
    var s := a + Sep + rest;
    if a == [] {
      assert s == Sep + rest;
      assert s[..|Sep|] == Sep && s[|Sep|..] == rest;
    } else {
      assert s[0] == a[0] != '<';
      assert s[1..] == a[1..] + Sep + rest;
      SplitAfterItem(a[1..], rest);
      assert [a[0]] + a[1..] == a;
    }
  }

  /** Splitting the joined details gives the items back, as long as no item
      contains `'<'` (the first character of the separator). */
  lemma {:induction false} SplitJoin(items: seq<string>)
    requires |items| >= 1 && NoItemContainsLt(items)
    ensures Split(Join(items)) == items
    decreases |items|
  {
    if |items| == 1 {
      SplitPlain(items[0]);
    } else {
      SplitAfterItem(items[0], Join(items[1..]));
      SplitJoin(items[1..]);
      assert items == [items[0]] + items[1..];
    }
  }

  /** A join of `k` items inserts exactly `k - 1` separators. */
  lemma {:induction false} JoinLength(items: seq<string>)
    requires |items| >= 1
    ensures |Join(items)| == TotalLength(items) + |Sep| * (|items| - 1)
    decreases |items|
  {
    if |items| > 1 {
      JoinLength(items[1..]);
    } else {
      assert items[1..] == [];
    }
  }

  /** The joined text begins with the first item. */
  lemma JoinStartsWithFirst(items: seq<string>)
    requires |items| >= 1
    ensures items[0] <= Join(items)
  {
  }
}
