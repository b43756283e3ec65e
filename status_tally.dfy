/** What the status charts share: counting items by status into a dictionary, one chart
    entry per status of a fixed order, the chart configuration filled from the entries, and
    the "no data" test. The status type is a parameter. */
module StatusTally {
  import opened Seqs
  import opened Wrappers

  /** The test "has status `s`". */
  function HasStatus<T, S(==)>(statusOf: T -> S, s: S): T -> bool
  {
    (x: T) => statusOf(x) == s
  }

  /** The number of items with status `s`. */
  function StatusCount<T, S(==)>(items: seq<T>, statusOf: T -> S, s: S): nat
  {
    Count(HasStatus(statusOf, s), items)
  }

  /** `acc[s] || 0`. */
  function CountOr0<S>(counts: map<S, nat>, s: S): nat
  {
    if s in counts then counts[s] else 0
  }

  /** The `reduce` into a dictionary: each item adds one to the entry of its status, which
      starts when the first item with that status comes. Afterwards every status maps to its
      number of items, and exactly the statuses that occur have an entry. */
  method Tally<T, S(==)>(items: seq<T>, statusOf: T -> S) returns (counts: map<S, nat>)
    ensures forall s :: CountOr0(counts, s) == StatusCount(items, statusOf, s)
    ensures forall s :: s in counts <==> StatusCount(items, statusOf, s) > 0
  {
    counts := map[];
    var i := 0;
    while i < |items|
      invariant 0 <= i <= |items|
      invariant forall s :: CountOr0(counts, s) == StatusCount(items[..i], statusOf, s)
      invariant forall s :: s in counts <==> StatusCount(items[..i], statusOf, s) > 0
    {
      var s := statusOf(items[i]);
      counts := counts[s := CountOr0(counts, s) + 1];
      assert items[..i + 1][..i] == items[..i];
      i := i + 1;
    }
    assert items[..i] == items;
  }

  /** One entry of a status chart: the status, its label, its count and its colour. */
  datatype Entry<S> = Entry(status: S, name: string, count: nat, fill: string)

  /** The colour used where a status has none. */
  const Muted: string := "hsl(var(--muted))"

  /** `dataForChart`: one entry per status of `order`, in that order, labelled, with the
      status's count, 0 where there is none, and its colour. */
  function Entries<S>(order: seq<S>, nameOf: S -> string, colorOf: S -> string, counts: map<S, nat>): (r: seq<Entry<S>>)
    ensures |r| == |order|
    ensures forall i :: 0 <= i < |order| ==> (
      && r[i].status == order[i] && r[i].name == nameOf(order[i])
      && r[i].count == CountOr0(counts, order[i])
      && r[i].fill == Fill(colorOf(order[i])))
  {
    seq(|order|, i requires 0 <= i < |order| =>
      Entry(order[i], nameOf(order[i]), CountOr0(counts, order[i]),
        Fill(colorOf(order[i]))))
  }

  /** The sum of the entries' counts. */
  function Total<S>(entries: seq<Entry<S>>): nat
  {
    if entries == [] then 0 else entries[0].count + Total(entries[1..])
  }

  /** `entries.every(d => d.count === 0)`: the "no data" view. */
  predicate NoData<S>(entries: seq<Entry<S>>)
  {
    forall i :: 0 <= i < |entries| ==> entries[i].count == 0
  }

  /** Every count is 0 exactly when the total is 0. */
  lemma {:induction false} NoDataIffZeroTotal<S>(entries: seq<Entry<S>>)
    ensures NoData(entries) <==> Total(entries) == 0
  {
    if entries != [] {
      NoDataIffZeroTotal(entries[1..]);
      assert NoData(entries) <==> entries[0].count == 0 && NoData(entries[1..]) by {
        assert forall i :: 1 <= i < |entries| ==> entries[i] == entries[1..][i - 1];
      }
    }
  }

  /** The number of times `s` occurs in `order`. */
  function Occurrences<S(==)>(order: seq<S>, s: S): nat
  {
    if order == [] then 0 else (if order[0] == s then 1 else 0) + Occurrences(order[1..], s)
  }

  lemma {:induction false} OccurrencesDistinct<S>(order: seq<S>, s: S)
    requires Distinct(order)
    ensures Occurrences(order, s) == if s in order then 1 else 0
  {
    if order != [] {
      assert Distinct(order[1..]);
      OccurrencesDistinct(order[1..], s);
      assert s in order <==> s == order[0] || s in order[1..];
    }
  }

  /** The sum over the statuses of `order` of their counts. */
  function SumCounts<T, S(==)>(order: seq<S>, items: seq<T>, statusOf: T -> S): nat
  {
    if order == [] then 0 else StatusCount(items, statusOf, order[0]) + SumCounts(order[1..], items, statusOf)
  }

  /** One more item adds one to the sum for each time its status occurs in the order. */
  lemma {:induction false} SumCountsStep<T, S>(order: seq<S>, items: seq<T>, x: T, statusOf: T -> S)
    ensures SumCounts(order, items + [x], statusOf) == SumCounts(order, items, statusOf) + Occurrences(order, statusOf(x))
  {
    if order != [] {
      SumCountsStep(order[1..], items, x, statusOf);
      assert (items + [x])[..|items|] == items;
    }
  }

  /** When the order lists each status once and every item's status is in it, the counts add
      up to the number of items. */
  lemma {:induction false} SumCountsIsLength<T, S>(order: seq<S>, items: seq<T>, statusOf: T -> S)
    requires Distinct(order)
    requires forall i :: 0 <= i < |items| ==> statusOf(items[i]) in order
    ensures SumCounts(order, items, statusOf) == |items|
    decreases |items|
  {
    if items == [] {
      SumCountsEmpty(order, statusOf);
    } else {
      var init := items[..|items| - 1];
      var x := items[|items| - 1];
      assert items == init + [x];
      SumCountsIsLength(order, init, statusOf);
      SumCountsStep(order, init, x, statusOf);
      OccurrencesDistinct(order, statusOf(x));
    }
  }

  lemma {:induction false} SumCountsEmpty<T, S>(order: seq<S>, statusOf: T -> S)
    ensures SumCounts(order, [], statusOf) == 0
  {
    if order != [] {
      SumCountsEmpty(order[1..], statusOf);
    }
  }

  /** The total of the entries made from a tally is the sum of the counts. */
  lemma {:induction false} TotalOfEntries<T, S>(order: seq<S>, entries: seq<Entry<S>>, items: seq<T>, statusOf: T -> S)
    requires |entries| == |order|
    requires forall i :: 0 <= i < |order| ==> entries[i].count == StatusCount(items, statusOf, order[i])
    ensures Total(entries) == SumCounts(order, items, statusOf)
  {
    if order != [] {
      TotalOfEntries(order[1..], entries[1..], items, statusOf);
    }
  }

  /** The counting and `dataForChart` together: when the order lists each status once and
      covers every item, the chart has one entry per status of the order with that status's
      count, the counts add up to the number of items, and "no data" holds exactly when
      there are no items. */
  method StatusChart<T, S(==)>(items: seq<T>, statusOf: T -> S, order: seq<S>, nameOf: S -> string, colorOf: S -> string)
    returns (entries: seq<Entry<S>>)
    requires Distinct(order)
    requires forall i :: 0 <= i < |items| ==> statusOf(items[i]) in order
    ensures |entries| == |order|
    ensures forall i :: 0 <= i < |order| ==> (
      && entries[i].status == order[i] && entries[i].name == nameOf(order[i])
      && entries[i].count == StatusCount(items, statusOf, order[i])
      && entries[i].fill == Fill(colorOf(order[i])))
    ensures Total(entries) == |items|
    ensures NoData(entries) <==> items == []
  {
    var counts := Tally(items, statusOf);
    entries := Entries(order, nameOf, colorOf, counts);
    TotalOfEntries(order, entries, items, statusOf);
    SumCountsIsLength(order, items, statusOf);
    NoDataIffZeroTotal(entries);
  }

  /** An entry of a chart configuration: a caption (the label) and, except for the count series, a colour. */
  datatype ConfigEntry = ConfigEntry(caption: string, color: Option<string>)

  /** The keys of the entries' statuses. */
  function EntryKeys<S>(entries: seq<Entry<S>>, keyOf: S -> string): set<string>
  {
    set i | 0 <= i < |entries| :: keyOf(entries[i].status)
  }

  /** The `forEach` that writes one configuration entry per chart entry, keyed by its
      status, over the base configuration. With keys that differ between entries, every
      entry's key holds its label and colour, the keys are the base's and the entries', and
      every other key keeps its base value. */
  method FillConfig<S>(base: map<string, ConfigEntry>, entries: seq<Entry<S>>, keyOf: S -> string)
    returns (config: map<string, ConfigEntry>)
    requires forall i, j :: 0 <= i < j < |entries| ==> keyOf(entries[i].status) != keyOf(entries[j].status)
    ensures forall i :: 0 <= i < |entries| ==>
      keyOf(entries[i].status) in config && config[keyOf(entries[i].status)] == ConfigEntry(entries[i].name, Some(entries[i].fill))
    ensures config.Keys == base.Keys + EntryKeys(entries, keyOf)
    ensures forall k :: k in base && k !in EntryKeys(entries, keyOf) ==> config[k] == base[k]
  {
    config := base;
    var i := 0;
    while i < |entries|
      invariant 0 <= i <= |entries|
      invariant config.Keys == base.Keys + EntryKeys(entries[..i], keyOf)
      invariant forall k :: k in base && k !in EntryKeys(entries[..i], keyOf) ==> config[k] == base[k]
      invariant forall j :: 0 <= j < i ==>
        keyOf(entries[j].status) in config && config[keyOf(entries[j].status)] == ConfigEntry(entries[j].name, Some(entries[j].fill))
    {
      var key := keyOf(entries[i].status);
      assert key in EntryKeys(entries, keyOf);
      config := config[key := ConfigEntry(entries[i].name, Some(entries[i].fill))];
      assert EntryKeys(entries[..i + 1], keyOf) == EntryKeys(entries[..i], keyOf) + {key} by {
        assert forall j :: 0 <= j < i ==> entries[..i + 1][j] == entries[..i][j];
        assert entries[..i + 1][i] == entries[i];
      }
      i := i + 1;
    }
    assert entries[..i] == entries;
  }

  /** The colour an entry gets for a status. */
  function Fill(color: string): string
  {
    if color != "" then color else Muted
  }

  /** The keys of the statuses of an order. */
  function OrderKeys<S>(order: seq<S>, keyOf: S -> string): set<string>
  {
    set i | 0 <= i < |order| :: keyOf(order[i])
  }

  /** The configuration holds the base entries and, for each status of the order, its label
      and colour under its key, and nothing else. */
  ghost predicate ConfigFor<S>(config: map<string, ConfigEntry>, base: map<string, ConfigEntry>, order: seq<S>,
    keyOf: S -> string, nameOf: S -> string, colorOf: S -> string)
  {
    && config.Keys == base.Keys + OrderKeys(order, keyOf)
    && (forall k :: k in base ==> config[k] == base[k])
    && (forall i :: 0 <= i < |order| ==>
         keyOf(order[i]) in config && config[keyOf(order[i])] == ConfigEntry(nameOf(order[i]), Some(Fill(colorOf(order[i])))))
  }

  /** The `forEach` over a fixed order of statuses that writes each status's label and colour
      under its key, over a base configuration whose keys are not status keys. */
  method OrderConfig<S>(base: map<string, ConfigEntry>, order: seq<S>, keyOf: S -> string, nameOf: S -> string, colorOf: S -> string)
    returns (config: map<string, ConfigEntry>)
    requires forall i, j :: 0 <= i < j < |order| ==> keyOf(order[i]) != keyOf(order[j])
    requires base.Keys !! OrderKeys(order, keyOf)
    ensures config.Keys == base.Keys + OrderKeys(order, keyOf)
    ensures forall k :: k in base ==> config[k] == base[k]
    ensures forall i :: 0 <= i < |order| ==>
      keyOf(order[i]) in config && config[keyOf(order[i])] == ConfigEntry(nameOf(order[i]), Some(colorOf(order[i])))
  {
    config := base;
    var i := 0;
    while i < |order|
      invariant 0 <= i <= |order|
      invariant config.Keys == base.Keys + OrderKeys(order[..i], keyOf)
      invariant forall k :: k in base ==> config[k] == base[k]
      invariant forall j :: 0 <= j < i ==>
        keyOf(order[j]) in config && config[keyOf(order[j])] == ConfigEntry(nameOf(order[j]), Some(colorOf(order[j])))
    {
      var key := keyOf(order[i]);
      assert key in OrderKeys(order, keyOf);
      config := config[key := ConfigEntry(nameOf(order[i]), Some(colorOf(order[i])))];
      assert OrderKeys(order[..i + 1], keyOf) == OrderKeys(order[..i], keyOf) + {key} by {
        assert forall j :: 0 <= j < i ==> order[..i + 1][j] == order[..i][j];
        assert order[..i + 1][i] == order[i];
      }
      i := i + 1;
    }
    assert order[..i] == order;
  }

  /** `dataForChart` with its configuration: the chart entries as `StatusChart` gives them,
      and the base configuration with one key per status of the order. */
  method StatusChartAndConfig<T, S(==)>(items: seq<T>, statusOf: T -> S, order: seq<S>,
    keyOf: S -> string, nameOf: S -> string, colorOf: S -> string, base: map<string, ConfigEntry>)
    returns (entries: seq<Entry<S>>, config: map<string, ConfigEntry>)
    requires Distinct(order)
    requires forall i :: 0 <= i < |items| ==> statusOf(items[i]) in order
    requires forall i, j :: 0 <= i < j < |order| ==> keyOf(order[i]) != keyOf(order[j])
    requires base.Keys !! OrderKeys(order, keyOf)
    ensures |entries| == |order|
    ensures forall i :: 0 <= i < |order| ==> (
      && entries[i].status == order[i] && entries[i].name == nameOf(order[i])
      && entries[i].count == StatusCount(items, statusOf, order[i])
      && entries[i].fill == Fill(colorOf(order[i])))
    ensures Total(entries) == |items|
    ensures NoData(entries) <==> items == []
    ensures ConfigFor(config, base, order, keyOf, nameOf, colorOf)
  {
    entries := StatusChart(items, statusOf, order, nameOf, colorOf);
    assert EntryKeys(entries, keyOf) == OrderKeys(order, keyOf) by {
      assert forall i :: 0 <= i < |order| ==> keyOf(entries[i].status) == keyOf(order[i]);
    }
    config := FillConfig(base, entries, keyOf);
  }
}
