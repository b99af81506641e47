/** The figures of the dashboard page (src/app/dashboard/page.tsx): the
    status histogram, the paid revenue of each month and the five clients
    with the largest invoiced totals. The month bounds come from calendar
    code and are parameters here; `toFixed(2)` display rounding is not
    applied, money being exact. */
module DashboardPage {
  import opened Wrappers
  import opened Schema
  import opened Tables
  import opened Sorting
  import opened DashboardRows

  /** `statusData`: the `counts` record filled by a `forEach`, then mapped
      to chart entries in the fixed status order without the empty ones.
      The entries count every invoice exactly once. */
  method StatusBreakdown(rows: seq<Row>) returns (data: seq<Slice>)
    ensures data == StatusData(CountsOf(rows))
    ensures SliceTotal(data) == |rows|
  {
    var counts := CountStatuses(rows);
    assert counts == CountsOf(rows) by {
      assert counts.Get(Draft) == CountOf(rows, Draft) && counts.Get(Sent) == CountOf(rows, Sent);
      assert counts.Get(Paid) == CountOf(rows, Paid) && counts.Get(Overdue) == CountOf(rows, Overdue);
    }
    CountsCoverAll(rows);
    data := StatusData(counts);
  }

  /** `monthlyRevenueData`: the paid revenue of each month, one figure per
      month, in the order the months are given. */
  function MonthlyRevenue(rows: seq<Row>, months: seq<Bucket>): (revenue: seq<real>)
    ensures |revenue| == |months|
  {
    seq(|months|, i requires 0 <= i < |months| => PaidRevenue(rows, months[i]))
  }

  function SumReals(xs: seq<real>): real {
    if xs == [] then 0.0 else SumReals(xs[..|xs| - 1]) + xs[|xs| - 1]
  }

  /** Months that follow one another without gap or overlap. */
  predicate Consecutive(months: seq<Bucket>) {
    (forall i :: 0 <= i < |months| ==> months[i].start <= months[i].end)
    && forall i :: 0 <= i < |months| - 1 ==> months[i].end == months[i + 1].start
  }

  /** Over consecutive months every paid invoice issued in the whole span is
      counted in exactly one month: the monthly figures add up to the paid
      revenue from the first month's start to the last month's end. */
  lemma {:induction false} MonthlyRevenueAddsUp(rows: seq<Row>, months: seq<Bucket>)
    requires |months| > 0 && Consecutive(months)
    ensures SumReals(MonthlyRevenue(rows, months))
            == PaidRevenue(rows, Bucket(months[0].start, months[|months| - 1].end))
    decreases |months|
  {
    var revenue := MonthlyRevenue(rows, months);
    var n := |months| - 1;
    if n == 0 {
      assert revenue[..0] == [];
    } else {
      var init := months[..n];
      assert Consecutive(init);
      MonthlyRevenueAddsUp(rows, init);
      assert revenue[..n] == MonthlyRevenue(rows, init);
      assert init[n - 1].end == months[n].start;
      assert months[0].start <= init[n - 1].end by {
        MonotoneStarts(months, n - 1);
      }
      PaidRevenueSplit(rows, months[0].start, months[n].start, months[n].end);
    }
  }

  lemma {:induction false} MonotoneStarts(months: seq<Bucket>, j: nat)
    requires Consecutive(months) && j < |months|
    ensures months[0].start <= months[j].end
  {
    if j > 0 {
      MonotoneStarts(months, j - 1);
    }
  }

  /** One entry of the client totals: the key is the client id, or the
      invoice's own id when it has no client id. */
  datatype ClientTotal = ClientTotal(key: Id, name: string, value: real)
  /** One bar of the top-clients chart. */
  datatype ClientPoint = ClientPoint(name: string, value: real)

  /** `invoice.clientId ?? invoice._id`. */
  function GroupKey(r: Row): Id {
    r.clientId.GetOr(r.id)
  }

  /** `invoice.client?.name ?? "Unnamed Client"`. */
  function GroupName(r: Row): string {
    if r.client.Some? then r.client.value.name else "Unnamed Client"
  }

  function TotalKey(g: ClientTotal): Id {
    g.key
  }

  /** The sum of the totals of the rows with this key. */
  function KeyTotal(rows: seq<Row>, key: Id): real {
    if rows == [] then 0.0
    else KeyTotal(rows[..|rows| - 1], key) + (if GroupKey(rows[|rows| - 1]) == key then rows[|rows| - 1].total else 0.0)
  }

  /** One step of the `forEach`: the entry of the row's key has the row's
      total added, or, for a key not seen yet, a new entry is added at the
      end of the map with the row's client name. */
  function Accumulate(groups: seq<ClientTotal>, r: Row): seq<ClientTotal> {
    match Find(groups, TotalKey, GroupKey(r))
    case Some(i) => groups[i := groups[i].(value := groups[i].value + r.total)]
    case None => groups + [ClientTotal(GroupKey(r), GroupName(r), r.total)]
  }

  /** The `totals` map after the whole `forEach`, in insertion order. */
  function Groups(rows: seq<Row>): seq<ClientTotal> {
    if rows == [] then [] else Accumulate(Groups(rows[..|rows| - 1]), rows[|rows| - 1])
  }

  /** The `forEach` over the invoices that fills the `totals` map. */
  method ClientTotals(rows: seq<Row>) returns (groups: seq<ClientTotal>)
    ensures groups == Groups(rows)
    ensures forall i, j :: 0 <= i < j < |groups| ==> groups[i].key != groups[j].key
    ensures forall i :: 0 <= i < |groups| ==> groups[i].value == KeyTotal(rows, groups[i].key)
  {
    groups := [];
    var k := 0;
    while k < |rows|
      invariant 0 <= k <= |rows|
      invariant groups == Groups(rows[..k])
    {
      var r := rows[k];
      var key := GroupKey(r);
      var found := Find(groups, TotalKey, key);
      if found.Some? {
        var i := found.value;
        groups := groups[i := groups[i].(value := groups[i].value + r.total)];
      } else {
        groups := groups + [ClientTotal(key, GroupName(r), r.total)];
      }
      assert rows[..k + 1][..k] == rows[..k];
      k := k + 1;
    }
    assert rows[..k] == rows;
    GroupsSpec(rows);
  }

  predicate DistinctKeys(groups: seq<ClientTotal>) {
    forall i, j :: 0 <= i < j < |groups| ==> groups[i].key != groups[j].key
  }

  /** The keys of the map's entries. */
  function EntryKeys(groups: seq<ClientTotal>): set<Id> {
    set i | 0 <= i < |groups| :: groups[i].key
  }

  /** The keys of the invoices. */
  function RowKeys(rows: seq<Row>): set<Id> {
    set k | 0 <= k < |rows| :: GroupKey(rows[k])
  }

  /** What the map holds: one entry for each key some invoice has, and no
      other; each entry's value is the sum of the totals of the invoices
      with its key, and its name comes from the first of those invoices. */
  lemma GroupsSpec(rows: seq<Row>)
    ensures var groups := Groups(rows);
      DistinctKeys(groups) && EntryKeys(groups) == RowKeys(rows)
      && (forall i :: 0 <= i < |groups| ==> groups[i].value == KeyTotal(rows, groups[i].key))
      && (forall i :: 0 <= i < |groups| ==>
            Find(rows, GroupKey, groups[i].key).Some?
            && groups[i].name == GroupName(rows[Find(rows, GroupKey, groups[i].key).value]))
  {
    GroupsKeys(rows);
    GroupsValues(rows);
    GroupsNames(rows);
  }

  /** An entry is found for a key exactly when some entry has it. */
  lemma FindEntry(groups: seq<ClientTotal>, key: Id)
    ensures Find(groups, TotalKey, key).Some? <==> key in EntryKeys(groups)
  {
    if key in EntryKeys(groups) {
      var i :| 0 <= i < |groups| && groups[i].key == key;
      assert TotalKey(groups[i]) == key;
    }
  }

  /** A row is found for a key exactly when some row has it. */
  lemma FindRow(rows: seq<Row>, key: Id)
    ensures Find(rows, GroupKey, key).Some? <==> key in RowKeys(rows)
  {
    if key in RowKeys(rows) {
      var k :| 0 <= k < |rows| && GroupKey(rows[k]) == key;
    }
  }

  /** A step of the `forEach` keeps the entries already there, adds the
      row's total to the entry of its key, or adds a new entry at the end. */
  lemma AccumulateShape(groups: seq<ClientTotal>, r: Row)
    ensures var after := Accumulate(groups, r);
      var key := GroupKey(r);
      if key in EntryKeys(groups) then
        var i := Find(groups, TotalKey, key).value;
        |after| == |groups| && after[i] == groups[i].(value := groups[i].value + r.total)
        && groups[i].key == key
        && (forall j :: 0 <= j < |groups| && j != i ==> after[j] == groups[j])
      else
        after == groups + [ClientTotal(key, GroupName(r), r.total)]
  {
    FindEntry(groups, GroupKey(r));
  }

  lemma AccumulateKeys(groups: seq<ClientTotal>, r: Row)
    requires DistinctKeys(groups)
    ensures DistinctKeys(Accumulate(groups, r))
    ensures EntryKeys(Accumulate(groups, r)) == EntryKeys(groups) + {GroupKey(r)}
  {
    var after := Accumulate(groups, r);
    AccumulateShape(groups, r);
    if GroupKey(r) in EntryKeys(groups) {
      forall j | 0 <= j < |groups| ensures after[j].key == groups[j].key {
      }
      assert EntryKeys(after) == EntryKeys(groups);
    } else {
      assert after[|groups|].key == GroupKey(r);
      forall j | 0 <= j < |groups| ensures after[j].key != GroupKey(r) {
        assert groups[j].key in EntryKeys(groups);
      }
      EntryKeysAppend(groups, after[|groups|]);
    }
  }

  lemma EntryKeysAppend(groups: seq<ClientTotal>, g: ClientTotal)
    ensures EntryKeys(groups + [g]) == EntryKeys(groups) + {g.key}
  {
    var after := groups + [g];
    forall x | x in EntryKeys(groups) ensures x in EntryKeys(after) {
      var i :| 0 <= i < |groups| && groups[i].key == x;
      assert after[i] == groups[i];
    }
    assert after[|groups|] == g;
  }

  /** The entries have distinct keys, one for each key of an invoice. */
  lemma {:induction false} GroupsKeys(rows: seq<Row>)
    ensures DistinctKeys(Groups(rows)) && EntryKeys(Groups(rows)) == RowKeys(rows)
    decreases |rows|
  {
    if rows != [] {
      var init, r := rows[..|rows| - 1], rows[|rows| - 1];
      GroupsKeys(init);
      AccumulateKeys(Groups(init), r);
      assert RowKeys(rows) == RowKeys(init) + {GroupKey(r)} by {
        forall k | 0 <= k < |init| ensures GroupKey(init[k]) in RowKeys(rows) {
          assert rows[k] == init[k];
        }
        forall k | 0 <= k < |rows| ensures GroupKey(rows[k]) in RowKeys(init) + {GroupKey(r)} {
          if k < |init| {
            assert rows[k] == init[k];
          }
        }
      }
    }
  }

  /** Each entry's value is the sum of its key's totals. */
  lemma {:induction false} GroupsValues(rows: seq<Row>)
    ensures var groups := Groups(rows);
      forall i :: 0 <= i < |groups| ==> groups[i].value == KeyTotal(rows, groups[i].key)
    decreases |rows|
  {
    if rows != [] {
      var init, r := rows[..|rows| - 1], rows[|rows| - 1];
      GroupsValues(init);
      GroupsKeys(init);
      var before, key := Groups(init), GroupKey(r);
      AccumulateShape(before, r);
      if key !in EntryKeys(before) {
        forall j | 0 <= j < |init| ensures GroupKey(init[j]) != key {
          assert GroupKey(init[j]) in RowKeys(init);
        }
        KeyTotalZero(init, key);
      }
    }
  }

  /** Each entry's name is that of the first row with its key. */
  predicate NamedByFirst(groups: seq<ClientTotal>, rows: seq<Row>) {
    forall i :: 0 <= i < |groups| ==>
      Find(rows, GroupKey, groups[i].key).Some?
      && groups[i].name == GroupName(rows[Find(rows, GroupKey, groups[i].key).value])
  }

  lemma {:induction false} GroupsNames(rows: seq<Row>)
    ensures NamedByFirst(Groups(rows), rows)
    decreases |rows|
  {
    if rows != [] {
      var init, r := rows[..|rows| - 1], rows[|rows| - 1];
      GroupsNames(init);
      GroupsKeys(init);
      AccumulateNames(Groups(init), init, r);
      assert init + [r] == rows;
    }
  }

  lemma AccumulateNames(before: seq<ClientTotal>, init: seq<Row>, r: Row)
    requires NamedByFirst(before, init) && EntryKeys(before) == RowKeys(init)
    ensures NamedByFirst(Accumulate(before, r), init + [r])
  {
    var groups, rows, key := Accumulate(before, r), init + [r], GroupKey(r);
    AccumulateShape(before, r);
    forall i | 0 <= i < |groups|
      ensures Find(rows, GroupKey, groups[i].key).Some?
      ensures groups[i].name == GroupName(rows[Find(rows, GroupKey, groups[i].key).value])
    {
      if i < |before| {
        assert groups[i].key == before[i].key && groups[i].name == before[i].name;
        FindPrefix(init, r, before[i].key);
      } else {
        NewKeyFoundLast(init, r);
      }
    }
  }

  /** A key no earlier row has is first found at the new row. */
  lemma NewKeyFoundLast(init: seq<Row>, r: Row)
    requires GroupKey(r) !in RowKeys(init)
    ensures Find(init + [r], GroupKey, GroupKey(r)) == Some(|init|)
  {
    forall j | 0 <= j < |init| ensures GroupKey((init + [r])[j]) != GroupKey(r) {
      assert (init + [r])[j] == init[j];
    }
    FindAt(init + [r], GroupKey, GroupKey(r), |init|);
  }

  /** A row added at the end does not change the first row of a key that
      an earlier row already has. */
  lemma FindPrefix(init: seq<Row>, r: Row, id: Id)
    requires Find(init, GroupKey, id).Some?
    ensures Find(init + [r], GroupKey, id) == Find(init, GroupKey, id)
  {
    var f := Find(init, GroupKey, id).value;
    FindAt(init + [r], GroupKey, id, f);
  }

  /** A key no row has adds up to nothing. */
  lemma {:induction false} KeyTotalZero(rows: seq<Row>, key: Id)
    requires forall j :: 0 <= j < |rows| ==> GroupKey(rows[j]) != key
    ensures KeyTotal(rows, key) == 0.0
    decreases |rows|
  {
    if rows != [] {
      KeyTotalZero(rows[..|rows| - 1], key);
    }
  }

  /** The order of `sort((a, b) => b.value - a.value)`: larger values first,
      ties kept in map order. */
  function ByValueDesc(g: ClientTotal): real {
    -g.value
  }

  /** `slice(0, 5)`. */
  const TopCount: nat := 5

  /** The entries sorted by value, largest first, cut to the first five. */
  function Top(groups: seq<ClientTotal>): seq<ClientTotal> {
    var sorted := SortBy(groups, ByValueDesc);
    SortByPermutes(groups, ByValueDesc);
    sorted[..Min(TopCount, |sorted|)]
  }

  /** The top five: at most five of the map's entries, none taken twice,
      in non-increasing order of value, and no entry left out has a larger
      value than an entry shown. */
  lemma TopSpec(groups: seq<ClientTotal>)
    ensures var top := Top(groups);
      |top| == Min(TopCount, |groups|)
      && multiset(top) <= multiset(groups)
      && (forall x :: x in top ==> x in groups)
      && (forall i, j :: 0 <= i < j < |top| ==> top[i].value >= top[j].value)
      && (forall g, i :: g in groups && g !in top && 0 <= i < |top| ==> g.value <= top[i].value)
  {
    var sorted := SortBy(groups, ByValueDesc);
    SortByPermutes(groups, ByValueDesc);
    SortBySorted(groups, ByValueDesc);
    var top := Top(groups);
    var n := |top|;
    assert sorted == top + sorted[n..];
    assert multiset(sorted) == multiset(top) + multiset(sorted[n..]);
    forall x | x in top ensures x in groups {
      assert x in multiset(sorted);
    }
    forall i, j | 0 <= i < j < n ensures top[i].value >= top[j].value {
      assert ByValueDesc(sorted[i]) <= ByValueDesc(sorted[j]);
    }
    forall g, i | g in groups && g !in top && 0 <= i < n ensures g.value <= top[i].value {
      assert g in multiset(sorted);
      var j :| 0 <= j < |sorted| && sorted[j] == g;
      assert forall m :: 0 <= m < n ==> top[m] == sorted[m];
      assert j >= n;
      assert ByValueDesc(sorted[i]) <= ByValueDesc(sorted[j]);
    }
  }

  /** An entry taken twice from a list is counted twice. */
  lemma TwiceCounted(t: seq<ClientTotal>, i: nat, j: nat)
    requires i < j < |t| && t[i] == t[j]
    ensures multiset(t)[t[i]] >= 2
  {
    assert t == t[..j] + [t[j]] + t[j + 1..];
    assert t[..j][i] == t[i];
  }

  /** In a list with distinct keys every entry occurs once. */
  lemma OnceCounted(g: seq<ClientTotal>, a: nat)
    requires DistinctKeys(g) && a < |g|
    ensures multiset(g)[g[a]] == 1
  {
    var x, front, rest := g[a], g[..a], g[a + 1..];
    assert g == front + [x] + rest;
    forall b | 0 <= b < |front| ensures front[b] != x {
      assert front[b] == g[b];
    }
    forall b | 0 <= b < |rest| ensures rest[b] != x {
      assert rest[b] == g[a + 1 + b];
    }
    assert x !in front && x !in rest;
  }

  /** Entries taken from a map, none twice, have distinct keys. */
  lemma SubMultisetDistinct(t: seq<ClientTotal>, g: seq<ClientTotal>)
    requires multiset(t) <= multiset(g) && DistinctKeys(g)
    ensures DistinctKeys(t)
  {
    forall i, j | 0 <= i < j < |t| ensures t[i].key != t[j].key {
      assert t[i] in multiset(t) && t[j] in multiset(t);
      var a :| 0 <= a < |g| && g[a] == t[i];
      var b :| 0 <= b < |g| && g[b] == t[j];
      if t[i] == t[j] {
        TwiceCounted(t, i, j);
        OnceCounted(g, a);
      } else if a < b {
        assert g[a].key != g[b].key;
      } else {
        assert g[b].key != g[a].key;
      }
    }
  }

  /** `topClientsData`: the name and value of the top five entries. */
  function TopClientsData(rows: seq<Row>): (points: seq<ClientPoint>)
    ensures |points| <= TopCount
    ensures forall i, j :: 0 <= i < j < |points| ==> points[i].value >= points[j].value
  {
    var top := Top(Groups(rows));
    TopSpec(Groups(rows));
    seq(|top|, i requires 0 <= i < |top| => ClientPoint(top[i].name, top[i].value))
  }

  /** Each bar of the top-clients chart shows a different client (or
      client-less invoice) with the name of its first invoice and the sum of
      its invoices' totals. */
  lemma TopClientsShown(rows: seq<Row>)
    ensures var points := TopClientsData(rows);
      var top := Top(Groups(rows));
      |points| == |top| && DistinctKeys(top)
      && forall i :: 0 <= i < |points| ==>
            Find(rows, GroupKey, top[i].key).Some?
            && points[i].name == GroupName(rows[Find(rows, GroupKey, top[i].key).value])
            && points[i].value == KeyTotal(rows, top[i].key)
  {
    var groups := Groups(rows);
    var top := Top(groups);
    var points := TopClientsData(rows);
    GroupsSpec(rows);
    TopSpec(groups);
    SubMultisetDistinct(top, groups);
    forall i | 0 <= i < |points|
      ensures Find(rows, GroupKey, top[i].key).Some?
      ensures points[i].name == GroupName(rows[Find(rows, GroupKey, top[i].key).value])
      ensures points[i].value == KeyTotal(rows, top[i].key)
    {
      assert top[i] in groups;
      var m :| 0 <= m < |groups| && groups[m] == top[i];
    }
  }

  /** No key left out of the top-clients chart has a larger sum than a bar
      that is shown. */
  lemma TopClientsLeftOut(rows: seq<Row>)
    ensures var points := TopClientsData(rows);
      var top := Top(Groups(rows));
      forall k, i :: 0 <= k < |rows| && 0 <= i < |points|
            && (forall j :: 0 <= j < |top| ==> top[j].key != GroupKey(rows[k]))
            ==> KeyTotal(rows, GroupKey(rows[k])) <= points[i].value
  {
    var groups := Groups(rows);
    var top := Top(groups);
    var points := TopClientsData(rows);
    GroupsSpec(rows);
    TopSpec(groups);
    TopClientsShown(rows);
    forall k, i | 0 <= k < |rows| && 0 <= i < |points|
            && (forall j :: 0 <= j < |top| ==> top[j].key != GroupKey(rows[k]))
      ensures KeyTotal(rows, GroupKey(rows[k])) <= points[i].value
    {
      assert GroupKey(rows[k]) in EntryKeys(groups);
      var f :| 0 <= f < |groups| && groups[f].key == GroupKey(rows[k]);
      var g := groups[f];
      assert g !in top;
    }
  }
}
