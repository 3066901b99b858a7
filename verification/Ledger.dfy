/** The console's exhaustive page loop and the cost ledger built on it. */
module Ledger {
  import opened Common
  import opened Ordering

  const VAULT_PAGE_SIZE: nat := 500
  const VAULT_MAX_ROWS: nat := 20000

  function Min(a: nat, b: nat): nat { if a < b then a else b }

  /** A list endpoint over a collection that does not change meanwhile. */
  function Page<T>(all: seq<T>, limit: nat, offset: nat): seq<T> {
    if offset >= |all| then [] else all[offset..Min(|all|, offset + limit)]
  }

  /** _fetch_all: the first VAULT_MAX_ROWS rows, in order.  A short page is the last one,
      so a collection of whole pages costs one more, empty request. */
  method FetchAll<T>(all: seq<T>) returns (rows: seq<T>, requests: nat)
    ensures rows == all[..if |all| < 20000 then |all| else 20000]
    ensures requests == if |all| < 20000 then |all| / 500 + 1 else 40
  {
    rows, requests := [], 0;
    var offset := 0;
    while true
      invariant offset == VAULT_PAGE_SIZE * requests && offset <= |all| && offset < VAULT_MAX_ROWS
      invariant rows == all[..offset]
      decreases |all| - offset
    {
      var page := Page(all, VAULT_PAGE_SIZE, offset);
      rows := rows + page;
      requests := requests + 1;
      assert rows == all[..Min(|all|, offset + VAULT_PAGE_SIZE)];
      if |page| < VAULT_PAGE_SIZE || |rows| >= VAULT_MAX_ROWS {
        return;
      }
      offset := offset + VAULT_PAGE_SIZE;
    }
  }

  datatype Cost = Cost(functionId: string, incurredAt: string, amount: real)

  /** _incurred_date of an ISO timestamp: its first ten characters. */
  function Day(c: Cost): string { c.incurredAt[..Min(|c.incurredAt|, 10)] }

  datatype Grouping = ByDay | ByFunction

  function KeyOf(g: Grouping): Cost -> string {
    (c: Cost) => if g.ByDay? then Day(c) else c.functionId
  }

  function Amount(c: Cost): real { c.amount }

  /** The costs of one day, or all of them. */
  function OnDay(day: Option<string>, costs: seq<Cost>): seq<Cost> {
    if costs == [] then []
    else if day.None? || Day(costs[0]) == day.value then [costs[0]] + OnDay(day, costs[1..])
    else OnDay(day, costs[1..])
  }

  /** The sum over the rows with this key. */
  function TotalOf(g: Grouping, key: string, costs: seq<Cost>): real {
    SumBy((c: Cost) => if KeyOf(g)(c) == key then c.amount else 0.0, costs)
  }

  ghost predicate HasKey(g: Grouping, key: string, costs: seq<Cost>) {
    exists i | 0 <= i < |costs| :: KeyOf(g)(costs[i]) == key
  }

  function KeysOf(lines: seq<(string, real)>): seq<string> {
    seq(|lines|, i requires 0 <= i < |lines| => lines[i].0)
  }

  ghost predicate Groups(lines: seq<(string, real)>, g: Grouping, costs: seq<Cost>) {
    && Ascending(KeysOf(lines))
    && (forall key :: key in KeysOf(lines) <==> HasKey(g, key, costs))
    && (forall i | 0 <= i < |lines| :: lines[i].1 == TotalOf(g, lines[i].0, costs))
  }

  // -- What a ledger is, by the fields of its rows ------------------------------------------

  /** The timestamp of this row begins with this date. */
  predicate Begins(c: Cost, date: string) {
    if |c.incurredAt| <= 10 then c.incurredAt == date else c.incurredAt[..10] == date
  }

  /** This row counts for the day asked for, if one is, and belongs under this key. */
  predicate Belongs(g: Grouping, day: Option<string>, key: string, c: Cost) {
    && (day.Some? ==> Begins(c, day.value))
    && match g
       case ByDay => Begins(c, key)
       case ByFunction => c.functionId == key
  }

  function Share(g: Grouping, day: Option<string>, key: string): Cost -> real {
    (c: Cost) => if Belongs(g, day, key, c) then c.amount else 0.0
  }

  /** One line for each key that a row belongs under, in ascending order of keys, with the
      sum of the rows that do. */
  ghost predicate IsLedger(lines: seq<(string, real)>, g: Grouping, day: Option<string>, costs: seq<Cost>) {
    && Ascending(KeysOf(lines))
    && (forall key :: key in KeysOf(lines) <==> exists i | 0 <= i < |costs| :: Belongs(g, day, key, costs[i]))
    && (forall i | 0 <= i < |lines| :: lines[i].1 == SumBy(Share(g, day, lines[i].0), costs))
  }

  lemma {:induction false} KeptTotal(g: Grouping, day: Option<string>, key: string, costs: seq<Cost>)
    ensures TotalOf(g, key, OnDay(day, costs)) == SumBy(Share(g, day, key), costs)
  {
    if costs != [] {
      KeptTotal(g, day, key, costs[1..]);
      var c, kept := costs[0], OnDay(day, costs[1..]);
      assert Belongs(g, day, key, c) <==> (day.None? || Day(c) == day.value) && KeyOf(g)(c) == key;
      if day.None? || Day(c) == day.value {
        var f := (x: Cost) => if KeyOf(g)(x) == key then x.amount else 0.0;
        assert ([c] + kept)[1..] == kept;
        assert TotalOf(g, key, OnDay(day, costs)) == SumBy(f, [c] + kept) == f(c) + SumBy(f, kept);
      }
    }
  }

  lemma {:induction false} Kept(day: Option<string>, costs: seq<Cost>, c: Cost)
    ensures c in OnDay(day, costs) <==> c in costs && (day.Some? ==> Begins(c, day.value))
  {
    if costs != [] {
      Kept(day, costs[1..], c);
      assert c in costs <==> c == costs[0] || c in costs[1..];
    }
  }

  lemma KeptKey(g: Grouping, day: Option<string>, key: string, costs: seq<Cost>)
    ensures HasKey(g, key, OnDay(day, costs)) <==> exists i | 0 <= i < |costs| :: Belongs(g, day, key, costs[i])
  {
    var kept := OnDay(day, costs);
    if i :| 0 <= i < |kept| && KeyOf(g)(kept[i]) == key {
      Kept(day, costs, kept[i]);
      var j :| 0 <= j < |costs| && costs[j] == kept[i];
      assert Belongs(g, day, key, costs[j]);
    }
    if i :| 0 <= i < |costs| && Belongs(g, day, key, costs[i]) {
      Kept(day, costs, costs[i]);
      var j :| 0 <= j < |kept| && kept[j] == costs[i];
      assert KeyOf(g)(kept[j]) == key;
    }
  }

  /** Filtering first and grouping then gives the ledger. */
  lemma LedgerIsGroups(lines: seq<(string, real)>, g: Grouping, day: Option<string>, costs: seq<Cost>)
    ensures IsLedger(lines, g, day, costs) <==> Groups(lines, g, OnDay(day, costs))
  {
    forall key ensures HasKey(g, key, OnDay(day, costs)) <==> exists i | 0 <= i < |costs| :: Belongs(g, day, key, costs[i]) {
      KeptKey(g, day, key, costs);
    }
    forall key ensures TotalOf(g, key, OnDay(day, costs)) == SumBy(Share(g, day, key), costs) {
      KeptTotal(g, day, key, costs);
    }
  }

  lemma TotalAppend(g: Grouping, key: string, costs: seq<Cost>, c: Cost)
    ensures TotalOf(g, key, costs + [c]) == TotalOf(g, key, costs) + if KeyOf(g)(c) == key then c.amount else 0.0
  {
    var f := (c: Cost) => if KeyOf(g)(c) == key then c.amount else 0.0;
    SumByAppend(f, costs, [c]);
    assert SumBy(f, [c]) == f(c);
    assert TotalOf(g, key, costs + [c]) == SumBy(f, costs + [c]);
  }

  ghost predicate TalliedAt(g: Grouping, costs: seq<Cost>, totals: map<string, real>, key: string) {
    && (key in totals <==> HasKey(g, key, costs))
    && TotalOf(g, key, costs) == if key in totals then totals[key] else 0.0
  }

  /** Exactly the keys that occur have a total, the sum of their rows. */
  ghost predicate Tallied(g: Grouping, costs: seq<Cost>, totals: map<string, real>) {
    forall key :: TalliedAt(g, costs, totals, key)
  }

  function Added(totals: map<string, real>, key: string, amount: real): map<string, real> {
    totals[key := (if key in totals then totals[key] else 0.0) + amount]
  }

  lemma HasKeyAppend(g: Grouping, key: string, costs: seq<Cost>, c: Cost)
    ensures HasKey(g, key, costs + [c]) <==> KeyOf(g)(c) == key || HasKey(g, key, costs)
  {
    if KeyOf(g)(c) == key { assert KeyOf(g)((costs + [c])[|costs|]) == key; }
    if j :| 0 <= j < |costs| && KeyOf(g)(costs[j]) == key { assert KeyOf(g)((costs + [c])[j]) == key; }
  }

  lemma TallyMore(g: Grouping, costs: seq<Cost>, totals: map<string, real>, c: Cost)
    requires Tallied(g, costs, totals)
    ensures Tallied(g, costs + [c], Added(totals, KeyOf(g)(c), c.amount))
  {
    forall key ensures TalliedAt(g, costs + [c], Added(totals, KeyOf(g)(c), c.amount), key) {
      assert TalliedAt(g, costs, totals, key);
      TotalAppend(g, key, costs, c);
      HasKeyAppend(g, key, costs, c);
    }
  }

  /** The loop of get_cost_ledger over its totals dictionary. */
  method Totals(g: Grouping, costs: seq<Cost>) returns (totals: map<string, real>)
    ensures Tallied(g, costs, totals)
  {
    totals := map[];
    for i := 0 to |costs|
      invariant Tallied(g, costs[..i], totals)
    {
      TallyMore(g, costs[..i], totals, costs[i]);
      assert costs[..i + 1] == costs[..i] + [costs[i]];
      totals := Added(totals, KeyOf(g)(costs[i]), costs[i].amount);
    }
    assert costs[..|costs|] == costs;
  }

  /** get_cost_ledger */
  method GetCostLedger(all: seq<Cost>, g: Grouping, day: Option<string>) returns (lines: seq<(string, real)>)
    ensures IsLedger(lines, g, day, all[..if |all| < 20000 then |all| else 20000])
  {
    var costs, requests := FetchAll(all);
    var kept := OnDay(day, costs);
    var totals := Totals(g, kept);
    var keys := SortKeys(totals.Keys);
    lines := seq(|keys|, i requires 0 <= i < |keys| => (keys[i], if keys[i] in totals then totals[keys[i]] else 0.0));
    assert KeysOf(lines) == keys;
    forall key ensures key in KeysOf(lines) <==> HasKey(g, key, kept) { assert TalliedAt(g, kept, totals, key); }
    forall i | 0 <= i < |lines| ensures lines[i].1 == TotalOf(g, lines[i].0, kept) {
      assert keys[i] in keys && TalliedAt(g, kept, totals, keys[i]);
    }
    LedgerIsGroups(lines, g, day, costs);
  }

  // -- Conservation -----------------------------------------------------------------------

  /** The sum of the totals of these keys. */
  function Grand(g: Grouping, keys: seq<string>, costs: seq<Cost>): real {
    if keys == [] then 0.0 else TotalOf(g, keys[0], costs) + Grand(g, keys[1..], costs)
  }

  lemma {:induction false} GrandEmpty(g: Grouping, keys: seq<string>)
    ensures Grand(g, keys, []) == 0.0
  {
    if keys != [] { GrandEmpty(g, keys[1..]); }
  }

  /** One more row adds its amount once, under its own key. */
  lemma {:induction false} GrandAppend(g: Grouping, keys: seq<string>, costs: seq<Cost>, c: Cost)
    requires Ascending(keys)
    ensures Grand(g, keys, costs + [c]) == Grand(g, keys, costs) + if KeyOf(g)(c) in keys then c.amount else 0.0
  {
    if keys != [] {
      TotalAppend(g, keys[0], costs, c);
      GrandAppend(g, keys[1..], costs, c);
      assert forall j | 0 < j < |keys| :: keys[0] != keys[j];
      assert KeyOf(g)(c) in keys <==> KeyOf(g)(c) == keys[0] || KeyOf(g)(c) in keys[1..];
    }
  }

  lemma {:induction false} GrandIsSum(g: Grouping, keys: seq<string>, costs: seq<Cost>)
    requires Ascending(keys) && forall i | 0 <= i < |costs| :: KeyOf(g)(costs[i]) in keys
    ensures Grand(g, keys, costs) == SumBy(Amount, costs)
    decreases |costs|
  {
    if costs == [] {
      GrandEmpty(g, keys);
    } else {
      var init, last := costs[..|costs| - 1], costs[|costs| - 1];
      assert costs == init + [last];
      GrandIsSum(g, keys, init);
      GrandAppend(g, keys, init, last);
      SumByAppend(Amount, init, [last]);
      assert SumBy(Amount, [last]) == last.amount;
    }
  }

  function Second(line: (string, real)): real { line.1 }

  lemma {:induction false} LinesSum(lines: seq<(string, real)>, g: Grouping, costs: seq<Cost>)
    requires forall i | 0 <= i < |lines| :: lines[i].1 == TotalOf(g, lines[i].0, costs)
    ensures SumBy(Second, lines) == Grand(g, KeysOf(lines), costs)
  {
    if lines != [] {
      LinesSum(lines[1..], g, costs);
      assert KeysOf(lines)[1..] == KeysOf(lines[1..]);
    }
  }

  function DayShare(day: Option<string>): Cost -> real {
    (c: Cost) => if day.None? || Begins(c, day.value) then c.amount else 0.0
  }

  lemma {:induction false} KeptAmounts(day: Option<string>, costs: seq<Cost>)
    ensures SumBy(Amount, OnDay(day, costs)) == SumBy(DayShare(day), costs)
  {
    if costs != [] {
      KeptAmounts(day, costs[1..]);
      var kept := OnDay(day, costs[1..]);
      assert ([costs[0]] + kept)[1..] == kept;
    }
  }

  /** A ledger's grand total is the sum of all rows of the day, or of all rows, however
      they are grouped. */
  lemma GrandTotal(lines: seq<(string, real)>, g: Grouping, day: Option<string>, costs: seq<Cost>)
    requires IsLedger(lines, g, day, costs)
    ensures SumBy(Second, lines) == SumBy(DayShare(day), costs)
  {
    var kept := OnDay(day, costs);
    LedgerIsGroups(lines, g, day, costs);
    LinesSum(lines, g, kept);
    forall i | 0 <= i < |kept| ensures KeyOf(g)(kept[i]) in KeysOf(lines) {
      assert HasKey(g, KeyOf(g)(kept[i]), kept);
    }
    GrandIsSum(g, KeysOf(lines), kept);
    KeptAmounts(day, costs);
  }

  /** Grouped by day or by function, the same grand total. */
  lemma SameGrandTotal(byDay: seq<(string, real)>, byFunction: seq<(string, real)>, day: Option<string>, costs: seq<Cost>)
    requires IsLedger(byDay, ByDay, day, costs) && IsLedger(byFunction, ByFunction, day, costs)
    ensures SumBy(Second, byDay) == SumBy(Second, byFunction)
  {
    GrandTotal(byDay, ByDay, day, costs);
    GrandTotal(byFunction, ByFunction, day, costs);
  }
}
