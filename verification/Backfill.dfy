/** Filling in the OAuth client id of subscriptions from their portal applications. */
module Backfill {
  import opened Wrappers

  /** The columns that the script reads; `clientId` is the OAuth client id. */
  datatype Row = Row(active: bool, clientId: Option<string>, apiKeyHash: Option<string>, application: Option<string>)

  /** The applications that exist, each with its Keycloak client id. */
  type Applications = map<string, Option<string>>

  class Subscription {
    var active: bool
    var clientId: Option<string>
    var apiKeyHash: Option<string>
    var application: Option<string>

    function Value(): Row
      reads this
    {
      Row(active, clientId, apiKeyHash, application)
    }
  }

  // ----- what happens to a row -----

  /** The condition of the query. */
  predicate Selected(row: Row) {
    row.active && row.clientId.None? && row.apiKeyHash.Some?
  }

  /** A missing value, or an empty string. */
  predicate Falsy(value: Option<string>) {
    value.None? || |value.value| == 0
  }

  /** The client id that the row's application offers, unless it is missing or empty. */
  function Offered(apps: Applications, row: Row): (r: Option<string>)
    ensures r.Some? ==> |r.value| > 0
  {
    if Falsy(row.application) || row.application.value !in apps then None
    else if Falsy(apps[row.application.value]) then None
    else apps[row.application.value]
  }

  predicate Fillable(apps: Applications, row: Row) {
    Selected(row) && Offered(apps, row).Some?
  }

  function Filled(apps: Applications, row: Row): Row {
    if Fillable(apps, row) then row.(clientId := Offered(apps, row)) else row
  }

  function FilledAll(apps: Applications, rows: seq<Row>): (r: seq<Row>)
    ensures |r| == |rows| && forall i | 0 <= i < |rows| :: r[i] == Filled(apps, rows[i])
  {
    seq(|rows|, i requires 0 <= i < |rows| => Filled(apps, rows[i]))
  }

  /** The three counts of `check_state`, and how many of the last can be filled in. */
  datatype Counts = Counts(active: nat, withClientId: nat, without: nat, fillable: nat)

  function Tally(apps: Applications, rows: seq<Row>): Counts {
    if rows == [] then Counts(0, 0, 0, 0)
    else
      var before, last := Tally(apps, rows[..|rows| - 1]), rows[|rows| - 1];
      Counts(before.active + (if last.active then 1 else 0),
             before.withClientId + (if last.active && last.clientId.Some? then 1 else 0),
             before.without + (if Selected(last) then 1 else 0),
             before.fillable + (if Fillable(apps, last) then 1 else 0))
  }

  // ----- the script -----

  function Values(rows: seq<Subscription>): (r: seq<Row>)
    reads rows
    ensures |r| == |rows| && forall i | 0 <= i < |rows| :: r[i] == rows[i].Value()
  {
    if rows == [] then [] else Values(rows[..|rows| - 1]) + [rows[|rows| - 1].Value()]
  }

  ghost predicate Distinct(rows: seq<Subscription>) {
    rows == [] || (rows[|rows| - 1] !in rows[..|rows| - 1] && Distinct(rows[..|rows| - 1]))
  }

  lemma {:induction false} OthersDiffer(rows: seq<Subscription>, k: nat)
    requires k < |rows| && Distinct(rows)
    ensures forall i | 0 <= i < |rows| && i != k :: rows[i] != rows[k]
  {
    var last, rest := |rows| - 1, rows[..|rows| - 1];
    if k < last {
      OthersDiffer(rest, k);
      assert rest[k] in rest;
    } else {
      assert forall i | 0 <= i < last :: rest[i] in rest;
    }
  }

  lemma TallyOneMore(apps: Applications, rows: seq<Row>, k: nat)
    requires k < |rows|
    ensures Tally(apps, rows[..k + 1]).without == Tally(apps, rows[..k]).without + (if Selected(rows[k]) then 1 else 0)
    ensures Tally(apps, rows[..k + 1]).fillable == Tally(apps, rows[..k]).fillable + (if Fillable(apps, rows[k]) then 1 else 0)
  {
    assert rows[..k + 1][..k] == rows[..k];
  }

  lemma ValuesOneMore(rows: seq<Subscription>, sub: Subscription)
    ensures Values(rows + [sub]) == Values(rows) + [sub.Value()]
  {
    assert (rows + [sub])[..|rows|] == rows;
  }

  lemma TallyAppend(apps: Applications, rows: seq<Row>, row: Row)
    ensures Tally(apps, rows + [row]).fillable == Tally(apps, rows).fillable + (if Fillable(apps, row) then 1 else 0)
  {
    assert (rows + [row])[..|rows|] == rows;
  }

  /** The objects that the query returns, in the order of the table. */
  function Chosen(table: seq<Subscription>): seq<Subscription>
    reads table
  {
    if table == [] then []
    else
      var last := table[|table| - 1];
      Chosen(table[..|table| - 1]) + (if Selected(last.Value()) then [last] else [])
  }

  lemma {:induction false} ChosenAreSelected(table: seq<Subscription>)
    requires Distinct(table)
    ensures Distinct(Chosen(table))
    ensures forall sub :: sub in Chosen(table) <==> sub in table && Selected(sub.Value())
  {
    if table != [] {
      var n := |table| - 1;
      ChosenAreSelected(table[..n]);
      assert table == table[..n] + [table[n]];
      assert Selected(table[n].Value()) ==> Chosen(table)[..|Chosen(table)| - 1] == Chosen(table[..n]);
      assert !Selected(table[n].Value()) ==> Chosen(table) == Chosen(table[..n]);
    }
  }

  lemma {:induction false} ChosenAreCounted(table: seq<Subscription>, apps: Applications)
    ensures |Chosen(table)| == Tally(apps, Values(table)).without
  {
    if table != [] {
      var n := |table| - 1;
      ChosenAreCounted(table[..n], apps);
      assert Values(table)[..n] == Values(table[..n]);
    }
  }

  lemma {:induction false} ChosenAreTheFillable(table: seq<Subscription>, apps: Applications)
    ensures FillableIn(Chosen(table), apps) == FillableIn(table, apps)
  {
    if table != [] {
      var n := |table| - 1;
      ChosenAreTheFillable(table[..n], apps);
      ChosenOneMore(table[..n], table[n]);
      assert table == table[..n] + [table[n]];
      FillableOneMore(table[..n], table[n], apps);
      FillableOneMore(Chosen(table[..n]), table[n], apps);
    }
  }

  lemma ChosenTally(table: seq<Subscription>, apps: Applications)
    ensures Tally(apps, Values(Chosen(table))).fillable == Tally(apps, Values(table)).fillable
  {
    ChosenAreTheFillable(table, apps);
  }

  function FillableIn(table: seq<Subscription>, apps: Applications): nat
    reads table
  {
    Tally(apps, Values(table)).fillable
  }

  lemma ChosenOneMore(table: seq<Subscription>, sub: Subscription)
    ensures Chosen(table + [sub]) == if Selected(sub.Value()) then Chosen(table) + [sub] else Chosen(table)
  {
    assert (table + [sub])[..|table|] == table;
  }

  lemma FillableOneMore(rows: seq<Subscription>, sub: Subscription, apps: Applications)
    ensures FillableIn(rows + [sub], apps) == FillableIn(rows, apps) + (if Fillable(apps, sub.Value()) then 1 else 0)
  {
    ValuesOneMore(rows, sub);
    TallyAppend(apps, Values(rows), sub.Value());
  }

  method Select(table: seq<Subscription>) returns (found: seq<Subscription>)
    ensures found == Chosen(table)
  {
    found := [];
    for k := 0 to |table|
      invariant found == Chosen(table[..k])
    {
      assert table[..k + 1][..k] == table[..k];
      if Selected(table[k].Value()) {
        found := found + [table[k]];
      }
    }
    assert table[..|table|] == table;
  }

  /** The body of the loop: whether the row counts as updated. */
  method FillIn(sub: Subscription, apps: Applications, dryRun: bool) returns (updated: bool)
    requires Selected(sub.Value())
    modifies sub
    ensures sub.Value() == if dryRun then old(sub.Value()) else Filled(apps, old(sub.Value()))
    ensures updated == old(Fillable(apps, sub.Value()))
  {
    if Falsy(sub.application) {
      return false;
    }
    if sub.application.value !in apps {
      return false;
    }
    var client := apps[sub.application.value];
    if Falsy(client) {
      return false;
    }
    if !dryRun {
      sub.clientId := client;
    }
    return true;
  }

  /** The subscriptions in `done` have been filled in, the others are as they were. */
  ghost predicate Progress(table: set<Subscription>, was: map<Subscription, Row>, done: set<Subscription>, apps: Applications)
    reads table
  {
    && was.Keys == table
    && forall sub | sub in table :: sub.Value() == if sub in done then Filled(apps, was[sub]) else was[sub]
  }

  /** How many of the first k subscriptions could be filled in. */
  ghost function FillableUpTo(apps: Applications, found: seq<Subscription>, was: map<Subscription, Row>, k: nat): nat
    requires k <= |found| && forall sub | sub in found :: sub in was
  {
    if k == 0 then 0
    else FillableUpTo(apps, found, was, k - 1) + if Fillable(apps, was[found[k - 1]]) then 1 else 0
  }

  lemma {:induction false} FillableUpToAll(apps: Applications, found: seq<Subscription>, was: map<Subscription, Row>, k: nat)
    requires k <= |found| && forall sub | sub in found :: sub in was && was[sub] == sub.Value()
    ensures FillableUpTo(apps, found, was, k) == Tally(apps, Values(found)[..k]).fillable
  {
    if k > 0 {
      FillableUpToAll(apps, found, was, k - 1);
      TallyOneMore(apps, Values(found), k - 1);
    }
  }

  /** The loop over the rows that the query returned, in a table that holds `was`. */
  method FillInAll(found: seq<Subscription>, apps: Applications, dryRun: bool, ghost table: set<Subscription>,
                   ghost was: map<Subscription, Row>)
    returns (updated: nat, skipped: nat)
    requires Progress(table, was, {}, apps)
    requires Distinct(found) && forall sub | sub in found :: sub in table && Selected(was[sub])
    modifies table
    ensures Progress(table, was, if dryRun then {} else (set sub | sub in found), apps)
    ensures updated == FillableUpTo(apps, found, was, |found|)
    ensures updated + skipped == |found|
  {
    updated, skipped := 0, 0;
    ghost var done: set<Subscription> := {};
    for k := 0 to |found|
      invariant updated + skipped == k
      invariant updated == FillableUpTo(apps, found, was, k)
      invariant forall i | 0 <= i < |found| :: found[i] in done <==> i < k && !dryRun
      invariant forall sub | sub in done :: sub in found
      invariant Progress(table, was, done, apps)
    {
      OthersDiffer(found, k);
      assert found[k] in table;
      var filled := FillIn(found[k], apps, dryRun);
      if !dryRun {
        done := done + {found[k]};
      }
      if filled {
        updated := updated + 1;
      } else {
        skipped := skipped + 1;
      }
    }
    assert done == if dryRun then {} else set sub | sub in found;
  }

  lemma RowByRow(table: seq<Subscription>, apps: Applications, dryRun: bool, was: map<Subscription, Row>,
                 done: set<Subscription>, rows: seq<Row>)
    requires Progress((set sub | sub in table), was, done, apps)
    requires forall sub | sub in table :: sub in done <==> !dryRun && Selected(was[sub])
    requires |rows| == |table| && forall i | 0 <= i < |table| :: rows[i] == was[table[i]]
    ensures Values(table) == if dryRun then rows else FilledAll(apps, rows)
  {
    forall i | 0 <= i < |table| ensures table[i].Value() == if dryRun then rows[i] else Filled(apps, rows[i]) {
      assert table[i] in table;
    }
  }

  /** The rows of the query are those to be filled in, and the two counts say how many they are. */
  lemma WhatIsFound(table: seq<Subscription>, apps: Applications, found: seq<Subscription>, was: map<Subscription, Row>)
    requires Distinct(table) && found == Chosen(table)
    requires was == map sub | sub in table :: sub.Value()
    ensures Distinct(found) && forall sub | sub in found :: sub in table && Selected(was[sub])
    ensures forall sub | sub in table :: sub in found <==> Selected(was[sub])
    ensures FillableUpTo(apps, found, was, |found|) == Tally(apps, Values(table)).fillable
    ensures |found| == Tally(apps, Values(table)).without
  {
    ChosenAreSelected(table);
    ChosenAreCounted(table, apps);
    ChosenTally(table, apps);
    FillableUpToAll(apps, found, was, |found|);
    assert Values(found)[..|found|] == Values(found);
  }

  /** Returns the two numbers that are logged. */
  method Backfill(table: seq<Subscription>, apps: Applications, dryRun: bool) returns (updated: nat, skipped: nat)
    requires Distinct(table)
    modifies set sub | sub in table
    ensures Values(table) == if dryRun then old(Values(table)) else FilledAll(apps, old(Values(table)))
    ensures updated == old(Tally(apps, Values(table))).fillable
    ensures updated + skipped == old(Tally(apps, Values(table))).without
  {
    var found := Select(table);
    ghost var was, rows := map sub | sub in table :: sub.Value(), Values(table);
    ghost var done := if dryRun then {} else (set sub | sub in found);
    WhatIsFound(table, apps, found, was);
    updated, skipped := FillInAll(found, apps, dryRun, (set sub | sub in table), was);
    RowByRow(table, apps, dryRun, was, done, rows);
  }

  // ----- laws -----

  /** A row gets the client id of the application that it names, if it is active, has a key and
      no client id, and the application has one; nothing else of it changes, and no other row. */
  lemma WhatIsFilledIn(apps: Applications, rows: seq<Row>, i: nat)
    requires i < |rows|
    ensures var was, after := rows[i], FilledAll(apps, rows)[i];
      if was.active && was.clientId == None && was.apiKeyHash != None
        && was.application.Some? && was.application.value != "" && was.application.value in apps
        && apps[was.application.value].Some? && apps[was.application.value].value != ""
      then after == Row(true, apps[was.application.value], was.apiKeyHash, was.application)
      else after == was
  {
  }

  /** The positions of the rows with a property. */
  function Marked(rows: seq<Row>, property: Row -> bool): set<nat> {
    set i: nat | i < |rows| && property(rows[i])
  }

  lemma MarkedOneMore(rows: seq<Row>, property: Row -> bool)
    requires rows != []
    ensures var n := |rows| - 1;
      |Marked(rows, property)| == |Marked(rows[..n], property)| + if property(rows[n]) then 1 else 0
  {
    var n := |rows| - 1;
    assert Marked(rows, property) == Marked(rows[..n], property) + if property(rows[n]) then {n} else {};
  }

  predicate IsActive(row: Row) { row.active }

  predicate HasClientId(row: Row) { row.active && row.clientId != None }

  predicate LacksClientId(row: Row) { row.active && row.clientId == None && row.apiKeyHash != None }

  function Changes(apps: Applications): Row -> bool { (row: Row) => Filled(apps, row) != row }

  /** The state check counts the active rows, those of them with a client id, and those without
      one that have a key; what can be filled in are the rows that a run would change. */
  lemma {:induction false} WhatIsCounted(apps: Applications, rows: seq<Row>)
    ensures var c := Tally(apps, rows);
      && c.active == |Marked(rows, IsActive)| && c.withClientId == |Marked(rows, HasClientId)|
      && c.without == |Marked(rows, LacksClientId)| && c.fillable == |Marked(rows, Changes(apps))|
  {
    if rows == [] {
      NothingMarked(IsActive);
      NothingMarked(HasClientId);
      NothingMarked(LacksClientId);
      NothingMarked(Changes(apps));
    } else {
      WhatIsCounted(apps, rows[..|rows| - 1]);
      MarkedOneMore(rows, IsActive);
      MarkedOneMore(rows, HasClientId);
      MarkedOneMore(rows, LacksClientId);
      MarkedOneMore(rows, Changes(apps));
    }
  }

  lemma NothingMarked(property: Row -> bool)
    ensures |Marked([], property)| == 0
  {
    assert Marked([], property) == {};
  }

  /** An apply run moves the updated rows from one count to the other; what is left without a
      client id are the rows that were skipped, and a further run updates none. */
  lemma {:induction false} ApplyMovesTheCounts(apps: Applications, rows: seq<Row>)
    ensures var before, after := Tally(apps, rows), Tally(apps, FilledAll(apps, rows));
      && after.active == before.active
      && after.withClientId == before.withClientId + before.fillable
      && after.without == before.without - before.fillable
      && after.fillable == 0
  {
    if rows != [] {
      var n := |rows| - 1;
      ApplyMovesTheCounts(apps, rows[..n]);
      assert FilledAll(apps, rows)[..n] == FilledAll(apps, rows[..n]);
    }
  }

  /** A run reports no update exactly when applying changes no row. */
  lemma {:induction false} NoneUpdatedIffUnchanged(apps: Applications, rows: seq<Row>)
    ensures Tally(apps, rows).fillable == 0 <==> FilledAll(apps, rows) == rows
  {
    if rows != [] {
      var n := |rows| - 1;
      NoneUpdatedIffUnchanged(apps, rows[..n]);
      assert FilledAll(apps, rows) == FilledAll(apps, rows[..n]) + [Filled(apps, rows[n])];
      assert rows == rows[..n] + [rows[n]];
    }
  }

  /** Applying twice is applying once. */
  lemma ApplyIsIdempotent(apps: Applications, rows: seq<Row>)
    ensures FilledAll(apps, FilledAll(apps, rows)) == FilledAll(apps, rows)
  {
    ApplyMovesTheCounts(apps, rows);
    NoneUpdatedIffUnchanged(apps, FilledAll(apps, rows));
  }

  /** The counts of the state check never exceed the active subscriptions, and cover them
      exactly when every active subscription has a client id or an API key. */
  lemma {:induction false} CountsCover(apps: Applications, rows: seq<Row>)
    ensures var c := Tally(apps, rows);
      && c.withClientId + c.without <= c.active && c.fillable <= c.without
      && (c.withClientId + c.without == c.active <==>
          forall row | row in rows :: row.active ==> row.clientId.Some? || row.apiKeyHash.Some?)
  {
    if rows != [] {
      var n := |rows| - 1;
      CountsCover(apps, rows[..n]);
      assert rows == rows[..n] + [rows[n]];
    }
  }
}
