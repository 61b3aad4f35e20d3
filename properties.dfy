/** What the pipeline promises: the first-match lookup, the stable
    closed-interval filter, the validation outcomes, the per-location
    outcomes, request-order grouping, and how the export rows and the
    diagnostic entries are counted against the display list. */
module Properties {
  import opened Pipeline

  // ---------------------------------------------------------------------------
  // Lookup and filter

  /** The lookup returns the first directory row with the requested name. */
  lemma {:induction false} LookupFirst(directory: seq<Location>, name: string, i: nat)
    requires i < |directory| && directory[i].name == name
    requires forall j :: 0 <= j < i ==> directory[j].name != name
    ensures Lookup(directory, name) == Some(directory[i])
  {
    if i > 0 {
      forall j | 0 <= j < i - 1
        ensures directory[1..][j].name != name
      {
        assert directory[1..][j] == directory[j + 1];
      }
      LookupFirst(directory[1..], name, i - 1);
    }
  }

  /** The filter is stable: filtering a concatenation filters each part and
      keeps them in order, so the selection follows the table's row order. */
  lemma {:induction false} SelectAppend(a: seq<FeatureRow>, b: seq<FeatureRow>, lat: real, lon: real, startDate: Date, endDate: Date)
    ensures Select(a + b, lat, lon, startDate, endDate)
         == Select(a, lat, lon, startDate, endDate) + Select(b, lat, lon, startDate, endDate)
  {
    if a == [] {
      assert a + b == b;
    } else {
      assert (a + b)[0] == a[0];
      assert (a + b)[1..] == a[1..] + b;
      SelectAppend(a[1..], b, lat, lon, startDate, endDate);
    }
  }

  /** Applying the filter to its own selection changes nothing. */
  lemma {:induction false} SelectIdempotent(table: seq<FeatureRow>, lat: real, lon: real, startDate: Date, endDate: Date)
    ensures var subset := Select(table, lat, lon, startDate, endDate);
      Select(subset, lat, lon, startDate, endDate) == subset
  {
    if table != [] {
      var rest := Select(table[1..], lat, lon, startDate, endDate);
      SelectIdempotent(table[1..], lat, lon, startDate, endDate);
      if InRange(table[0], lat, lon, startDate, endDate) {
        var head := [table[0]];
        assert Select(head, lat, lon, startDate, endDate) == head by {
          assert head[1..] == [];
        }
        SelectAppend(head, rest, lat, lon, startDate, endDate);
        calc {
          Select(Select(table, lat, lon, startDate, endDate), lat, lon, startDate, endDate);
          Select(head + rest, lat, lon, startDate, endDate);
          Select(head, lat, lon, startDate, endDate) + Select(rest, lat, lon, startDate, endDate);
          head + rest;
        }
      } else {
        assert Select(table, lat, lon, startDate, endDate) == rest by {
          assert [] + rest == rest;
        }
      }
    }
  }

  /** The selection is empty exactly when no table row passes the filter. */
  lemma {:induction false} SelectEmpty(table: seq<FeatureRow>, lat: real, lon: real, startDate: Date, endDate: Date)
    ensures Select(table, lat, lon, startDate, endDate) == []
        <==> forall row :: row in table ==> !InRange(row, lat, lon, startDate, endDate)
  {
    if table != [] {
      SelectEmpty(table[1..], lat, lon, startDate, endDate);
      assert forall row :: row in table <==> row == table[0] || row in table[1..];
    }
  }

  predicate Chronological(rows: seq<FeatureRow>) {
    forall i, j :: 0 <= i < j < |rows| ==> rows[i].date <= rows[j].date
  }

  /** The selection keeps table order, so it is in ascending date order
      whenever the table is. */
  lemma {:induction false} SelectChronological(table: seq<FeatureRow>, lat: real, lon: real, startDate: Date, endDate: Date)
    requires Chronological(table)
    ensures Chronological(Select(table, lat, lon, startDate, endDate))
  {
    if table != [] {
      var rest := Select(table[1..], lat, lon, startDate, endDate);
      assert Chronological(table[1..]) by {
        forall i, j | 0 <= i < j < |table| - 1
          ensures table[1..][i].date <= table[1..][j].date
        {
          assert table[1..][i] == table[i + 1] && table[1..][j] == table[j + 1];
        }
      }
      SelectChronological(table[1..], lat, lon, startDate, endDate);
      forall k | 0 <= k < |rest|
        ensures table[0].date <= rest[k].date
      {
        assert rest[k] in table[1..];
        var m :| 0 <= m < |table[1..]| && table[1..][m] == rest[k];
        assert table[1..][m] == table[m + 1];
      }
    }
  }

  // ---------------------------------------------------------------------------
  // Validation

  /** No location, or a missing or empty date: the single missing-input error,
      no model call and the export slot left as it was. */
  lemma MissingInputsRejected(env: Env, req: Request, previous: seq<ResultRow>)
    requires req.Post? && (req.selected == [] || req.startDate.None? || req.endDate.None?)
    ensures Respond(env, req).Display() == [Entry(ErrorLabel, MissingInputs)]
    ensures Respond(env, req).ModelCalls() == []
    ensures Respond(env, req).Slot(previous) == previous
  {
  }

  /** A start date after the end date: the single reversed-range error, no
      model call and the export slot left as it was. */
  lemma ReversedRangeRejected(env: Env, req: Request, previous: seq<ResultRow>)
    requires req.Post? && req.selected != [] && req.startDate.Some? && req.endDate.Some?
    requires req.startDate.value > req.endDate.value
    ensures Respond(env, req).Display() == [Entry(ErrorLabel, ReversedRange)]
    ensures Respond(env, req).ModelCalls() == []
    ensures Respond(env, req).Slot(previous) == previous
  {
  }

  /** A GET shows an empty list and resets the export slot to empty. */
  lemma GetResetsSlot(env: Env, previous: seq<ResultRow>)
    ensures Respond(env, Get).Display() == []
    ensures Respond(env, Get).ModelCalls() == []
    ensures Respond(env, Get).Slot(previous) == []
  {
  }

  /** A request that passes validation overwrites the slot with exactly the
      export rows of its locations, whatever the slot held before. */
  lemma ServedOverwritesSlot(env: Env, req: Request, previous: seq<ResultRow>)
    requires req.Post? && req.selected != [] && req.startDate.Some? && req.endDate.Some?
    requires req.startDate.value <= req.endDate.value
    ensures Respond(env, req).Slot(previous) == HandleAll(env, req.selected, req.startDate.value, req.endDate.value).rows
    ensures Respond(env, req).Display() == HandleAll(env, req.selected, req.startDate.value, req.endDate.value).entries
  {
  }

  // ---------------------------------------------------------------------------
  // One location

  /** An unknown name gives one invalid-location entry, no export row and no
      model call. */
  lemma UnknownLocation(env: Env, name: string, startDate: Date, endDate: Date)
    requires forall l :: l in env.directory ==> l.name != name
    ensures HandleLocation(env, name, startDate, endDate) == Outcome([Entry(name, InvalidLocation)], [], [])
  {
  }

  /** A known name whose selection is empty gives one no-data entry, no export
      row and no model call. */
  lemma EmptySelection(env: Env, name: string, startDate: Date, endDate: Date, loc: Location)
    requires Lookup(env.directory, name) == Some(loc)
    requires forall row :: row in env.table ==> !InRange(row, loc.lat, loc.lon, startDate, endDate)
    ensures HandleLocation(env, name, startDate, endDate) == Outcome([Entry(name, NoData)], [], [])
  {
    SelectEmpty(env.table, loc.lat, loc.lon, startDate, endDate);
  }

  /** N matching rows and a model that answers N predictions: one model call on
      the N feature vectors in row order, and exactly N display entries and N
      export rows, the k-th of each built from the k-th row and prediction. */
  lemma MatchingRows(env: Env, name: string, startDate: Date, endDate: Date, loc: Location, subset: seq<FeatureRow>)
    requires Lookup(env.directory, name) == Some(loc)
    requires subset == Select(env.table, loc.lat, loc.lon, startDate, endDate) && subset != []
    requires |env.model(Vectors(subset))| == |subset|
    ensures var out, preds := HandleLocation(env, name, startDate, endDate), env.model(Vectors(subset));
      && out.calls == [Vectors(subset)]
      && |Vectors(subset)| == |subset|
      && (forall k :: 0 <= k < |subset| ==> Vectors(subset)[k] == subset[k].features)
      && |out.entries| == |subset| && |out.rows| == |subset|
      && (forall k :: 0 <= k < |subset| ==> out.entries[k] == ForecastEntry(name, subset[k], preds[k], env.render))
      && (forall k :: 0 <= k < |subset| ==> out.rows[k] == ExportRow(name, subset[k], preds[k], env.render))
  {
  }

  // ---------------------------------------------------------------------------
  // Request order

  lemma ThenAssociative(x: Outcome, y: Outcome, z: Outcome)
    ensures x.Then(y).Then(z) == x.Then(y.Then(z))
  {
  }

  /** Locations are handled independently and in request order: the outcome of
      a concatenated request is the two outcomes one after the other (so a
      name listed twice is handled twice, and a bad name does not stop the
      names after it). */
  lemma {:induction false} HandleAllAppend(env: Env, a: seq<string>, b: seq<string>, startDate: Date, endDate: Date)
    ensures HandleAll(env, a + b, startDate, endDate)
         == HandleAll(env, a, startDate, endDate).Then(HandleAll(env, b, startDate, endDate))
  {
    if b == [] {
      assert a + b == a;
    } else {
      var b', last := b[..|b| - 1], b[|b| - 1];
      var here := HandleLocation(env, last, startDate, endDate);
      assert (a + b)[..|a + b| - 1] == a + b';
      assert (a + b)[|a + b| - 1] == last;
      HandleAllAppend(env, a, b', startDate, endDate);
      calc {
        HandleAll(env, a + b, startDate, endDate);
        HandleAll(env, a + b', startDate, endDate).Then(here);
        HandleAll(env, a, startDate, endDate).Then(HandleAll(env, b', startDate, endDate)).Then(here);
        { ThenAssociative(HandleAll(env, a, startDate, endDate), HandleAll(env, b', startDate, endDate), here); }
        HandleAll(env, a, startDate, endDate).Then(HandleAll(env, b', startDate, endDate).Then(here));
        HandleAll(env, a, startDate, endDate).Then(HandleAll(env, b, startDate, endDate));
      }
    }
  }

  // ---------------------------------------------------------------------------
  // Counting the display list against the export

  /** The messages that stand in place of a prediction. */
  predicate IsDiagnostic(e: Entry) {
    e.text == MissingInputs || e.text == ReversedRange || e.text == InvalidLocation || e.text == NoData
  }

  /** The number of display entries that show a prediction. */
  function ForecastCount(entries: seq<Entry>): nat {
    if entries == [] then 0
    else (if IsDiagnostic(entries[0]) then 0 else 1) + ForecastCount(entries[1..])
  }

  /** The number of display entries whose message is `text`. */
  function CountText(entries: seq<Entry>, text: string): nat {
    if entries == [] then 0
    else (if entries[0].text == text then 1 else 0) + CountText(entries[1..], text)
  }

  lemma {:induction false} CountsAppend(a: seq<Entry>, b: seq<Entry>, text: string)
    ensures ForecastCount(a + b) == ForecastCount(a) + ForecastCount(b)
    ensures CountText(a + b, text) == CountText(a, text) + CountText(b, text)
  {
    if a == [] {
      assert a + b == b;
    } else {
      assert (a + b)[0] == a[0];
      assert (a + b)[1..] == a[1..] + b;
      CountsAppend(a[1..], b, text);
    }
  }

  /** A prediction's message ends in "mm" while every diagnostic message ends
      in a full stop, so no prediction entry is read as a diagnostic. */
  lemma ForecastNotDiagnostic(name: string, row: FeatureRow, pred: real, render: Render)
    ensures !IsDiagnostic(ForecastEntry(name, row, pred, render))
  {
    var text := ForecastEntry(name, row, pred, render).text;
    assert text[|text| - 1] == 'm';
    assert MissingInputs[|MissingInputs| - 1] == '.';
    assert ReversedRange[|ReversedRange| - 1] == '.';
    assert InvalidLocation[|InvalidLocation| - 1] == '.';
    assert NoData[|NoData| - 1] == '.';
  }

  /** A run of prediction entries counts in full and holds no diagnostic. */
  lemma {:induction false} ForecastsCount(name: string, rows: seq<FeatureRow>, preds: seq<real>, render: Render, text: string)
    requires text == InvalidLocation || text == NoData
    ensures ForecastCount(Forecasts(name, rows, preds, render)) == PairCount(rows, preds)
    ensures CountText(Forecasts(name, rows, preds, render), text) == 0
  {
    var n := PairCount(rows, preds);
    if n > 0 {
      var fs := Forecasts(name, rows, preds, render);
      ForecastNotDiagnostic(name, rows[0], preds[0], render);
      assert fs[0] == ForecastEntry(name, rows[0], preds[0], render);
      assert fs[1..] == Forecasts(name, rows[1..], preds[1..], render);
      ForecastsCount(name, rows[1..], preds[1..], render, text);
    }
  }

  predicate Unknown(env: Env, name: string) {
    Lookup(env.directory, name).None?
  }

  predicate NothingInRange(env: Env, name: string, startDate: Date, endDate: Date) {
    match Lookup(env.directory, name)
    case None => false
    case Some(loc) => Select(env.table, loc.lat, loc.lon, startDate, endDate) == []
  }

  /** How many requested names are unknown, counting repeats. */
  function UnknownCount(env: Env, selected: seq<string>): nat {
    if selected == [] then 0
    else UnknownCount(env, selected[..|selected| - 1]) + (if Unknown(env, selected[|selected| - 1]) then 1 else 0)
  }

  /** How many requested names are known but have no row in range, counting repeats. */
  function EmptyCount(env: Env, selected: seq<string>, startDate: Date, endDate: Date): nat {
    if selected == [] then 0
    else
      EmptyCount(env, selected[..|selected| - 1], startDate, endDate)
      + (if NothingInRange(env, selected[|selected| - 1], startDate, endDate) then 1 else 0)
  }

  lemma LocationCounts(env: Env, name: string, startDate: Date, endDate: Date)
    ensures var out := HandleLocation(env, name, startDate, endDate);
      && ForecastCount(out.entries) == |out.rows|
      && CountText(out.entries, InvalidLocation) == (if Unknown(env, name) then 1 else 0)
      && CountText(out.entries, NoData) == (if NothingInRange(env, name, startDate, endDate) then 1 else 0)
  {
    match Lookup(env.directory, name)
    case None =>
    case Some(loc) =>
      var subset := Select(env.table, loc.lat, loc.lon, startDate, endDate);
      if subset != [] {
        var preds := env.model(Vectors(subset));
        ForecastsCount(name, subset, preds, env.render, InvalidLocation);
        ForecastsCount(name, subset, preds, env.render, NoData);
      }
  }

  /** Over a whole request that passes validation: every export row has one
      prediction entry on the page and vice versa; there is exactly one
      invalid-location entry per unknown name and one no-data entry per known
      name with nothing in range. */
  lemma {:induction false} RequestCounts(env: Env, selected: seq<string>, startDate: Date, endDate: Date)
    ensures var out := HandleAll(env, selected, startDate, endDate);
      && ForecastCount(out.entries) == |out.rows|
      && CountText(out.entries, InvalidLocation) == UnknownCount(env, selected)
      && CountText(out.entries, NoData) == EmptyCount(env, selected, startDate, endDate)
  {
    if selected != [] {
      var init, last := selected[..|selected| - 1], selected[|selected| - 1];
      var before, here := HandleAll(env, init, startDate, endDate), HandleLocation(env, last, startDate, endDate);
      RequestCounts(env, init, startDate, endDate);
      LocationCounts(env, last, startDate, endDate);
      CountsAppend(before.entries, here.entries, InvalidLocation);
      CountsAppend(before.entries, here.entries, NoData);
    }
  }

  /** After any request, the rows in the export slot are exactly as many as
      the prediction entries shown, unless validation rejected it (then the
      page shows no prediction and the slot keeps its old rows). */
  lemma ExportMatchesDisplay(env: Env, req: Request, previous: seq<ResultRow>)
    ensures Respond(env, req).Served? ==> ForecastCount(Respond(env, req).Display()) == |Respond(env, req).Slot(previous)|
    ensures Respond(env, req).Rejected? ==> ForecastCount(Respond(env, req).Display()) == 0 && Respond(env, req).Slot(previous) == previous
  {
    match Respond(env, req)
    case Rejected(e) =>
      assert [e][1..] == [];
    case Served(o) =>
      if req.Post? {
        RequestCounts(env, req.selected, req.startDate.value, req.endDate.value);
      }
  }
}
