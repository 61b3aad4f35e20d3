/** main.py: the earlier form view, with the same validation, lookup, filter
    and batched prediction as app.py but no export slot and no download. */
module MainPage {
  import opened Pipeline

  /** The form view: builds the prediction list step by step and changes
      nothing else. */
  method Predict(env: Env, req: Request) returns (predictions: seq<Entry>, ghost modelCalls: seq<seq<Vector>>)
    ensures predictions == Respond(env, req).Display()
    ensures modelCalls == Respond(env, req).ModelCalls()
  {
    predictions, modelCalls := [], [];
    if req.Post? {
      var selected := req.selected;
      if selected == [] || req.startDate.None? || req.endDate.None? {
        predictions := predictions + [Entry(ErrorLabel, MissingInputs)];
        return;
      }
      var startDate, endDate := req.startDate.value, req.endDate.value;
      if startDate > endDate {
        predictions := predictions + [Entry(ErrorLabel, ReversedRange)];
        return;
      }
      predictions, modelCalls := PredictLocations(env, selected, startDate, endDate);
    }
  }

  /** The loop over the selected locations of a request that passed
      validation, in request order. */
  method PredictLocations(env: Env, selected: seq<string>, startDate: Date, endDate: Date)
    returns (predictions: seq<Entry>, ghost modelCalls: seq<seq<Vector>>)
    ensures predictions == HandleAll(env, selected, startDate, endDate).entries
    ensures modelCalls == HandleAll(env, selected, startDate, endDate).calls
  {
    predictions, modelCalls := [], [];
    var i := 0;
    while i < |selected|
      invariant 0 <= i <= |selected|
      invariant predictions == HandleAll(env, selected[..i], startDate, endDate).entries
      invariant modelCalls == HandleAll(env, selected[..i], startDate, endDate).calls
    {
      var name := selected[i];
      HandleAllStep(env, selected, i, startDate, endDate);
      var loc := Lookup(env.directory, name);
      if loc.None? {
        predictions := predictions + [Entry(name, InvalidLocation)];
        assert HandleLocation(env, name, startDate, endDate) == Outcome([Entry(name, InvalidLocation)], [], []);
      } else {
        var subset := Select(env.table, loc.value.lat, loc.value.lon, startDate, endDate);
        if subset == [] {
          predictions := predictions + [Entry(name, NoData)];
          assert HandleLocation(env, name, startDate, endDate) == Outcome([Entry(name, NoData)], [], []);
        } else {
          var preds := env.model(Vectors(subset));
          modelCalls := modelCalls + [Vectors(subset)];
          predictions := ZipPredictions(name, subset, preds, env.render, predictions);
        }
      }
      i := i + 1;
    }
    assert selected[..i] == selected;
  }

  /** The loop over `zip(rows, predictions)`: one display entry per pair,
      appended in row order. */
  method ZipPredictions(name: string, rows: seq<FeatureRow>, preds: seq<real>, render: Render, entries0: seq<Entry>)
    returns (entries: seq<Entry>)
    ensures entries == entries0 + Forecasts(name, rows, preds, render)
  {
    entries := entries0;
    var j := 0;
    while j < |rows| && j < |preds|
      invariant 0 <= j <= PairCount(rows, preds)
      invariant entries == entries0 + Forecasts(name, rows[..j], preds[..j], render)
    {
      entries := entries + [ForecastEntry(name, rows[j], preds[j], render)];
      ZipStep(name, rows, preds, render, j);
      j := j + 1;
    }
    ZipAll(name, rows, preds, render);
  }
}
