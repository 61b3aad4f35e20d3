/** app.py: the form view and the CSV download, around one process-wide
    export slot (`df_results`) that every served request overwrites. */
module WebApp {
  import opened Pipeline

  /** The answer of the download route. */
  datatype Download = Refused(message: string, status: int) | Csv(rows: seq<ResultRow>)

  const NoExport := "No prediction data available."
  const BadRequest := 400

  class App {
    /** The directory, the feature table and the model loaded at start-up. */
    const env: Env
    /** The export slot: the rows of the last request that passed validation. */
    var results: seq<ResultRow>

    /** Start-up: the slot holds an empty table. */
    constructor (env: Env)
      ensures this.env == env && results == []
    {
      this.env := env;
      results := [];
    }

    /** The form view: validates the request, handles each selected location
        in order, appends display entries and export rows, and on every
        request that passes validation (a GET included) overwrites the slot. */
    method Submit(req: Request) returns (predictions: seq<Entry>, ghost modelCalls: seq<seq<Vector>>)
      modifies this
      ensures predictions == Respond(env, req).Display()
      ensures modelCalls == Respond(env, req).ModelCalls()
      ensures results == Respond(env, req).Slot(old(results))
    {
      predictions, modelCalls := [], [];
      var resultData: seq<ResultRow> := [];
      if req.Post? {
        var selected := req.selected;
        if selected == [] || req.startDate.None? || req.endDate.None? {
          predictions := predictions + [Entry(ErrorLabel, MissingInputs)];
          return;
        }
        var startDate, endDate := req.startDate.value, req.endDate.value;
        if startDate > endDate {
          predictions := predictions + [Entry(ErrorLabel, ReversedRange)];
          return;
        }
        predictions, resultData, modelCalls := PredictLocations(selected, startDate, endDate);
      }
      results := resultData;
    }

    /** The loop over the selected locations of a request that passed
        validation, in request order: the display entries and the export rows
        it appends, and the batches it gives the model. */
    method PredictLocations(selected: seq<string>, startDate: Date, endDate: Date)
      returns (predictions: seq<Entry>, resultData: seq<ResultRow>, ghost modelCalls: seq<seq<Vector>>)
      ensures predictions == HandleAll(env, selected, startDate, endDate).entries
      ensures resultData == HandleAll(env, selected, startDate, endDate).rows
      ensures modelCalls == HandleAll(env, selected, startDate, endDate).calls
    {
      predictions, resultData, modelCalls := [], [], [];
      var i := 0;
      while i < |selected|
        invariant 0 <= i <= |selected|
        invariant predictions == HandleAll(env, selected[..i], startDate, endDate).entries
        invariant resultData == HandleAll(env, selected[..i], startDate, endDate).rows
        invariant modelCalls == HandleAll(env, selected[..i], startDate, endDate).calls
      {
        var name := selected[i];
        HandleAllStep(env, selected, i, startDate, endDate);
        var loc := Lookup(env.directory, name);
        if loc.None? {
          predictions := predictions + [Entry(name, InvalidLocation)];
          assert HandleLocation(env, name, startDate, endDate) == Outcome([Entry(name, InvalidLocation)], [], []);
        } else {
          var subset := Select(env.table, loc.value.lat, loc.value.lon, startDate, endDate);
          if subset == [] {
            predictions := predictions + [Entry(name, NoData)];
            assert HandleLocation(env, name, startDate, endDate) == Outcome([Entry(name, NoData)], [], []);
          } else {
            var preds := env.model(Vectors(subset));
            modelCalls := modelCalls + [Vectors(subset)];
            predictions, resultData := ZipPredictions(name, subset, preds, env.render, predictions, resultData);
          }
        }
        i := i + 1;
      }
      assert selected[..i] == selected;
    }

    /** The loop over `zip(rows, predictions)`: one display entry and one
        export row per pair, appended in row order. */
    static method ZipPredictions(name: string, rows: seq<FeatureRow>, preds: seq<real>, render: Render,
                                 entries0: seq<Entry>, rows0: seq<ResultRow>)
      returns (entries: seq<Entry>, exported: seq<ResultRow>)
      ensures entries == entries0 + Forecasts(name, rows, preds, render)
      ensures exported == rows0 + Exports(name, rows, preds, render)
    {
      entries, exported := entries0, rows0;
      var j := 0;
      while j < |rows| && j < |preds|
        invariant 0 <= j <= PairCount(rows, preds)
        invariant entries == entries0 + Forecasts(name, rows[..j], preds[..j], render)
        invariant exported == rows0 + Exports(name, rows[..j], preds[..j], render)
      {
        entries := entries + [ForecastEntry(name, rows[j], preds[j], render)];
        exported := exported + [ExportRow(name, rows[j], preds[j], render)];
        ZipStep(name, rows, preds, render, j);
        j := j + 1;
      }
      ZipAll(name, rows, preds, render);
    }

    /** The download route: refused with status 400 exactly when the slot is
        empty, otherwise the slot's rows. */
    method Download() returns (r: Download)
      ensures r.Refused? <==> results == []
      ensures r.Refused? ==> r.message == NoExport && r.status == BadRequest
      ensures r.Csv? ==> r.rows == results
    {
      if results == [] {
        return Refused(NoExport, BadRequest);
      }
      r := Csv(results);
    }
  }
}
