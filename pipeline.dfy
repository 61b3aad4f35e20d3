/** The request-to-prediction pipeline shared by the two Flask front ends
    (app.py and its earlier variant main.py): the reference tables, the
    location lookup, the closed-interval row filter, the batched model call
    and the display entries and export rows built from its predictions.

    Everything here is a value; the module-level globals of the source (the
    location directory, the feature table and the loaded model) are gathered
    in an `Env` that never changes after start-up. */
module Pipeline {

  datatype Option<T> = None | Some(value: T)

  /** A calendar date, as a day number. */
  type Date = int

  /** The nine feature columns of a table row (tmean, trange, tmax, tmin,
      rh, sh, wind, Latitude, Longitude), in that order. */
  type Vector = seq<real>

  /** A row of the location directory: a name and its coordinates. */
  datatype Location = Location(name: string, lat: real, lon: real)

  /** A row of the feature table: coordinates, a date and the model inputs. */
  datatype FeatureRow = FeatureRow(lat: real, lon: real, date: Date, features: Vector)

  /** A (label, message) pair of the page's prediction list. */
  datatype Entry = Entry(title: string, text: string)

  /** One row of the downloadable table: Location, Date, Predicted Rainfall (mm). */
  datatype ResultRow = ResultRow(location: string, date: Date, value: real)

  /** A request to the form view. A date field that is missing or empty is `None`. */
  datatype Request =
    | Get
    | Post(selected: seq<string>, startDate: Option<Date>, endDate: Option<Date>)

  /** The text formatting of the page: the date of a row, a prediction with two
      decimals, and the rounding to two decimals used for the export. */
  datatype Render = Render(dateText: Date -> string, amountText: real -> string, round2: real -> real)

  /** What the process loads at start-up: the location directory, the feature
      table, the trained regressor (a batch of feature vectors to a batch of
      predictions) and the formatting. */
  datatype Env = Env(
    directory: seq<Location>,
    table: seq<FeatureRow>,
    model: seq<Vector> -> seq<real>,
    render: Render)

  const ErrorLabel := "Error"
  const MissingInputs := "Please select locations and both start and end dates."
  const ReversedRange := "Start date cannot be after end date."
  const InvalidLocation := "Invalid location."
  const NoData := "No data available for this range."
  const Separator := " - "
  const Unit := " mm"

  /** The directory row of the first location called `name`, if any. */
  function Lookup(directory: seq<Location>, name: string): (r: Option<Location>)
    ensures r.Some? ==> r.value in directory && r.value.name == name
    ensures r.None? <==> forall l :: l in directory ==> l.name != name
  {
    if directory == [] then None
    else if directory[0].name == name then Some(directory[0])
    else Lookup(directory[1..], name)
  }

  /** The row filter: same coordinates, date within [startDate, endDate]. */
  predicate InRange(row: FeatureRow, lat: real, lon: real, startDate: Date, endDate: Date) {
    row.lat == lat && row.lon == lon && startDate <= row.date <= endDate
  }

  /** The rows of `table` that pass the filter, in table order. */
  function Select(table: seq<FeatureRow>, lat: real, lon: real, startDate: Date, endDate: Date): (subset: seq<FeatureRow>)
    ensures |subset| <= |table|
    ensures forall row :: row in subset <==> row in table && InRange(row, lat, lon, startDate, endDate)
  {
    if table == [] then []
    else
      (if InRange(table[0], lat, lon, startDate, endDate) then [table[0]] else [])
      + Select(table[1..], lat, lon, startDate, endDate)
  }

  /** The model's input: the feature vectors of the selected rows, in order. */
  function Vectors(rows: seq<FeatureRow>): seq<Vector> {
    seq(|rows|, k requires 0 <= k < |rows| => rows[k].features)
  }

  /** How many pairs Python's `zip` forms from the rows and the predictions. */
  function PairCount(rows: seq<FeatureRow>, preds: seq<real>): nat {
    if |rows| <= |preds| then |rows| else |preds|
  }

  /** The display entry of one (row, prediction) pair: "name - date", "value mm". */
  function ForecastEntry(name: string, row: FeatureRow, pred: real, render: Render): Entry {
    Entry(name + Separator + render.dateText(row.date), render.amountText(pred) + Unit)
  }

  /** The export row of one (row, prediction) pair. */
  function ExportRow(name: string, row: FeatureRow, pred: real, render: Render): ResultRow {
    ResultRow(name, row.date, render.round2(pred))
  }

  /** The display entries of the zipped rows and predictions. */
  function Forecasts(name: string, rows: seq<FeatureRow>, preds: seq<real>, render: Render): seq<Entry> {
    var n := PairCount(rows, preds);
    seq(n, k requires 0 <= k < n => ForecastEntry(name, rows[k], preds[k], render))
  }

  /** The export rows of the zipped rows and predictions. */
  function Exports(name: string, rows: seq<FeatureRow>, preds: seq<real>, render: Render): seq<ResultRow> {
    var n := PairCount(rows, preds);
    seq(n, k requires 0 <= k < n => ExportRow(name, rows[k], preds[k], render))
  }

  /** Zipping one more pair appends its entry and its export row. */
  lemma ZipStep(name: string, rows: seq<FeatureRow>, preds: seq<real>, render: Render, j: nat)
    requires j < PairCount(rows, preds)
    ensures Forecasts(name, rows[..j + 1], preds[..j + 1], render)
         == Forecasts(name, rows[..j], preds[..j], render) + [ForecastEntry(name, rows[j], preds[j], render)]
    ensures Exports(name, rows[..j + 1], preds[..j + 1], render)
         == Exports(name, rows[..j], preds[..j], render) + [ExportRow(name, rows[j], preds[j], render)]
  {
  }

  /** Zipping stops at the shorter input: the pairs beyond it play no part. */
  lemma ZipAll(name: string, rows: seq<FeatureRow>, preds: seq<real>, render: Render)
    ensures var n := PairCount(rows, preds);
      && Forecasts(name, rows[..n], preds[..n], render) == Forecasts(name, rows, preds, render)
      && Exports(name, rows[..n], preds[..n], render) == Exports(name, rows, preds, render)
  {
  }

  /** What handling some requested locations produced: the display entries,
      the export rows and the batches the model was called on. */
  datatype Outcome = Outcome(entries: seq<Entry>, rows: seq<ResultRow>, calls: seq<seq<Vector>>) {
    function Then(next: Outcome): Outcome {
      Outcome(entries + next.entries, rows + next.rows, calls + next.calls)
    }
  }

  const Nothing := Outcome([], [], [])

  /** One requested location: unknown name, empty selection, or one model
      call and one entry and export row per (row, prediction) pair. */
  function HandleLocation(env: Env, name: string, startDate: Date, endDate: Date): Outcome {
    match Lookup(env.directory, name)
    case None => Outcome([Entry(name, InvalidLocation)], [], [])
    case Some(loc) =>
      var subset := Select(env.table, loc.lat, loc.lon, startDate, endDate);
      if subset == [] then Outcome([Entry(name, NoData)], [], [])
      else
        var preds := env.model(Vectors(subset));
        Outcome(Forecasts(name, subset, preds, env.render), Exports(name, subset, preds, env.render), [Vectors(subset)])
  }

  /** All requested locations, in request order. */
  function HandleAll(env: Env, selected: seq<string>, startDate: Date, endDate: Date): Outcome {
    if selected == [] then Nothing
    else
      HandleAll(env, selected[..|selected| - 1], startDate, endDate)
        .Then(HandleLocation(env, selected[|selected| - 1], startDate, endDate))
  }

  /** Handling one more location extends the outcome of the earlier ones. */
  lemma HandleAllStep(env: Env, selected: seq<string>, i: nat, startDate: Date, endDate: Date)
    requires i < |selected|
    ensures HandleAll(env, selected[..i + 1], startDate, endDate)
         == HandleAll(env, selected[..i], startDate, endDate).Then(HandleLocation(env, selected[i], startDate, endDate))
  {
    assert selected[..i + 1][..i] == selected[..i];
  }

  /** The answer to one request: rejected by validation with one error entry,
      or served with the outcome of the requested locations (a GET is served
      with nothing). */
  datatype Response = Rejected(error: Entry) | Served(outcome: Outcome) {
    /** The prediction list shown on the page. */
    function Display(): seq<Entry> {
      match this
      case Rejected(e) => [e]
      case Served(o) => o.entries
    }

    /** The batches given to the model, in call order. */
    function ModelCalls(): seq<seq<Vector>> {
      match this
      case Rejected(_) => []
      case Served(o) => o.calls
    }

    /** The export slot after the request, given its value before. */
    function Slot(previous: seq<ResultRow>): seq<ResultRow> {
      match this
      case Rejected(_) => previous
      case Served(o) => o.rows
    }
  }

  /** The form view's decision logic. */
  function Respond(env: Env, req: Request): Response {
    match req
    case Get => Served(Nothing)
    case Post(selected, startDate, endDate) =>
      if selected == [] || startDate.None? || endDate.None? then Rejected(Entry(ErrorLabel, MissingInputs))
      else if startDate.value > endDate.value then Rejected(Entry(ErrorLabel, ReversedRange))
      else Served(HandleAll(env, selected, startDate.value, endDate.value))
  }
}
