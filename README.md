# Rainfall prediction form: a Dafny model of the request pipeline

The system is a small Flask service. A user picks one or more locations and a
date range on a form. For each location the service looks up its coordinates
in a location directory. It then filters a precomputed weather feature table
to the rows at those coordinates whose date lies in the closed range. It runs
a trained XGBoost regressor once over those rows and shows one line per
(location, date) with the predicted rainfall. `app.py` also keeps the
collected rows in one process-wide export slot (`df_results`), which a
`/download` route serves as CSV. `main.py` is an earlier version of the same
view without the slot.

The model keeps the decision logic and makes three things abstract:

- dates are day numbers (`int`);
- coordinates are `real`, compared by exact equality as in the source;
- the regressor is a total function from a batch of feature vectors to a
  batch of predictions, and the text formatting and rounding are functions
  too (`Render`).

Files:

- `pipeline.dfy`, module `Pipeline`: the data model and the specification.
  It holds the lookup, the filter, the zip of rows and predictions, the
  per-location outcome, the outcome of all requested locations, and
  `Respond`. `Respond` decides whether a request is rejected by validation or
  served, and what the export slot holds afterwards.
- `web_app.dfy`, module `WebApp`: `app.py` as a class `App`. Its field
  `results` is the export slot. `Submit` is the form view, written with the
  source's loops. `Download` is the download route.
- `main_page.dfy`, module `MainPage`: `main.py`'s view as a method with no
  state.
- `properties.dfy`, module `Properties`: the lemmas about the specification.

Both views are proved equal to `Respond`: their display lists, the batches
they give the model, and (for `app.py`) the new value of the slot. The lemmas
about `Respond` therefore hold for both files.

Where the system's design description and the code disagree, the model
follows the code:

- The design description says a request with a reversed date range
  overwrites the export slot with an empty table. In the code, both
  validation failures return before the overwrite at app.py:86. The slot
  keeps its previous rows (`ReversedRangeRejected`, `MissingInputsRejected`).
- The design description says the selected rows come back in ascending date
  order. The code keeps the table's own row order. `SelectAppend` states
  that order. `SelectChronological` shows the selection is ascending only
  when the table is.
- The design description recommends telling "no request yet" apart from
  "the last request produced no rows". The code refuses the download in both
  cases, and so does `Download`.

## Model

| member | source | states |
|---|---|---|
| `Pipeline.Lookup` | app.py:54-60 | The result is a directory row with the requested name. It is absent exactly when no row has that name. |
| `Pipeline.Select` | app.py:62-67 | The selection is no longer than the table. A row is in it exactly when it is in the table with equal latitude, equal longitude and `start <= date <= end`. |
| `Properties.LookupFirst` | app.py:54-60 | When several directory rows share a name, the lookup returns the first of them (`values[0]`). |
| `Properties.SelectAppend` | app.py:62-67 | The filter is stable. Filtering a concatenation gives the two filtered parts in order, so the selection keeps table order. |
| `Properties.SelectIdempotent` | app.py:62-67 | Filtering the selection again with the same arguments returns it unchanged. |
| `Properties.SelectEmpty` | app.py:62-71 | The selection is empty exactly when no table row passes the filter. |
| `Properties.SelectChronological` | app.py:62-67 | If the table is in ascending date order, so is the selection. |
| `Properties.MissingInputsRejected` | app.py:37-39 | No location, or a missing or empty date, gives exactly `[("Error", "Please select locations and both start and end dates.")]`. No model call is made and the slot is unchanged. main.py:32-34 behaves the same. |
| `Properties.ReversedRangeRejected` | app.py:44-46 | A start date after the end date gives exactly `[("Error", "Start date cannot be after end date.")]`. No model call is made and the slot keeps its previous value. main.py:39-41 behaves the same. |
| `Properties.GetResetsSlot` | app.py:85-86 | A GET shows an empty list, calls no model and resets the slot to empty. main.py:73 also shows an empty list. |
| `Properties.ServedOverwritesSlot` | app.py:85-86 | A request that passes validation sets the slot to exactly its collected export rows, whatever it held before. Its display list is the collected entries. |
| `Properties.UnknownLocation` | app.py:53-57 | An unknown name contributes exactly one `(name, "Invalid location.")` entry, no export row and no model call. |
| `Properties.EmptySelection` | app.py:69-71 | A known name with no row in range contributes exactly one `(name, "No data available for this range.")` entry, no export row and no model call. |
| `Properties.MatchingRows` | app.py:73-83 | For N matching rows and N predictions, the model is called once on the N feature vectors in row order. Exactly N entries `("name - date", "value mm")` and N export rows `(name, date, rounded value)` follow in row order. |
| `Properties.HandleAllAppend` | app.py:53-83 | Locations are handled independently and in request order. An invalid name does not stop later names, and a name listed twice is handled twice. |
| `Properties.ForecastNotDiagnostic` | app.py:76-78 | A prediction entry's message ends in "mm", so it never equals any of the four diagnostic messages. |
| `Properties.RequestCounts` | app.py:53-83 | Over a served request, the number of prediction entries equals the number of export rows. There is one invalid-location entry per unknown name and one no-data entry per known name with an empty selection. |
| `Properties.ExportMatchesDisplay` | app.py:37-86 | After any request, the slot holds as many rows as the page shows prediction entries. A rejected request instead shows no prediction and leaves the slot unchanged. |
| `WebApp.App.constructor` | app.py:23-24 | At start-up the export slot is empty. |
| `WebApp.App.Submit` | app.py:26-87 | The returned list and the batches given to the model are those of `Respond`. The slot becomes the collected rows when validation passes (a GET included) and is untouched otherwise. |
| `WebApp.App.PredictLocations` | app.py:53-83 | The loop over the selected names produces the display entries, export rows and model batches of all the names, in request order. |
| `WebApp.App.ZipPredictions` | app.py:76-83 | The loop over `zip(subset, predictions)` appends one entry and one export row per pair, in row order, stopping at the shorter input. |
| `WebApp.App.Download` | app.py:90-94 | The download is refused with `("No prediction data available.", 400)` exactly when the slot is empty. Otherwise it carries the slot's rows. |
| `MainPage.Predict` | main.py:22-73 | The returned list and the batches given to the model are those of `Respond`. No other state exists. |
| `MainPage.PredictLocations` | main.py:48-71 | The loop over the selected names produces the display entries and model batches of all the names, in request order. |
| `MainPage.ZipPredictions` | main.py:70-71 | The loop over `zip(subset, predictions)` appends one entry per pair, in row order, stopping at the shorter input. |

## Left out

- HTTP plumbing is not modelled: routing, `request.form`, `render_template` (and the location-name list it is given) and `send_file`. A request arrives as a `Request` value, and the page is the returned entry list.
- CSV serialisation in the download route (app.py:96-105) is not modelled. `Download` returns the slot's rows; the header `Location,Date,Predicted Rainfall (mm)` and the byte encoding are not modelled.
- Start-up loading is not modelled: reading the CSV files and the model file, parsing the date column, and `sorted(unique)` of the location names (app.py:9-21, main.py:8-20). The tables are given immutable sequences in `Env`.
- Date parsing is not modelled. A date field that is absent and one that is the empty string are both `None`. A date string that `pd.to_datetime` cannot parse raises an exception in the source, and that path is not modelled. Timestamps are whole days, so `dt.date()` is the identity.
- The regressor's internals are not modelled; it is any total function on batches. Only `MatchingRows` assumes it returns one prediction per input row. Elsewhere the model follows Python's `zip` and stops at the shorter of rows and predictions.
- Column selection (`subset[features]`) is not modelled. Each feature row carries its nine model inputs as a vector, already in the fixed column order.
- Floating-point formatting (`f"{pred:.2f}"`) and `round(pred, 2)` are not modelled; they are the functions `Render.amountText` and `Render.round2`. Float equality on coordinates is modelled as equality of reals.
- Two users sharing the global slot at the same time is not modelled. Requests are handled one after another, and the last write wins.
