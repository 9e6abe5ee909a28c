# Radar point and window extraction — a verified model

`funciones.py` reads values of weather-radar fields (reflectivity, RHOHV, ...) from one
sweep of a radar volume around given geographic points. Its discrete core is modelled and
verified here:

- **Nearest gate and ray** (`get_nearest_gate_azimuth`). The point is projected to (x, y)
  metres east and north of the radar. A four-way sign case split turns (x, y) into a
  clockwise-from-north bearing `theta`, and the ray index is `alfa = round(theta)`. The gate
  index is the point's distance beyond the first gate, measured in steps of the spacing
  between the first two gates of ray 0 and rounded. The gate coordinate lookups at `[alfa, gate]` serve as a bounds
  check.
- **Field dictionary and masking** (the first loop of `radar_variable_lat_lon`,
  `radar_variable_window_lat_lon` and `radar_variable_window_lat_lon_list`). Each requested
  field that exists is stored in `field_dict`, but with the mask on only if the RHOHV field
  exists too. Any other requested field is reported and skipped, so with the mask on and no
  RHOHV field every requested field is skipped. With the mask on, a cell is masked exactly
  where RHOHV is below the threshold.
- **Point and 3×3 window extraction.** The point functions read `field_dict[field][alfa, gate]`
  per field. The window functions read nine cells. Window cell `[i][j]` is the field at ray
  `alfa + j - 1` and gate `gate + 1 - i`. Neither path checks bounds, so numpy's negative
  indices wrap to the last ray or gate.
- **Batch extraction** (`radar_variable_window_lat_lon_list`). This is a dictionary with a
  `'datetime'` key plus one key per label of `zip(coords_lst, lat_lst, lon_lst)`.
- **Flattening to a table row** (`create_df_from_radar_windows_vars`). A shape check comes
  first, then one column `<field> [i,j]` per window cell, plus `'t radar[ART]'`.

Modules: `Base` covers Python and numpy behaviour: the exceptions, `round`, and 2-D indexing
with negative indices. `Radar` is the volume as read. `GateAzimuth`, `Extraction`, `Batch` and
`WindowTable` follow the functions above. Python exceptions are modelled as a
`Result` with an `Error` of kind `KeyError`, `IndexError`, `ZeroDivisionError`,
`UnboundLocalError` or `ValueError`. The entry points are methods that take a volume already
read. They return the exception the Python code would raise, or its result. They also return
the list of fields the code reports as not found on the console.

The projection and `math.sqrt`, `math.atan` and `math.degrees` are parameters: the fields of a
`Numerics` value. The only fact assumed about them is the predicate `AtanDegreesInRange`: the
arctangent of a positive ratio, in degrees, lies strictly between 0 and 90. Lemmas that need
this fact take it as a precondition.

Two behaviours of the code are worth stating:

- An unknown field is skipped when `field_dict` is built, but the extraction loop then looks it
  up and raises `KeyError`. So a call returns a result only when every requested field exists.
  It does not carry on with the remaining fields.
- In the batch function, a point whose extraction fails raises out of the whole call. Nothing
  is recorded against that point's label.

## Model

| member | source | states |
|---|---|---|
| Base.Round | funciones.py:60-71 | Python's `round`: the result is within 0.5 of the argument, and a tie goes to the even integer |
| Base.RoundUnique | funciones.py:60-71 | those two properties determine the rounded value uniquely |
| Base.RoundInteger | funciones.py:105 | rounding a whole number returns it |
| Base.NumpyIndex | funciones.py:108-110 | an index into an axis of length n is accepted exactly when -n <= i < n; it then resolves to i mod n |
| Base.At | funciones.py:108-110 | numpy's `g[ray, gate]`; any failure is an IndexError (AtGrid gives the exact condition and the element read) |
| Base.AtGrid | funciones.py:187 | on a rows×cols array, `g[ray, gate]` succeeds exactly when both indices are in numpy's range; it then reads the element at the indices modulo the axis lengths, and otherwise raises IndexError |
| GateAzimuth.Bearing | funciones.py:60-71 | the four-way sign case split into `theta`; no bearing exactly when x = 0 or y = 0 (BearingQuadrants gives each quadrant's range) |
| GateAzimuth.BearingQuadrants | funciones.py:60-71 | given the arctangent range fact, theta is in (0,90), (90,180), (180,270) or (270,360) for the first, second, third and fourth quadrant; no bearing exists exactly when x = 0 or y = 0 |
| GateAzimuth.FirstGateRadii | funciones.py:79-99 | the distances of gates 0 and 1 of ray 0 from the radar; on a well-formed volume they are read exactly when there is a ray and at least two gates, and otherwise IndexError is raised |
| GateAzimuth.GateIndex | funciones.py:102-105 | `round((r - r_first) / (r_second - r_first))`; ZeroDivisionError exactly when the two first gates are equally far from the radar |
| GateAzimuth.GateIndexNearest | funciones.py:99-105 | the gate index fails, with ZeroDivisionError, exactly when the first two gates are equally far from the radar; otherwise its gate centre is within half a spacing of the point's distance |
| GateAzimuth.GateIndexOnGrid | funciones.py:99-105 | a distance of exactly k gate spacings past the first gate gives gate k |
| GateAzimuth.Resolve | funciones.py:50-110 | a resolved (gate, alfa) is a valid index of all three gate coordinate arrays |
| GateAzimuth.ResolveBounds | funciones.py:60-110 | a point resolves only off both axes; alfa is within 0.5 of theta, lies in 0..360 and is a ray of the sweep; gate lies in -gates..gates-1 and is the gate index of the point's distance for the first two gates' radii |
| GateAzimuth.ResolveNearestGate | funciones.py:99-105 | the resolved gate is the nearest gate: its centre is within half a gate spacing of the point's distance |
| GateAzimuth.ResolveOnAxis | funciones.py:60-108 | a point on the x or y axis never resolves; when the first two gates are readable and distinct, the error is UnboundLocalError, from reading `alfa` |
| GateAzimuth.ResolveSeam | funciones.py:60-110 | on a 360-ray sweep, a bearing above 359.5 rounds to alfa = 360 and raises IndexError rather than wrapping to ray 0 |
| Extraction.MaskedWhere | funciones.py:167-168 | the masked array has the data's shape; a cell is masked exactly where RHOHV is below the threshold, and otherwise keeps the data value |
| Extraction.Unmasked | funciones.py:175 | without the mask, every cell keeps its value |
| Extraction.FieldDict | funciones.py:161-177 | `field_dict` holds exactly the requested fields that exist (and, with the mask on, only if RHOHV exists); each holds its masked or plain array |
| Extraction.Unknown | funciones.py:169-177 | the reported fields are exactly the requested fields the lookups do not find |
| Extraction.FieldDictWithoutRhohv | funciones.py:163-170 | with the mask on and no RHOHV field in the volume, `field_dict` is empty and every requested field is reported, existing or not |
| Extraction.BuildFieldDict | funciones.py:161-177 | the loop leaves `field_dict` as FieldDict and reports exactly Unknown |
| Extraction.FieldDictCells | funciones.py:163-177 | every stored array has the sweep's shape; each cell is the field's value, or masked exactly where the mask is on and RHOHV there is below the threshold |
| Extraction.Collect | funciones.py:183-188 | the per-field loop with `append`: all values, one per field, or the first error (CollectPerItem states it in full) |
| Extraction.CollectPerItem | funciones.py:183-188 | the per-field loop yields one value per field in request order exactly when no field fails; otherwise it yields the error of the first field that fails |
| Extraction.CollectPrefixErr | funciones.py:183-188 | once a field fails, later fields do not change the outcome |
| Extraction.ExtractPoints | funciones.py:183-188 | the point loop returns each field's value at (alfa, gate), or the first KeyError or IndexError |
| Extraction.PointsFromVolume | funciones.py:161-188 | a point extraction succeeds only if every requested field exists; each value is then the field's (possibly masked) cell at ray alfa mod rays and gate gate mod gates |
| Extraction.WindowOf | funciones.py:268-276 | the nine reads of one field's window in source order; a result is a 3×3 grid and a failure is an IndexError |
| Extraction.WindowLayout | funciones.py:209-214 | window cell [i][j] is the read at ray alfa+j-1 and gate gate+1-i |
| Extraction.WindowRange | funciones.py:268-276 | the window is read exactly when alfa-1 and alfa+1 are numpy ray indices and gate-1 and gate+1 are numpy gate indices; otherwise IndexError is raised; each cell is the element at those indices modulo the axis lengths |
| Extraction.WindowWraps | funciones.py:268-276 | at alfa = 0 the left column comes from the last ray, and at gate = 0 the bottom row from the last gate |
| Extraction.FillWindow | funciones.py:266-276 | filling the `np.full([3,3], None)` array cell by cell gives the window, or the first read's IndexError |
| Extraction.ExtractWindows | funciones.py:261-278 | the window loop returns one window per field in request order, or the first error |
| Extraction.WindowFromVolume | funciones.py:263-276 | a field's window exists only for a field in the volume; cell [i][j] is then the field's (possibly masked) cell at ray (alfa+j-1) mod rays and gate (gate+1-i) mod gates |
| Extraction.WindowsFromVolume | funciones.py:161-278 | a window extraction succeeds only if every requested field exists; each window then has the layout above, in request order |
| Extraction.VariableLatLon | funciones.py:127-191 | `radar_variable_lat_lon`: a resolution error propagates; otherwise the result is the volume time and the point values at the resolved cell, or the extraction's error; the report lists the missing fields |
| Extraction.WindowLatLon | funciones.py:195-281 | `radar_variable_window_lat_lon`: the same, with the windows |
| Batch.ZipLength | funciones.py:353 | zip yields as many points as the shortest of the three lists |
| Batch.ExtractAtPoint | funciones.py:357-375 | one point's windows: its resolution error, or the windows at its cell |
| Batch.Assemble | funciones.py:350-377 | the result dictionary after the first n points: a successful one has 'datetime' and every label of those points as keys |
| Batch.AssembleAborts | funciones.py:350-377 | the call returns a dictionary exactly when every zipped point succeeds; otherwise it raises the first failing point's error |
| Batch.AssembleKeys | funciones.py:350-377 | the keys are 'datetime' and the labels of the zipped points |
| Batch.AssembleLastWins | funciones.py:377 | a label holds its point's windows unless a later point reuses the label |
| Batch.AssembleDatetime | funciones.py:350-351 | 'datetime' is always present; it holds the volume time unless a point is itself labelled 'datetime' |
| Batch.BatchFromVolume | funciones.py:350-377 | in a successful call, a label not reused later holds one window per requested field, each laid out around that point's resolved cell in terms of the volume |
| Batch.WindowLatLonList | funciones.py:285-380 | the loop over zipped points builds the assembled dictionary, or raises the first failing point's error; the report lists the missing fields |
| WindowTable.ColumnName | funciones.py:427 | `field + ' [' + str(i) + ',' + str(j) + ']'`: six characters longer than the field name, which it starts with |
| WindowTable.ColumnNameInjective | funciones.py:427 | different (field, i, j) give different column names |
| WindowTable.ColumnNameNotTime | funciones.py:427-431 | no cell column is named 't radar[ART]' |
| WindowTable.FieldColumns | funciones.py:425-427 | `data` after the first c turns of one field's i/j double loop (FieldColumnsKeys, FieldColumnsCell and FieldColumnsOther characterise it) |
| WindowTable.FieldColumnsKeys | funciones.py:425-427 | the double loop for one field adds exactly that field's nine cell columns |
| WindowTable.FieldColumnsCell | funciones.py:425-427 | each of the field's columns holds its cell of the window |
| WindowTable.FieldColumnsOther | funciones.py:425-427 | every other column is left as it was |
| WindowTable.WriteFieldColumns | funciones.py:425-427 | the i/j double loop for one field leaves `data` as FieldColumns after all nine turns |
| WindowTable.Columns | funciones.py:419-428 | `data` after the loop over the first n fields with the counter k (ColumnsKeys and ColumnsCell characterise it) |
| WindowTable.ColumnsKeys | funciones.py:419-428 | after the loop over fields, the columns are exactly the nine cell columns of each field |
| WindowTable.ColumnsCell | funciones.py:419-428 | column `<fields[k]> [i,j]` holds cell [i,j] of `var[k]`, unless a later field has the same name |
| WindowTable.Table | funciones.py:408-431 | the whole call: ValueError for an element that is not 3×3, IndexError for more fields than windows, otherwise the row (TableKeys and TableCells characterise it) |
| WindowTable.TableKeys | funciones.py:419-431 | a successful call's row has 't radar[ART]' holding the time, plus exactly the cell columns of the requested fields |
| WindowTable.TableCells | funciones.py:419-431 | in a successful call, `<fields[k]> [i,j]` holds `var[k][i,j]`; for a repeated field name, the last one wins |
| WindowTable.CreateTable | funciones.py:408-431 | any element that is not 3×3 raises ValueError; more fields than windows raises IndexError; otherwise the result is the row above |

## Left out

- Reading the volume file (`pyart.io.read`) is not modelled. The entry points take a `Volume`
  already read, with fields as grids of reals. Cells already masked in the file are not
  modelled.
- The timestamp: the slice of `radar.time['units']` and `datetime.strptime` are library
  parsing. The volume carries its time already parsed.
- The azimuthal-equidistant projection (`pyart.core.geographic_to_cartesian_aeqd`),
  `math.sqrt`, `math.atan` and `math.degrees` are foreign numerics. They are uninterpreted
  parameters. Floating-point rounding of the arithmetic around them is not modelled: reals
  are exact.
- The ray index equals the rounded bearing because the code assumes ray i points at i degrees.
  The model follows that assumption and does not relate rays to the volume's azimuth table.
- The gate latitude, longitude and altitude read at `[alfa, gate]` are only a bounds check
  here. Their values and the `verbose` prints are not modelled, and neither is `r_km`.
- The console messages for unknown fields are returned as the list `missing`, not printed.
  The text of the message and the list of available fields are not modelled.
- The keyword defaults of the entry points (`rhohv_field='RHOHV'`, `rhohv_threshold=0.8`,
  `mask=False`, and `verbose=False` of `get_nearest_gate_azimuth`) are not modelled. The
  RHOHV field name, the threshold and the mask flag are explicit parameters, and `verbose` is
  dropped with its prints.
- Batch.WindowLatLonList: the result is a map, so the insertion order of the Python dict
  (`'datetime'` first, then the labels in first-insertion order) is not modelled.
- Fields given as a single string (iterated character by character in Python) are not
  modelled: `fields` is always a sequence of names.
- The pandas `DataFrame`, `set_index` and the column order of the frame are not modelled.
  The row is a map from column name to value, and each value is its single cell rather than
  a one-element list. pandas' own errors are not modelled either, such as the frame of a call
  with no fields, which has only scalar values.
- WindowTable.CreateTable: the elements of `var` are always 2-D arrays of cells. An element
  with no `.shape` also raises ValueError in Python, but such elements cannot occur in the
  model.
- `db_to_linear`, `linear_to_db`, `calculate_R_from_Z_R` and `calculate_R_from_Z_ZDR_R` are
  floating-point power and logarithm formulas with no discrete logic.
- `lat_lon_to_range_azimuth` is a wrapper over the pyproj WGS84 geodesic solver with a fixed
  site. Its azimuth fold is not modelled.
