# Energy-System-Planning in Dafny

A model of the planning core of Energy-System-Planning, with proofs about it. The web application takes a graph of energy nodes (producers, consumers, batteries, junctions) and slider settings for the producers' installed capacities. It turns these into a linear-programme data file, solves the programme, and shapes the results for a heatmap and for charts. With auto-simulation on, it sweeps two selected sliders over a 6×6 grid of values. The browser keeps every result in a tensor nested once per producer and indexed by slider values.

The model follows the program's own modules:

| file | module | models |
|---|---|---|
| `wrappers.dfy` | `Wrappers` | `Option` and `Result`, and small sequence lemmas |
| `text.dfy` | `Text` | string helpers: lower-casing, decimal rendering of integers, `split`/`join`, line joining, decimal rounding, the `:.6f` format |
| `node_types.dfy` | `NodeTypes` | the entity records `Producer`, `Consumer`, `Battery` and `Timesteps`, with their attributes and role flags |
| `scenario.dfy` | `ScenarioTranslation` | slider data, slider-to-capacity scaling, profile selection and normalisation, node validation and construction, heatmap value, plot rows |
| `model_input.dfy` | `ModelInput` | the in-place solver-input tables `ModelSet`, `ModelParam` and `OptNetworkInput`, their population from the entity list, and the exact text written for the solver |
| `formulation.dfy` | `Formulation` | the optimisation programme as a feasibility predicate over a given assignment; the derived sets `Ug`, `Uc`, `Us` and `UgRE`; the cyclic storage predecessor |
| `response_processing.dfy` | `ResponseProcessing` | request dispatch, the 6×6 sweep with best-point tracking, one cell's chart grouping, extraction of JSON items by filter |
| `data_values.dfy` | `DataValues` | the frontend result store: path-addressed get, update, insert and extract on the nested tensor |

The solver is not modelled. `Formulation.Feasible(d, a, fixCapacities)` says when an assignment `a` satisfies every constraint rule. The sweep takes solving one cell as a function parameter `solve`, which yields TOTEX, EnergySupTot, UnmetDemand and the chart rows. File contents are inputs: profile files, the timestep index file and the technology defaults sheet. Python float rendering is a function parameter `repr`. Rounding to 4 and 6 decimals rounds half away from zero on exact reals.

Two predicates carry no contract of their own and so have no row below. They are `DataValues.DataStore.IsSelectedFirst` and `IsSelectedSecond` (frontend/src/assets/stores/dataValues.js:24-30). Each holds exactly when a selection exists and the id equals its first or second element.

## Model

| member | source | states |
|---|---|---|
| NodeTypes.ProducerAttributes | backend/graph_to_scenario/node_types.py:59-67 | a Producer returns each of its eight constructor arguments unchanged under its attribute name; `is_producer` is 1; it is the only role flag |
| NodeTypes.ConsumerAttributes | backend/graph_to_scenario/node_types.py:122-126 | a Consumer returns id, technology, yearly demand and demand profile unchanged; `is_consumer` is 1; it is the only role flag |
| NodeTypes.BatteryAttributes | backend/graph_to_scenario/node_types.py:179-183 | a Battery returns id, technology, `energy_capacity` and `installed_capacity` unchanged; `is_storage` is 1; it is the only role flag |
| NodeTypes.TimestepsAttributes | backend/graph_to_scenario/node_types.py:212-221 | the Timesteps marker keeps its list unchanged in `timesteps` and has no role flag |
| NodeTypes.ExactlyOneRole | backend/graph_to_scenario/node_types.py:59-183 | every node entity has exactly one role flag, so none is both producer and consumer |
| Text.Lower | backend/graph_to_scenario/scenario.py:214 | `str.lower` lower-cases character by character: ASCII, Latin-1, Latin Extended-A and basic Cyrillic capitals map to their small letters |
| Text.LowerExamples | backend/graph_to_scenario/scenario.py:219 | a label such as `Ölkessel` lower-cases to `ölkessel`, the key the defaults table is built with |
| Text.LowerIdempotent | backend/graph_to_scenario/scenario.py:214 | lower-casing a lower-cased string changes nothing |
| Text.IntToString | backend/graph_to_scenario/model_input.py:59 | `str(i)` is non-empty: digits for a non-negative integer, a leading minus sign otherwise |
| Text.DigitsValueOfNat | backend/graph_to_scenario/model_input.py:102 | the decimal digits written for a natural number read back as that number |
| Text.ParseIntOfString | backend/graph_to_scenario/model_input.py:102 | `int(str(i)) == i` for every integer, so integer columns sort by their value |
| Text.Split | backend/graph_to_scenario/model_input.py:97 | `split` always yields at least one part |
| Text.SplitJoin | backend/graph_to_scenario/model_input.py:59-60 | splitting a joined key at the separator gives back the parts, if no part contains the separator |
| Text.SplitUnlines | backend/graph_to_scenario/model_input.py:23-30 | text written line by line splits at newlines back into its lines and a final empty string |
| Text.Round6 | backend/graph_to_scenario/scenario.py:428 | rounding to six decimals moves a value by at most 0.0000005 |
| Text.Round4 | backend/graph_to_scenario/scenario.py:107 | rounding to four decimals moves a value by at most 0.00005 |
| Text.Fixed6Chars | backend/graph_to_scenario/model_input.py:111 | the `:.6f` text holds only digits, a minus sign and the decimal point |
| Text.Fixed6OfZero | backend/graph_to_scenario/model_input.py:111 | a missing table cell is written `0.000000` |
| ScenarioTranslation.Prefixed | backend/graph_to_scenario/scenario.py:321-323 | `modified_slider_values` is `prodCapacities` entry by entry, with `node_` before each id |
| ScenarioTranslation.LastIndex | backend/graph_to_scenario/scenario.py:352-354 | the position the slider loop settles on carries the id, and no later entry does: the last match wins |
| ScenarioTranslation.PrefixedLookup | backend/graph_to_scenario/scenario.py:321-354 | looking up `node_` + id among the prefixed entries finds the slider value stored for id |
| ScenarioTranslation.PrefixInjective | backend/graph_to_scenario/scenario.py:322 | two prefixed ids are equal exactly when the ids are |
| ScenarioTranslation.SliderScale | backend/graph_to_scenario/scenario.py:350-366 | installed capacity is max_installed_capacity/5 times the slider value: slider 0 gives 0 and slider 5 gives the maximum |
| ScenarioTranslation.SelectRowsAsWrittenAcceptsZero | backend/graph_to_scenario/scenario.py:408-410 | index 0 selects the last row as written, while the corrected selection refuses it |
| ScenarioTranslation.SelectRows | backend/graph_to_scenario/scenario.py:408-410 | succeeds exactly when every index lies in 1..len; then entry k is `data[indices[k]-1]` and there is one entry per index |
| ScenarioTranslation.SelectRowsAgree | backend/graph_to_scenario/scenario.py:408-410 | on in-range indices the written selection and the corrected one agree |
| ScenarioTranslation.Divided | backend/graph_to_scenario/scenario.py:418 | each value divided by the sum, one entry per value |
| ScenarioTranslation.SumDivided | backend/graph_to_scenario/scenario.py:415-418 | the divided values sum to the sum divided |
| ScenarioTranslation.NormalisedSumsToOne | backend/graph_to_scenario/scenario.py:413-418 | normalisation is refused exactly when the sum is zero, and otherwise sums to exactly 1 |
| ScenarioTranslation.Rounded6 | backend/graph_to_scenario/scenario.py:428 | each value rounded to six decimals, one entry per value |
| ScenarioTranslation.Rounded6SumClose | backend/graph_to_scenario/scenario.py:428 | rounding n values moves their sum by at most n·0.0000005 |
| ScenarioTranslation.ProfileRejected | backend/graph_to_scenario/scenario.py:386-425 | an empty or NaN name, or a kind other than demand/availability, yields `[]`; an empty or NaN name also leaves the timestep list alone |
| ScenarioTranslation.ProfileOverwritesTimesteps | backend/graph_to_scenario/scenario.py:403-405 | once both files are read, the timestep list is the index list, even if selection or normalisation then fails |
| ScenarioTranslation.AvailabilityProfile | backend/graph_to_scenario/scenario.py:407-430 | availability values pass through selection unnormalised, only rounded; with the corrected selection, an index outside 1..len yields `[]` |
| ScenarioTranslation.DemandProfile | backend/graph_to_scenario/scenario.py:413-430 | demand entry k is the selected row divided by the sum of the selection, rounded, one entry per index |
| ScenarioTranslation.DemandProfileSum | backend/graph_to_scenario/scenario.py:413-430 | the returned demand profile sums to 1 within n·0.0000005 |
| ScenarioTranslation.DemandProfileZeroSum | backend/graph_to_scenario/scenario.py:415-417 | a selection summing to zero yields `[]` instead of a division |
| ScenarioTranslation.DemandValues | backend/graph_to_scenario/scenario.py:413-418 | the demand result is `[]` for a zero sum, and the rounded normalised selection otherwise |
| ScenarioTranslation.NodeEntities | backend/graph_to_scenario/scenario.py:245-281 | a valid node type yields one entity of that kind, a junction none; each carries the node's id and label |
| ScenarioTranslation.BuildStep | backend/graph_to_scenario/scenario.py:204-281 | while nothing has aborted, one more node appends its entities and takes the step's timestep list and abort state |
| ScenarioTranslation.AcceptedCount | backend/graph_to_scenario/scenario.py:209-222 | all nodes before the count pass the key, type and defaults checks; the node at the count fails one |
| ScenarioTranslation.BuildAccepted | backend/graph_to_scenario/scenario.py:204-284 | when every node passes, nothing aborts and the entity kinds are the node types without the junctions |
| ScenarioTranslation.BuildStopsAtRejected | backend/graph_to_scenario/scenario.py:204-286 | the first rejected node aborts, and only the nodes before it contribute entities |
| ScenarioTranslation.BuildKeepsAbort | backend/graph_to_scenario/scenario.py:285-286 | once aborted, later nodes change nothing |
| ScenarioTranslation.GraphTranslation | backend/graph_to_scenario/scenario.py:204-286 | entity kinds follow the accepted prefix; the build aborts exactly when some node is rejected; the Timesteps marker is appended only without an abort |
| ScenarioTranslation.Scenario.constructor | backend/graph_to_scenario/scenario.py:154-171 | a new scenario has empty nodes, timesteps and slider lists, both declared flags false, and no `autoSimulate_flag` attribute yet |
| ScenarioTranslation.Scenario.GetSliderData | backend/graph_to_scenario/scenario.py:313-323 | stores `reset` in `reset_flag` and `autoSimulate` in the new attribute `autoSimulate_flag`, leaving the declared `auto_simulate_flag` as it was; stores `prodCapacities` unchanged and the prefixed slider list; nodes and timesteps are untouched |
| ScenarioTranslation.Scenario.InstalledCapacityAdjuster | backend/graph_to_scenario/scenario.py:334-373 | loops over the sliders keeping the last match; returns the scaled capacity, 0 when the technology default or the slider is missing, NaN when the maximum is NaN |
| ScenarioTranslation.Scenario.ProcessProfile | backend/graph_to_scenario/scenario.py:375-440 | returns the selected profile and updates the timestep list exactly as `ProcessProfileSpec` says, which uses the corrected row selection |
| ScenarioTranslation.Scenario.ProcessNode | backend/graph_to_scenario/scenario.py:209-281 | appends one node's entities and reports whether it was rejected |
| ScenarioTranslation.Scenario.VisitNode | backend/graph_to_scenario/scenario.py:206-281 | one loop iteration extends the built prefix by one node |
| ScenarioTranslation.Scenario.ProcessGraphData | backend/graph_to_scenario/scenario.py:194-286 | appends exactly the entities of the graph translation, with the marker only if nothing aborted |
| ScenarioTranslation.HeatmapThreshold | backend/graph_to_scenario/scenario.py:94-109 | the value is infinite exactly when unmet demand is at least 0.1; otherwise it is TOTEX/EnergySupTot within rounding |
| ScenarioTranslation.HeatmapExamples | backend/graph_to_scenario/scenario.py:104-109 | 100/50 with unmet demand 0.05 gives 2.0; with 0.2 it gives infinity |
| ScenarioTranslation.Tagged | backend/graph_to_scenario/scenario.py:63-81 | each variable row keeps its fields and gets the block's stack order and type |
| ScenarioTranslation.PlotRowsTagged | backend/graph_to_scenario/scenario.py:57-86 | rows come in the order Pg (1, Supply), Pd (−1, Demand), nSPg (100, Supply), nSPd (−100, Demand); the count is the sum of the four |
| ScenarioTranslation.PlotRowsKinds | backend/graph_to_scenario/scenario.py:63-84 | a plot row is Supply exactly when its order is positive |
| ModelInput.KeyStringRoundTrip | backend/graph_to_scenario/model_input.py:59-60 | a space-joined key splits back into its parts |
| ModelInput.KeyStringInjective | backend/graph_to_scenario/model_input.py:59-60 | two keys join to the same string exactly when their parts are the same |
| ModelInput.Dict.Put | backend/graph_to_scenario/model_input.py:60 | a dict write maps the key to the new value; a new key goes last and an existing key keeps its place |
| ModelInput.ModelSet.constructor | backend/graph_to_scenario/model_input.py:18-21 | a set gets its name and dimension and no elements |
| ModelInput.ModelSet.Write | backend/graph_to_scenario/model_input.py:23-30 | returns the set text: header, one line per element, then `; ` |
| ModelInput.SetTextLines | backend/graph_to_scenario/model_input.py:23-30 | the set text splits into `set NAME := `, one line per element and `; ` |
| ModelInput.ElementLineParts | backend/graph_to_scenario/model_input.py:26-29 | a tuple element line splits back into its components; a dim-1 element is its text and a space |
| ModelInput.RowsOf | backend/graph_to_scenario/model_input.py:97-98 | one row label per key, its first space-separated part |
| ModelInput.ColsOf | backend/graph_to_scenario/model_input.py:97-99 | succeeds exactly when every key has a second part, which is its column label |
| ModelInput.Distinct | backend/graph_to_scenario/model_input.py:98-99 | `list(set(...))` holds the same elements without repetition |
| ModelInput.SortByIntSorted | backend/graph_to_scenario/model_input.py:100-104 | sorting by integer value yields a sorted permutation |
| ModelInput.InsertByIntSorted | backend/graph_to_scenario/model_input.py:100-104 | inserting into a sorted column list keeps it sorted and adds exactly the one column |
| ModelInput.OrderColumnsSorted | backend/graph_to_scenario/model_input.py:100-104 | all-integer columns come out as a sorted permutation; otherwise their order is kept |
| ModelInput.RowCells | backend/graph_to_scenario/model_input.py:109-111 | one cell per column, the text of entry `row col` |
| ModelInput.RowLines | backend/graph_to_scenario/model_input.py:107-112 | one table line per row label |
| ModelInput.SetNames | backend/graph_to_scenario/model_input.py:47-49 | a parameter's set names are its sets' names, in order |
| ModelInput.ModelParam.constructor | backend/graph_to_scenario/model_input.py:40-51 | `dim` is the sum of the sets' dimensions; set names and scaling factor are stored; the values are empty |
| ModelInput.ModelParam.IsKeyValid | backend/graph_to_scenario/model_input.py:62-75 | a key is accepted exactly when its length, after wrapping a scalar into a list, equals `dim` |
| ModelInput.ModelParam.AddValue | backend/graph_to_scenario/model_input.py:53-60 | dim 0 replaces the scalar with value·sf; otherwise a valid key stores value·sf under the joined key and overwrites it; a bad key changes nothing |
| ModelInput.ModelParam.Write | backend/graph_to_scenario/model_input.py:77-117 | returns the parameter text and whether it raised, as the parameter-text specification says |
| ModelInput.ModelParam.WriteDim1 | backend/graph_to_scenario/model_input.py:86-91 | the dim-1 body has one line per non-NaN value, in key order |
| ModelInput.ModelParam.WriteTable | backend/graph_to_scenario/model_input.py:93-112 | the dim-2 body is one line per row label |
| ModelInput.ModelParam.WriteRow | backend/graph_to_scenario/model_input.py:108-112 | a table line is the row label and then one cell per column |
| ModelInput.ParamTextCases | backend/graph_to_scenario/model_input.py:77-117 | falsy values write nothing; dim ≥ 3 has written `param NAME` when it raises; a dim-2 key without a second part raises; it raises in exactly those cases |
| ModelInput.Dim1Members | backend/graph_to_scenario/model_input.py:89-91 | a dim-1 line exists for every non-NaN entry, and every line is such an entry |
| ModelInput.Dim1Entries | backend/graph_to_scenario/model_input.py:89-91 | in key order, a line `key value` exists for each non-NaN entry and every line comes from one |
| ModelInput.Dim1Shape | backend/graph_to_scenario/model_input.py:81-91 | dim-1 text is the header `param NAME := `, the value lines and `;` followed by a blank line |
| ModelInput.Dim1Text | backend/graph_to_scenario/model_input.py:81-91 | dim-1 text splits into `param NAME := `, the value lines and `;` |
| ModelInput.CellTextFree | backend/graph_to_scenario/model_input.py:111 | a table cell has no space or newline; a missing cell is `0.000000` |
| ModelInput.TableCell | backend/graph_to_scenario/model_input.py:97-111 | every stored entry's row and column appear exactly once, and its cell shows its value with six decimals |
| ModelInput.TableShape | backend/graph_to_scenario/model_input.py:93-117 | dim-2 text is the header with the ordered columns, one line per distinct row and `;` followed by a blank line |
| ModelInput.TableText | backend/graph_to_scenario/model_input.py:93-117 | dim-2 text splits into the column header, one line per row and `;` |
| ModelInput.SetIndex | backend/graph_to_scenario/model_input.py:150-154 | `get_set` finds the first set with the name, or none exists |
| ModelInput.ParamIndex | backend/graph_to_scenario/model_input.py:156-160 | `get_param` finds the first parameter with the name, or none exists |
| ModelInput.NamesIndexedBy | backend/graph_to_scenario/model_input.py:212-221 | exactly the names of the parameters whose set-name list equals the argument, without repetition |
| ModelInput.ProfileEntries | backend/graph_to_scenario/model_input.py:290-291 | the k-th profile value (0-based) is stored under `tech k+1` |
| ModelInput.OptNetworkInput.constructor | backend/graph_to_scenario/model_input.py:224-252 | declares the sets T, N, H, U and the twelve parameters, all empty |
| ModelInput.OptNetworkInput.GetItem | backend/graph_to_scenario/model_input.py:162-170 | sets are looked up before parameters; an unknown name is an error exactly when no set or parameter has it |
| ModelInput.OptNetworkInput.ParamLookup | backend/graph_to_scenario/model_input.py:156-166 | looking up a declared parameter's name returns that parameter |
| ModelInput.OptNetworkInput.ParamGroups | backend/graph_to_scenario/model_input.py:235-248 | the parameters indexed by H, by (H, T) and by (H, N), each group in declaration order |
| ModelInput.OptNetworkInput.ParamNamesIndexedBy | backend/graph_to_scenario/model_input.py:212-221 | exactly the parameters whose set list is the argument |
| ModelInput.OptNetworkInput.ParamNamesDistinct | backend/graph_to_scenario/model_input.py:235-248 | the declared parameter names are distinct |
| ModelInput.OptNetworkInput.GroupMembers | backend/graph_to_scenario/model_input.py:219 | a parameter is in a group's name list exactly when its set list is that group |
| ModelInput.OptNetworkInput.LookupNamed | backend/graph_to_scenario/model_input.py:281-284 | the j-th name of a group is found by `get_item` as a parameter of that group, with scaling 1, and no other parameter shares it |
| ModelInput.OptNetworkInput.Populate | backend/graph_to_scenario/model_input.py:256-303 | every parameter gets its items' entries; T is 1..len(timesteps) only with a marker; N, H, U are the distinct ids, technologies and pairs |
| ModelInput.OptNetworkInput.Collect | backend/graph_to_scenario/model_input.py:265-297 | the item loop fills every parameter and collects the node, technology and pair elements in order |
| ModelInput.OptNetworkInput.PopulateStep | backend/graph_to_scenario/model_input.py:265-297 | one iteration extends the filled prefix and its collected elements by one item |
| ModelInput.OptNetworkInput.StoreElems | backend/graph_to_scenario/model_input.py:300-303 | N, H and U get the collected elements and T is untouched |
| ModelInput.OptNetworkInput.Visit | backend/graph_to_scenario/model_input.py:265-297 | one item sets T if it is the marker, and otherwise adds its entries to every parameter |
| ModelInput.OptNetworkInput.AddGroup | backend/graph_to_scenario/model_input.py:281-297 | one group's parameters get the item's entries; the other parameters are untouched |
| ModelInput.OptNetworkInput.AddNamed | backend/graph_to_scenario/model_input.py:282-284 | one more parameter of the group receives the item's entries |
| ModelInput.OptNetworkInput.Write | backend/graph_to_scenario/model_input.py:188-192 | the file text is the sets' text, then the parameters' text up to the first one that raises |
| ModelInput.OptNetworkInput.WriteSets | backend/graph_to_scenario/model_input.py:189-190 | all set texts, in declaration order |
| ModelInput.OptNetworkInput.WriteParams | backend/graph_to_scenario/model_input.py:191-192 | the parameter texts in order, stopping at the first raise |
| ModelInput.AddByTech | backend/graph_to_scenario/model_input.py:281-284 | an H parameter stores the attribute under the technology |
| ModelInput.AddByTechTime | backend/graph_to_scenario/model_input.py:287-291 | an (H, T) parameter stores each profile value under `tech t+1` |
| ModelInput.AddByTechNode | backend/graph_to_scenario/model_input.py:294-297 | an (H, N) parameter stores the attribute under `tech node_id` |
| ModelInput.AddAttribute | backend/graph_to_scenario/model_input.py:283-284 | a parameter gets exactly the item's entries for its group; its scalar is unchanged |
| ModelInput.AddProfile | backend/graph_to_scenario/model_input.py:290-291 | the profile loop writes value k under `tech k+1`, in order |
| ModelInput.ItemEntriesOf | backend/graph_to_scenario/model_input.py:280-297 | a missing attribute adds no entry; otherwise the entries are keyed as the parameter's group demands |
| ModelInput.NewSets | backend/graph_to_scenario/model_input.py:229-232 | four distinct empty sets T, N, H (dim 1) and U (dim 2) |
| ModelInput.NewParams | backend/graph_to_scenario/model_input.py:235-251 | twelve distinct empty parameters, with the declared set lists and dimensions |
| ModelInput.NewParam | backend/graph_to_scenario/model_input.py:177-180 | a fresh empty parameter with the q-th declared name, set list and dimension |
| ModelInput.ResolveSets | backend/graph_to_scenario/model_input.py:236-247 | looking up set names yields sets with those names, of total dimension one per name |
| ModelInput.FilledEntries | backend/graph_to_scenario/model_input.py:265-297 | the filled dict is the start dict with all entries of all items applied in order |
| ModelInput.FilledStep | backend/graph_to_scenario/model_input.py:265-297 | the next item applies its entries on top of the previous items' result |
| ModelInput.FilledValid | backend/graph_to_scenario/model_input.py:281-297 | filling keeps a dict's keys and values consistent |
| ModelInput.ElemsStep | backend/graph_to_scenario/model_input.py:272-278 | a non-marker item adds its id, technology and pair when new; the marker adds nothing |
| ModelInput.NamesDistinct | backend/graph_to_scenario/model_input.py:229-248 | parameter names are distinct and differ from every set name |
| ModelInput.ParamsTextAfterFailure | backend/graph_to_scenario/model_input.py:114-115 | nothing is written after the first parameter that raises |
| ModelInput.MarkerStep | backend/graph_to_scenario/model_input.py:267-270 | a marker is seen up to item i exactly when it was seen before i or item i is one |
| ModelInput.ApplyAllValues | backend/graph_to_scenario/model_input.py:60 | after a sequence of writes a key holds its last write, or its old value if it was never written |
| ModelInput.ApplyAllKeys | backend/graph_to_scenario/model_input.py:60 | writes keep the old keys in their order at the front |
| ModelInput.LastWriteAppend | backend/graph_to_scenario/model_input.py:60 | the last write to a key in a+b comes from b if b writes it, else from a |
| ModelInput.ProfileStored | backend/graph_to_scenario/model_input.py:290-291 | the last write under `tech k+1` is profile value k |
| ModelInput.MissingAttribute | backend/graph_to_scenario/model_input.py:283 | an item without the attribute leaves the parameter's dict unchanged |
| ModelInput.NodeValueStored | backend/graph_to_scenario/model_input.py:294-297 | an item's (H, N) attribute is the last value written under `tech node_id` |
| ModelInput.NodeMembers | backend/graph_to_scenario/model_input.py:272-274 | node elements are exactly the non-marker items' ids |
| ModelInput.TechMembers | backend/graph_to_scenario/model_input.py:273-275 | technology elements are exactly the non-marker items' technologies |
| ModelInput.PairMembers | backend/graph_to_scenario/model_input.py:278 | pair elements are exactly the non-marker items' (technology, id) pairs |
| ModelInput.ElemsMembers | backend/graph_to_scenario/model_input.py:272-303 | N, H and U hold exactly the ids, technologies and pairs of the non-marker items |
| ModelInput.PairsWithin | backend/graph_to_scenario/model_input.py:278 | every U pair is a technology of H and a node of N, so U ⊆ H×N |
| ModelInput.DeclaredByTech | backend/graph_to_scenario/model_input.py:235-248 | the eight H-indexed parameters in declaration order |
| ModelInput.DeclaredByTechTime | backend/graph_to_scenario/model_input.py:239-245 | the (H, T) parameters are demand_profile and availability_profile |
| ModelInput.DeclaredByTechNode | backend/graph_to_scenario/model_input.py:246-247 | the (H, N) parameters are installed_capacity and energy_capacity |
| Formulation.Filter | backend/graph_to_scenario/model.py:54-71 | a filter of U by a flag that defaults to 0: holds exactly the flagged units, is no longer than U, and has no repeats when U has none |
| Formulation.Ug | backend/graph_to_scenario/model.py:54-56 | Ug is U filtered by `is_producer` |
| Formulation.Uc | backend/graph_to_scenario/model.py:58-61 | Uc is U filtered by `is_consumer` |
| Formulation.Us | backend/graph_to_scenario/model.py:63-66 | Us is U filtered by `is_storage` |
| Formulation.UgRE | backend/graph_to_scenario/model.py:68-71 | UgRE is Ug filtered by `record_curtailment`, so UgRE ⊆ Ug ⊆ U |
| Formulation.RolesDisjoint | backend/graph_to_scenario/model.py:54-66 | with one role per technology, Ug, Uc and Us are pairwise disjoint |
| Formulation.Range | backend/graph_to_scenario/model_input.py:269 | T is 1..n |
| Formulation.PredOfRange | backend/graph_to_scenario/model.py:193-197 | the predecessor of the first timestep is the last; of any other it is t−1; it is a bijection on T |
| Formulation.TotalCost | backend/graph_to_scenario/model.py:109-119 | TOTEX = CAPEX + OPEX + 1e6·UnmetDemand, from the penalty over Uc×T |
| Formulation.InjectionSplit | backend/graph_to_scenario/model.py:146-158 | net injections summed over nodes are generation minus consumption summed over those nodes |
| Formulation.SumUTScaled | backend/graph_to_scenario/model.py:131-142 | a sum scaled by a constant factor, such as the year factor, is that factor times the sum |
| Formulation.SumTScaled | backend/graph_to_scenario/model.py:131-142 | a per-unit sum over time scaled by a constant is that constant times the sum |
| Formulation.SupplyMeetsConsumption | backend/graph_to_scenario/model.py:146-158 | at each timestep, generation summed over Ug and all nodes equals consumption summed over Uc and all nodes |
| Formulation.StorageSums | backend/graph_to_scenario/model.py:193-197 | summing the storage balance over timesteps relates level, previous level, charge and discharge |
| Formulation.StorageCycle | backend/graph_to_scenario/model.py:193-198 | over a cyclic horizon a storage unit charges as much as it discharges |
| Formulation.AvailabilityBound | backend/graph_to_scenario/model.py:233-238 | on UgRE, generation is at most capacity times availability (default 1) |
| Formulation.DemandBound | backend/graph_to_scenario/model.py:210-222 | on Uc, where a profile entry exists, consumption is at most the profiled demand |
| Formulation.CurtailmentFacts | backend/graph_to_scenario/model.py:233-238 | curtailed generation is non-negative and completes generation to capacity times availability |
| Formulation.UnmetFacts | backend/graph_to_scenario/model.py:210-222 | unmet demand is non-negative and completes consumption to the profiled demand |
| Formulation.FixedCapacities | backend/graph_to_scenario/model.py:173-184 | with fixed capacities Cg is installed_capacity and Ecap is energy_capacity (default 0); CAPEX is then fixed by the data |
| Formulation.FixedCapex | backend/graph_to_scenario/model.py:121-129 | CAPEX is Σ over Ug of installed capacity·capacity_cost/lifetime |
| ResponseProcessing.Iterate | backend/home/response_processing_new.py:211-215 | `for item in items` visits a list's elements, a string's one-character strings, a dict's keys in first-read order; null, a bool or a number is not iterable |
| ResponseProcessing.FilterItems | backend/home/response_processing_new.py:210-219 | holds exactly the items that match every filter, equality being Python's `==`; an item that is not an object fails a non-empty filter (no `.get`) |
| ResponseProcessing.PyEqReflexive | backend/home/response_processing_new.py:216 | the Python `==` the filters use holds between any decoded value and itself |
| ResponseProcessing.PythonEquality | backend/home/response_processing_new.py:211-216 | `True == 1`, `False != 1`, dicts compare regardless of key order, so a filter on `1` passes a record holding `true`; a string under the key is iterated character by character |
| ResponseProcessing.FilterAppend | backend/home/response_processing_new.py:215-217 | filtering keeps the input order: filtering a concatenation concatenates the filtered parts |
| ResponseProcessing.FilterNone | backend/home/response_processing_new.py:214-217 | with no filters every item is returned |
| ResponseProcessing.ExtractCases | backend/home/response_processing_new.py:201-219 | a missing key gives `[]`; `heatmap` gives the raw value; null, a bool or a number under any other key fails as not iterable; a list, string or dict with no filters gives every element, character or key; with filters it fails exactly when a visited item is not a dict, and otherwise gives exactly the visited items matching all filters |
| ResponseProcessing.HeatmapJson | backend/home/response_processing_new.py:65-67 | the heatmap becomes the string `"inf"` exactly when it is infinite |
| ResponseProcessing.MatrixValueThreshold | backend/home/response_processing_new.py:65-67 | a cell shows `"inf"` exactly when unmet demand is at least 0.1, and a number close to TOTEX/EnergySupTot otherwise |
| ResponseProcessing.Suffix | backend/home/response_processing_new.py:109 | `id[5:]` is what follows the first five characters, or empty for a shorter id |
| ResponseProcessing.CopySign | backend/home/response_processing_new.py:119 | keeps the magnitude and takes the sign of `Order` |
| ResponseProcessing.MaxT | backend/home/response_processing_new.py:104 | `timestep` is the maximum T over the bar records |
| ResponseProcessing.LinesOf | backend/home/response_processing_new.py:122-130 | a battery's line data is exactly the line records of its node suffix |
| ResponseProcessing.BarsFor | backend/home/response_processing_new.py:111-119 | a group holds the sign-flipped bar records with that node suffix and order |
| ResponseProcessing.NodeBarsLookup | backend/home/response_processing_new.py:111-119 | one node's pass appends its matching records to its own groups and leaves the others alone |
| ResponseProcessing.AddBarLookup | backend/home/response_processing_new.py:113-119 | one record appends its sign-flipped copy to its own group only |
| ResponseProcessing.AddBarNonEmpty | backend/home/response_processing_new.py:113-118 | adding a record never leaves an empty group |
| ResponseProcessing.NodeBarsNonEmpty | backend/home/response_processing_new.py:113-118 | one node's pass never leaves an empty group |
| ResponseProcessing.ChartsFailure | backend/home/response_processing_new.py:106-109 | the grouping fails exactly when some non-junction node has no id |
| ResponseProcessing.ChartsFailureKept | backend/home/response_processing_new.py:106-112 | once a node fails, the later nodes do not change the failure |
| ResponseProcessing.ChartsBars | backend/home/response_processing_new.py:106-130 | every group is the reference grouping by node suffix and order, and no group is empty |
| ResponseProcessing.ChartsLines | backend/home/response_processing_new.py:121-130 | line data exists exactly for the battery nodes, each with its own records |
| ResponseProcessing.GroupRows | backend/home/response_processing_new.py:111-119 | grouped records carry the group's suffix and order; demand orders are non-positive and supply orders non-negative |
| ResponseProcessing.CellFacts | backend/home/response_processing_new.py:92-138 | a cell has the heatmap value, the maximum timestep, exactly the non-empty groups and line data for exactly the batteries; it fails exactly on the heatmap's division by zero (no energy supplied, unmet demand below 0.1), no bars, or an unnamed node |
| ResponseProcessing.ZeroSupplyCellFails | backend/home/response_processing_new.py:92-95 | a swept configuration supplying no energy with unmet demand below 0.1 makes its cell raise the division by zero, so no result matrix holds and the sweep raises |
| ResponseProcessing.CollectBars | backend/home/response_processing_new.py:111-119 | the bar loop for one node computes its grouping |
| ResponseProcessing.FillCell | backend/home/response_processing_new.py:92-138 | the loops compute the cell described by the cell specification |
| ResponseProcessing.SetValue | backend/home/response_processing_new.py:174-176 | `prodCapacities[i][1] = v` changes entry i's value and nothing else |
| ResponseProcessing.Zeroed | backend/home/response_processing_new.py:185 | every producer id paired with 0 |
| ResponseProcessing.FirstIndex | backend/home/response_processing_new.py:149-156 | the first position carrying the id, or none exists |
| ResponseProcessing.Selected | backend/home/response_processing_new.py:148-170 | both selected ids are found exactly when the sweep proceeds |
| ResponseProcessing.BestIndex | backend/home/response_processing_new.py:180-182 | the best index points at a numeric value |
| ResponseProcessing.BestIsFirstMinimum | backend/home/response_processing_new.py:180-185 | no best exists exactly when every value is `"inf"`; otherwise the best is a minimum and every earlier value is strictly larger |
| ResponseProcessing.BestIndexSnoc | backend/home/response_processing_new.py:180-182 | a new value takes over only when it is numeric and strictly smaller |
| ResponseProcessing.Sweep.Config | backend/home/response_processing_new.py:173-176 | a configuration has one entry per producer |
| ResponseProcessing.Sweep.Values | backend/home/response_processing_new.py:173-180 | 36 values, column-major, one per cell |
| ResponseProcessing.TrackIsBestIndex | backend/home/response_processing_new.py:173-182 | the running best after n cells is the first minimum of those n values and the capacities at that moment |
| ResponseProcessing.BestOfSweep | backend/home/response_processing_new.py:180-185 | bestIdx is the capacities of the first minimum, or all zeros when nothing is finite |
| ResponseProcessing.ValueOfCell | backend/home/response_processing_new.py:177-178 | value 6·c+r is cell (c, r)'s heatmap value |
| ResponseProcessing.SweepNoFinite | backend/home/response_processing_new.py:184-185 | with no finite cell, bestIdx pairs every producer with 0 |
| ResponseProcessing.SweepBestCell | backend/home/response_processing_new.py:173-185 | with a finite cell, bestIdx is the configuration of a minimal cell that beats every earlier cell strictly |
| ResponseProcessing.BestCellBeats | backend/home/response_processing_new.py:180-182 | the best cell is numeric, no larger than any numeric cell and strictly smaller than every earlier one |
| ResponseProcessing.TrackStep | backend/home/response_processing_new.py:180-182 | one cell updates best and bestIdx exactly when it is numeric and strictly smaller |
| ResponseProcessing.SweepOf | backend/home/response_processing_new.py:148-170 | a sweep exists exactly when both selected ids occur in prodCapacities |
| ResponseProcessing.ConfigEntries | backend/home/response_processing_new.py:173-176 | while cell (c, r) is solved, the row entry is r, the column entry is c (unless it is the same entry), and the rest are unchanged |
| ResponseProcessing.FirstRow | backend/home/response_processing_new.py:173-176 | setting the column then row 0 gives the configuration of cell (col, 0) |
| ResponseProcessing.NextRow | backend/home/response_processing_new.py:175-176 | setting the next row gives the next cell's configuration |
| ResponseProcessing.OptimizerResultProcessor.constructor | backend/home/response_processing_new.py:6-16 | a new processor holds the request with empty lists and false flags |
| ResponseProcessing.OptimizerResultProcessor.SetColumn | backend/home/response_processing_new.py:174 | sets the column entry of the shared capacities array in place |
| ResponseProcessing.OptimizerResultProcessor.VisitCell | backend/home/response_processing_new.py:176-182 | solves the cell of the current configuration and updates the running best |
| ResponseProcessing.OptimizerResultProcessor.FillColumn | backend/home/response_processing_new.py:175-182 | one column of six cells, or a failure only if some cell fails |
| ResponseProcessing.OptimizerResultProcessor.SweepGrid | backend/home/response_processing_new.py:173-182 | all six columns, or a failure only if some cell fails |
| ResponseProcessing.OptimizerResultProcessor.FillMatrixOfCells | backend/home/response_processing_new.py:140-187 | raises when a selected id is missing and may raise only when a cell fails (including the heatmap's division by zero); on success the matrix holds every cell at `[col][row]`, bestIdx is the sweep's best and the capacities end at (5, 5) |
| ResponseProcessing.OptimizerResultProcessor.ProcessResponse | backend/home/response_processing_new.py:18-52 | reset gives no main data; auto-simulate gives the 6×6 matrix; otherwise it gives a single cell; bestIdx is always returned |
| DataValues.WalkFails | frontend/src/assets/stores/dataValues.js:33-49 | the get walk throws exactly when a pointer on the path is missing; otherwise it returns the value at the path |
| DataValues.WalkFull | frontend/src/assets/stores/dataValues.js:33-49 | on a full tensor and in-range values the walk returns the leaf at the path |
| DataValues.PutFull | frontend/src/assets/stores/dataValues.js:151-169 | writing a leaf keeps the tensor full; the written leaf is the new value and every other leaf is unchanged |
| DataValues.UpdateThenGet | frontend/src/assets/stores/dataValues.js:151-169 | a get after an update returns the written cell at the updated path and the old result elsewhere |
| DataValues.Values | frontend/src/assets/stores/dataValues.js:34 | the path is the sequence of current slider values, in map order |
| DataValues.SetPresent | frontend/src/assets/stores/dataValues.js:75-77 | `Map.set` on an existing key replaces its value in place |
| DataValues.SetAbsent | frontend/src/assets/stores/dataValues.js:75-77 | `Map.set` on a new key appends it |
| DataValues.SetKeeps | frontend/src/assets/stores/dataValues.js:75-77 | `Map.set` keeps the keys distinct and holds the new entry |
| DataValues.Path | frontend/src/assets/stores/dataValues.js:74-79 | at cell (c, r) the column producer's depth reads c, the row producer's reads r, and every other depth reads its current value |
| DataValues.InsertRowsSweep | frontend/src/assets/stores/dataValues.js:76-80 | the row loop writes `valueMatrix[c][r]` at each path of its column and keeps the rest |
| DataValues.InsertColsSweep | frontend/src/assets/stores/dataValues.js:74-81 | the column loop reaches all 36 cells, ending with both slider values at 5 |
| DataValues.InsertSweep | frontend/src/assets/stores/dataValues.js:52-82 | insertion raises nothing, leaves both swept entries at 5, keeps the tensor full, writes each `valueMatrix[c][r]` at its path and keeps every other leaf |
| DataValues.Keep | frontend/src/assets/stores/dataValues.js:115-118 | the write keeps the matrix's shape |
| DataValues.Ex | frontend/src/assets/stores/dataValues.js:94-145 | the extraction recursion keeps the matrix's shape |
| DataValues.ExNoField | frontend/src/assets/stores/dataValues.js:95-100 | with neither `forMatrix` nor `forCharts`, every cell yields `undefined` (no raise, even on a missing leaf), so the matrix is never written and nothing is returned |
| DataValues.ExCols | frontend/src/assets/stores/dataValues.js:107-119 | the column loop keeps the matrix's shape |
| DataValues.ExRows | frontend/src/assets/stores/dataValues.js:120-132 | the row loop keeps the matrix's shape |
| DataValues.ExSweep | frontend/src/assets/stores/dataValues.js:94-145 | on a full tensor the recursion writes the field of the leaf at (c, r) into `[r][c]` for the cells it spans, and keeps every other entry |
| DataValues.ExColsSweep | frontend/src/assets/stores/dataValues.js:107-119 | the column loop writes row `rowIndex` (all rows once the row producer is also below) from columns c0.. on |
| DataValues.ExRowsSweep | frontend/src/assets/stores/dataValues.js:120-132 | the row loop writes column `colIndex` (all columns once the column producer is also above) from rows r0.. on |
| DataValues.ExtractSweep | frontend/src/assets/stores/dataValues.js:85-148 | for a full tensor, extraction returns nothing and sets `matrix[r][c]` from the leaf at column c and row r when that is present |
| DataValues.ExtractAfterSweep | frontend/src/assets/stores/dataValues.js:93-147 | after a completed insertion sweep, extraction reads back the inserted values |
| DataValues.InsertThenExtract | frontend/src/assets/stores/dataValues.js:52-148 | after inserting `valueMatrix`, extraction sets `matrix[r][c]` from `valueMatrix[c][r]`: the transpose |
| DataValues.DataStore.constructor | frontend/src/assets/stores/dataValues.js:7-9 | the selection is the unset pair, the capacity map is empty and the tensor holds no data |
| DataValues.DataStore.GetCell | frontend/src/assets/stores/dataValues.js:33-49 | the loop computes the get walk along the current slider values |
| DataValues.DataStore.UpdateCell | frontend/src/assets/stores/dataValues.js:151-169 | returns the tensor with `simData` at the current path, or the error the walk raises |
| DataValues.DataStore.InsertCell | frontend/src/assets/stores/dataValues.js:52-82 | without a selection it raises a TypeError and changes nothing; otherwise map and tensor are the insertion sweep's |
| DataValues.DataStore.InsertColumn | frontend/src/assets/stores/dataValues.js:75-80 | one column: `set(colID, col)`, then the row loop |
| DataValues.DataStore.ExtractCell | frontend/src/assets/stores/dataValues.js:85-148 | the matrix and result are those of the extraction recursion over the current map and selection; `field` is `matrixData`, else `chartsData`, else none |
| DataValues.DataStore.ExtractFrom | frontend/src/assets/stores/dataValues.js:94-145 | the recursion with its two loops writes into the array exactly as the extraction specification says |
| DataValues.Store | frontend/src/assets/stores/dataValues.js:115-118 | the array write agrees with `Keep` on the matrix's contents |

## Left out

- Solving: Pyomo, GLPK, `load_input`, `solve_instance` and the DataFrame builders of `model.py` are foreign library calls. The programme is the predicate `Formulation.Feasible` over a given assignment. The sweep takes `solve` as a parameter.
- `ScenarioResults._get_variable`, `get_storage_level_plot_data` and `get_capacities` turn solver results into DataFrames. Results are given rows here.
- File and spreadsheet I/O: `Utils.py`, the file reads in `process_profile`, `get_default_node_values`, `get_time_steps` and `save_to_temp_file`. Their contents are inputs, and `write` returns the text.
- Orchestration: `Scenario.initialize`, `optimize`, `get_edges` and `print_nodes`, and the JSON string assembly and `json.loads` in `run_optimizer_return_results`. `save_json` and the `__repr__` methods are debugging output.
- The HTTP layer, `main.py`, and the UI stores other than the result store. `nodeInfo`, `maxInstalledCapacity` and `currentlyLoading` are in the result store but nothing reads them there.
- Console output (`print`, `console.error`) is dropped. An error that is printed and swallowed becomes the value returned in its place.
- Floating point: values are exact reals. NaN is a separate scalar case. Python's float repr is the parameter `repr`. Rounding is to the nearest decimal, half away from zero. The role flags are Python ints, so `value * sf` keeps them ints and they are written `1`, while a float parameter of 1.0 is written `1.0`; one `repr` on reals cannot tell the two apart.
- Python set order: `list(set(...))` is modelled in first-occurrence order; the real order depends on hashes.
- `ModelInput.Distinct`: the same elements and no repeats are stated, but not a particular order.
- Text.Lower: Python's `str.lower` also maps capitals outside Latin-1, Latin Extended-A and basic Cyrillic (Greek, with its context-dependent final sigma, and others), and turns `İ` into two characters. These are left unchanged here, so a label using them may miss a defaults key that Python would match.
- ScenarioTranslation.ProcessProfileSpec: selects rows with the corrected `SelectRows`, so an index in 1−len..0 gives `[]`; `process_profile` as written returns the row counted from the end there (see Findings). Where every index is in 1..len the two agree (`SelectRowsAgree`).
- ScenarioTranslation.Scenario.ProcessProfile: the same corrected selection as `ProcessProfileSpec`; `Step`, `Build` and `GraphTranslation` inherit it.
- Text.Round6, Text.Round4: only the error bound is stated. Python rounds half to even on the binary value, which is not modelled.
- `ScenarioTranslation.SliderScale`: slider values are reals given by the request. The `try` around the loop also catches a missing slider entry, which gives 0.
- `DataValues.DataStore.UpdateCell`: the store's nested arrays are values. The update returns the new tensor instead of writing through shared references, so aliasing between `dataValues` and `pointer` is not captured. A write that lands on a cell object, because the tensor is shallower than the map (as after a producer joins the map), is dropped: JavaScript sets an index property on that object, which a later `getDataValuesCell` reads back, while the model leaves the cell unchanged and reads `undefined` there.
- `DataValues.DataStore.InsertCell`: as for the update, the recursive insert returns the new tensor. The map is a sequence of (id, value) pairs in insertion order. As for the update, a `recInsert` write onto a cell object is dropped instead of setting an index property on it.
- `DataValues.DataStore.ExtractCell`: a matrix smaller than 6×6 is refused by the precondition. For rows shorter than 6, JavaScript would grow them with holes; with fewer than 6 rows it throws a TypeError at `matrixToWhichIsAssigned[rowIndex][…]`. The `forMatrix`/`forCharts` choice is the optional parameter `field`, `None` when neither is set.
- `DataValues.InsertSweep` and `InsertThenExtract` assume the following: the selected producers are distinct and occur in the map; every other slider value is below 6; the tensor is full; the matrix is at least 6×6.
- `selectedNodes` is an optional pair, so it never has other than two entries. JavaScript's loose `==` on ids is plain equality.
- Slider values in the frontend map are natural numbers.

## Findings

| source | as written | input that shows it | evidently intended | confidence | as-written member | corrected member |
|---|---|---|---|---|---|---|
| backend/graph_to_scenario/scenario.py:408-410 | `profile_data[i - 1]` with a Python list lets a timestep index of 0 (or a negative one) through: `data[-1]` is the last row, so there is no IndexError | profile `[10.0, 20.0]`, indices `[0]` gives `[20.0]` | an index outside 1..len(profile) is refused and the profile is `[]`, as the 1-based comment says | not executed | ScenarioTranslation.SelectRowsAsWrittenAcceptsZero | ScenarioTranslation.SelectRows |
