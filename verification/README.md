# Widget factory and registration of the standalone bokeh drawer

This project models the widget layer of `bokehDrawSA`, the standalone drawer of RootInteractive.
It proves properties of that model in Dafny.

- `createWidgets` takes the already-parsed widget description. This is a flat list
  `[title, params, title, params, ...]`, read two elements at a time.
- Each title is split at `.` into a type tag and a name.
- The tag selects a control:
  - `dropdown` gives a select.
  - `query` gives a text input.
  - `slider` gives a slider (4 parameters) or a range slider (5 parameters).
  - Any other tag takes a backward-compatibility path.
- `initWidgets` parses the widget string and falls back to an empty list if parsing raises.
- It registers every control by title in a registry seeded with the two data sources
  `cdsOrig` and `cdsSel`.
- It then attaches one generated callback to every control, for both "value" changes and events.
- The `:`-join of the distinct variable names is modelled too. The drawer builds it for the tree
  extraction.

Modules:

- `Strings` (`strings.dfy`): Python's `split` and `join` for one separator, and their round trips.
- `Outcomes` (`outcomes.dfy`): `Option`, the raised exceptions as an `Error` datatype, and `Result`.
- `WidgetFactory` (`widget_factory.dfy`): the parsed description (`Item`), the controls, the
  per-pair reference `EntryOf`, and `CreateWidgets`.
- `FactoryProperties` (`factory_properties.dfy`): per-tag behaviour, order, truncation, abort,
  and the fallback.
- `WidgetSetup` (`widget_setup.dfy`): `Register` and `InitWidgets`.
- `SetupProperties` (`setup_properties.dfy`): registry contents, and why a fallback entry
  breaks the setup.
- `VariableList` (`variable_list.dfy`): the `:`-join loop and its round trip.

External collaborators are parameters:

- The widget-string parser (`parse`, where `None` is "raised").
- `float` on a token (`toFloat`, where `None` is the ValueError).
- `makeJScallback` (`makeCallback`, returning a value of an opaque type parameter `CB`).

Python's `list(x)` and `float(x)` are modelled for both kinds of element. A string parameter
list is iterated character by character. A nested list is a TypeError for `float`.

Inside one pair, the order of evaluation follows the code:

- `split` comes first. A title that is not a string gives `TitleNotText`.
- For a dropdown, the empty-options check comes first. Building the error message needs
  `name[1]`, so an empty dropdown without `.` gives `MissingName` instead of `EmptyDropdown`.
- For a slider, the keyword argument `title=name[1]` is evaluated before the `float` calls.
  A bad count formats `name[1]` as well.

## Model

| member | source | states |
|---|---|---|
| `WidgetFactory.CreateWidgets` | RootInteractive/InteractiveDrawing/bokeh/bokehDrawSA.py:164-208 | Exactly one entry per complete (title, params) pair, in input order. A trailing unpaired element is ignored. The call succeeds exactly when every pair succeeds. Otherwise it returns the error of the first failing pair and no partial list. The fallback is modelled as the literal recursive call on a one-element list. |
| `WidgetFactory.Floats` | RootInteractive/InteractiveDrawing/bokeh/bokehDrawSA.py:193-197 | The parameters are converted with `float` in order. The conversion fails exactly when some parameter fails. Otherwise the i-th number is the conversion of the i-th parameter. |
| `FactoryProperties.SinglePair` | RootInteractive/InteractiveDrawing/bokeh/bokehDrawSA.py:165-206 | A one-pair list yields exactly the entry that pair builds, or that pair's error. |
| `FactoryProperties.NoCompletePair` | RootInteractive/InteractiveDrawing/bokeh/bokehDrawSA.py:165 | The pairwise `zip` consumes nothing from a list with fewer than two elements, so the result is the empty list. This includes the one-element list of the fallback. |
| `FactoryProperties.TrailingElementIgnored` | RootInteractive/InteractiveDrawing/bokeh/bokehDrawSA.py:165 | Appending an unpaired element to an even-length list does not change the result. |
| `FactoryProperties.AppendPairs` | RootInteractive/InteractiveDrawing/bokeh/bokehDrawSA.py:165-208 | On two concatenated pair lists, the result is the entries of the first followed by those of the second. A failure in the first part takes precedence over one in the second. |
| `FactoryProperties.DescribesUnique` | RootInteractive/InteractiveDrawing/bokeh/bokehDrawSA.py:165-208 | The per-pair outcomes determine the whole result: there are no two different results for the same pairs. |
| `FactoryProperties.FailureAborts` | RootInteractive/InteractiveDrawing/bokeh/bokehDrawSA.py:169-171 | A failing pair at any position makes the whole call raise. |
| `FactoryProperties.DropdownWithOptions` | RootInteractive/InteractiveDrawing/bokeh/bokehDrawSA.py:166-172 | A named dropdown (its title contains a `.`) with at least one option becomes a select. Its title is the second `.`-segment of the title, its value is the first option, and its options are exactly the given list. |
| `FactoryProperties.DropdownWithoutOptions` | RootInteractive/InteractiveDrawing/bokeh/bokehDrawSA.py:167-171 | A dropdown without options raises. The error is `EmptyDropdown` when the title has a `.`, and `MissingName` (the IndexError of `name[1]`) otherwise. |
| `FactoryProperties.UnnamedControlMissingName` | RootInteractive/InteractiveDrawing/bokeh/bokehDrawSA.py:167-201 | A `dropdown` or `slider` title without a `.` raises `MissingName` whatever its parameters. `name[1]` is looked up before any option is read or any parameter is converted. |
| `FactoryProperties.QueryIgnoresNameAndParams` | RootInteractive/InteractiveDrawing/bokeh/bokehDrawSA.py:189-190 | A `query` entry always becomes the text input titled "Query" with an empty value, whatever its name and parameters. |
| `FactoryProperties.SliderWithFour` | RootInteractive/InteractiveDrawing/bokeh/bokehDrawSA.py:191-194 | A named slider with 4 numeric parameters becomes a slider. Its title is the name, and (start, end, step, value) are the converted parameters in order. |
| `FactoryProperties.SliderWithFive` | RootInteractive/InteractiveDrawing/bokeh/bokehDrawSA.py:195-197 | A named slider with 5 numeric parameters becomes a range slider. (start, end, step) are the first three converted parameters, and (low, high) are the last two. |
| `FactoryProperties.SliderWrongArity` | RootInteractive/InteractiveDrawing/bokeh/bokehDrawSA.py:198-201 | A slider with any other parameter count raises. The error is `SliderArity` with the count, or `MissingName` when the title has no `.`. |
| `FactoryProperties.SliderNotNumeric` | RootInteractive/InteractiveDrawing/bokeh/bokehDrawSA.py:192-197 | A named slider with the right count raises `NotANumber` when some parameter is rejected by `float`. |
| `FactoryProperties.UnknownTagYieldsEmptyList` | RootInteractive/InteractiveDrawing/bokeh/bokehDrawSA.py:202-206 | Every other tag yields the empty list as its entry, whatever the parameters. No slider is built and the name is not used. |
| `FactoryProperties.CheckboxTakesFallback` | RootInteractive/InteractiveDrawing/bokeh/bokehDrawSA.py:173-205 | With its branch commented out, a `checkbox.<name>` entry takes the fallback and yields the empty list. |
| `FactoryProperties.UnknownTagIsNotSlider` | RootInteractive/InteractiveDrawing/bokeh/bokehDrawSA.py:202-205 | `foo.X` with four numeric parameters yields the empty list, while `slider.X` with the same parameters yields a slider named X. |
| `FactoryProperties.TitleParts` | RootInteractive/InteractiveDrawing/bokeh/bokehDrawSA.py:166 | The title `tag.name`, with no `.` in either part, splits into that tag and that name. |
| `FactoryProperties.HasNameIffDot` | RootInteractive/InteractiveDrawing/bokeh/bokehDrawSA.py:166 | `name[1]` exists exactly when the title contains a `.`. |
| `Strings.JoinSplit` | RootInteractive/InteractiveDrawing/bokeh/bokehDrawSA.py:166 | Joining the `.`-segments of a title with `.` gives back the title, so the split loses nothing. |
| `Strings.SplitJoin` | RootInteractive/InteractiveDrawing/bokeh/bokehDrawSA.py:64-67 | Splitting a join of at least one separator-free part gives back the parts. An empty list joins to `""`, which splits to `[""]`. |
| `WidgetSetup.Register` | RootInteractive/InteractiveDrawing/bokeh/bokehDrawSA.py:134-135 | Registration succeeds exactly when every entry is a control. Otherwise it fails with `NoTitle`. On success, the keys are the seed's keys plus the control titles. Keys no control took keep their seed value. Each title maps to the last control that carries it. |
| `WidgetSetup.InitWidgets` | RootInteractive/InteractiveDrawing/bokeh/bokehDrawSA.py:118-142 | A parse failure yields the seeded registry, its callback and no controls. A factory error propagates. Setup succeeds exactly when every entry is a control, and fails with `NoTitle` otherwise. The column holds the created controls in order. The callback is generated from the final registry. Every control carries exactly that callback once for "value" changes and once for events. The registry's keys are `cdsOrig`, `cdsSel` and the control titles. |
| `SetupProperties.RegistryLastWriterWins` | RootInteractive/InteractiveDrawing/bokeh/bokehDrawSA.py:134-135 | A control whose title no later control repeats is the one registered under that title, so a later duplicate overwrites an earlier one. |
| `SetupProperties.DataSourcesKept` | RootInteractive/InteractiveDrawing/bokeh/bokehDrawSA.py:132-135 | `cdsOrig` and `cdsSel` keep their data source when no control in the column has that title. |
| `SetupProperties.DataSourceReplaced` | RootInteractive/InteractiveDrawing/bokeh/bokehDrawSA.py:132-135 | A control titled `cdsOrig` or `cdsSel` replaces that data source in the registry when no later control has the same title. |
| `SetupProperties.FallbackBreaksSetup` | RootInteractive/InteractiveDrawing/bokeh/bokehDrawSA.py:133-135 | If every pair builds and one of them has an unknown tag, the setup raises `NoTitle`. The reason is that `.title` of the empty list fails. |
| `SetupProperties.CheckboxStringFails` | RootInteractive/InteractiveDrawing/bokeh/bokehDrawSA.py:133-135 | A widget string that parses to one checkbox entry cannot be set up. |
| `VariableList.JoinVariableList` | RootInteractive/InteractiveDrawing/bokeh/bokehDrawSA.py:64-67 | The loop's result is the `:`-join of the names in set order, after dropping empty names in front. When there is at least one name, no name is empty and no name contains `:`, splitting it at `:` gives back the enumeration. |
| `VariableList.FieldsAreTheVariables` | RootInteractive/InteractiveDrawing/bokeh/bokehDrawSA.py:64-67 | When there is at least one name, no name is empty and no name contains `:`, then in any set iteration order the fields of the joined string are exactly the distinct variable names, each once. |
| `VariableList.DropLeadingEmptyAppend` | RootInteractive/InteractiveDrawing/bokeh/bokehDrawSA.py:65-67 | While the accumulated string is empty, an empty name adds nothing and no `:` is written. After that, every name is appended. |

## Code versus documented intent

The model follows the code. In three places the code differs from what its docstring
(lines 155-157), its log message (line 204) and its comment (line 205) describe:

- **Backward-compatibility path.** The intent is that an unknown tag becomes a slider. Line 205
  instead calls `createWidgets([["slider." + name[0], subList]])`, which passes a one-element
  list. The pairwise `zip` at line 165 takes nothing from it, so the call returns `[]`. Line 206
  appends that list in place of a control (`UnknownTagYieldsEmptyList`,
  `UnknownTagIsNotSlider`). The setup then fails at `.title` on line 135
  (`FallbackBreaksSetup`). The call also passes `name[0]`, the tag, rather than the name.
- **Checkbox.** The checkbox branch (lines 173-188) is commented out, so `checkbox` entries take
  the same path (`CheckboxTakesFallback`, `CheckboxStringFails`). Its validation of the tokens
  `True`/`true`/`1`/`False`/`false`/`0` is not modelled.
- **Groups.** There is no `tab` or `accordion` branch in `createWidgets`, so such entries take
  the fallback too.

## Left out

- Constructor data ingestion (lines 41-92) is not modelled, except the `:`-join. This covers
  notebook detection, `DataFrame.query`, tree extraction, the `sort_values` call, and the
  drawing calls. These are I/O and foreign libraries.
- `parseWidgetString` is a parameter. Its grammar is not modelled because `bokehTools` is not
  part of this model.
- `makeJScallback` is a parameter returning an opaque callback. The filter logic it generates
  and the selection-view semantics are not modelled.
- `drawColzArray`, `bokehDrawArray`, `gridplotRow`, `show` and `column` are not modelled. They
  are rendering and layout.
- `fromArray` (lines 94-114) calls `initWidgets` as the constructor does. The rest of it is
  ingestion and drawing (`bokehDrawArray`, `gridplotRow`, `show`), which are left out above.
- Controls are modelled as values, without object identity or aliasing. In Python the registry
  and the returned column hold the same widget objects, so the callbacks attached after the
  callback is generated also reach the registered widgets. Two pairs that build equal controls,
  such as two `query` entries, are distinct objects there but the same value here. No contract
  depends on identity.
- `float` is the caller-supplied `toFloat`. The model does not interpret IEEE doubles, and a
  converted number is an uninterpreted `real`.
- The bokeh widget classes are plain datatypes. Any validation bokeh performs on their
  arguments, such as options that are not strings, is not modelled.
- Logging (lines 131, 203-204) and the class-level `verbosity` flag (line 209) are not
  modelled. They only affect log output.
- The iteration order of a Python set is a parameter (`order`). It is constrained only to list
  every distinct name once.
- WidgetSetup.InitWidgets: the registry is a `map`, so the insertion order of the Python dict
  is not modelled. That order is `cdsOrig`, `cdsSel`, then titles by first occurrence.
  `makeCallback` receives only the map, so the model assumes the callback generator does not
  depend on that order.
- VariableList.JoinVariableList: the split round trip is stated only when there is at least one
  name, no name is empty and no name contains `:`. With no names the join is `""`, which splits
  to `[""]`, and with empty names or names containing `:` the joined string cannot be split back.
  In those cases only the join itself is stated.
