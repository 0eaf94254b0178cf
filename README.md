# TOML/JSON configuration editor: the edit tracker

`toml-editor-module.py` loads a configuration file and shows one Tk widget per
setting. The file is parsed with `toml.load` first, and then again with the
TOML or JSON parser that its suffix selects. Each setting gets a widget: a
checkbox for a boolean, an entry for a number, a text box for a list or a
string. Nested tables become nested frames. While the form is
built, `render_settings` seeds a parallel nested dictionary, `fields`. Each
widget's callback writes a value back into `fields` under its own key. For a
checkbox or a number entry that is the edited value. The list and string
callbacks, however, read the section's last Text widget, so they store the
edited value only when the edited widget is that last one (see "## Findings").
Saving dumps `fields` as TOML or JSON, depending on the file suffix.

This project models that edit tracker in Dafny. It has these modules:

- `Wrappers`: `Option`.
- `Numbers`: the number entry's text.
  - `validate_number_input`, Python's `float()` acceptance test.
  - `str()` of an integer.
  - `eval` of the entry's text.
- `PyText`: the text helpers.
  - `strip`.
  - `split("\n")` and its inverse, the newline join.
  - The list layout loop that fills a Text widget.
  - The height formula.
- `Tracker`: the tracker itself.
  - A loaded value is `Value`: `Bool`, `Int`, `Float` (kept as its decimal literal), `Str`, `List` of strings, or `Section` of entries.
  - A Python dict is an insertion-ordered `seq<Entry>`. `Put` is `__setitem__`: it replaces a key in place or appends a new one.
  - Sections are addressed by a path of keys. A leaf is a `Slot(path, key)`.
  - The specification functions of seeding: `SeedInto`, `SeededValue`, `SeededLeaf`, and the fold `PutAll`.
- `Editor`: the class `Editor`, the module-level state, updated in place.
  - `fields` is the tracker.
  - `cells` maps each slot to its widget. A widget is a checkbox state, an entry text, or a Text widget's content.
  - `lastText` maps each section path to the Text widget that the closure variable `text` names there.
  - `RenderSettings` is the recursive seeding loop.
  - `ClickCheckbox`, `NumberKey`, `TypeInList` and `TypeInText` are the four callbacks.
  - The invariant `Valid()` says three things:
    - Every widget agrees with the value tracked for its slot.
    - The tracker's keys are unique at every level.
    - Every section holding a Text widget has a last Text widget of that section.
- `Save`: `save_settings` and `new_settings`, over a map from path to file contents.
  - The open truncates the file before the suffix is tested.
  - The TOML and JSON serialisers stay abstract: a written file records the format and the tracker dumped into it.

## Model

| member | source | states |
|---|---|---|
| Numbers.FloatAccepts | toml-editor-module.py:145 | `float()` accepts every non-empty digit string. Whatever it accepts is non-empty and holds only digits and points after an optional sign. Decimal literals with a point are accepted too (see Numbers.DecimalAccepted). |
| Numbers.ValidateNumberInput | toml-editor-module.py:138-150 | The keystroke filter admits the empty text and every digit string. Whatever it admits holds only digits and points after an optional sign. |
| Numbers.DecimalAccepted | toml-editor-module.py:138-150 | Every decimal literal with a point passes the filter: an optional sign, digits, a point and digits, with at least one digit in all (`12.`, `12.5`, `.5`, `-3.5`). `eval` then reads it as a float. |
| Numbers.EvalNumber | toml-editor-module.py:103-104 | `eval` of an entry text that passed the filter raises exactly when the text is empty or has no point and is no integer literal. An integer literal evaluates to its value. A text with a point evaluates to the float written by that literal. |
| Numbers.NatToText | toml-editor-module.py:98 | `str()` of a natural number is a non-empty digit string with no leading zero, except for `0` itself. |
| Numbers.NatTextValue | toml-editor-module.py:98 | The digits of `str(n)` read back as `n`. |
| Numbers.IntToText | toml-editor-module.py:98 | `str(n)` starts with `-` exactly when `n` is negative, never with `+`. After that sign come decimal digits whose value is the magnitude of `n`, with no leading zero unless the text is `0`. So `str(n)` is an integer literal whose value is `n`. |
| Numbers.IntTextRoundTrip | toml-editor-module.py:98-103 | `str(n)` of any integer passes the keystroke filter, and `eval(str(n)) == n`, so a seeded integer entry tracks the loaded integer. |
| Numbers.FilterNeedsDigit | toml-editor-module.py:138-150 | A non-empty text with no digit at all, such as `-`, `+`, `.` or `-.`, is refused: `float()` rejects it. The named non-numbers `inf`, `nan` and `Infinity`, which `float()` accepts, are outside the modelled literals (see Numbers.FloatAccepts under "## Left out"). |
| Numbers.FilterRejectsTwoPoints | toml-editor-module.py:138-150 | A text holding two points, such as `1.2.3`, is refused: `float()` rejects it. |
| Numbers.LeadingZeroRaises | toml-editor-module.py:103-104 | Any digit string that starts with `0` and is not all zeros, such as `007`, passes the filter, since `float` accepts it. `eval` then raises on it, so the keystroke leaves the tracker unchanged. |
| PyText.Strip | toml-editor-module.py:119 | `strip()` gives a slice of the text with only whitespace cut off before and after it. The slice neither starts nor ends with whitespace, and it is empty exactly when the text is all whitespace. |
| PyText.SplitLines | toml-editor-module.py:119 | `split("\n")` gives at least one piece, and no piece contains a newline. |
| PyText.JoinSplit | toml-editor-module.py:119 | Joining the pieces of `split("\n")` with newlines gives back the text. |
| PyText.SplitJoin | toml-editor-module.py:119 | Splitting the newline join of newline-free items gives back the items. |
| PyText.ParseListText | toml-editor-module.py:119 | The list a list callback stores is never empty and none of its items holds a newline. A whitespace-only text gives `[""]`. |
| PyText.ParseText | toml-editor-module.py:134 | The string a text callback stores is the widget text plus Tk's final newline, with only the surrounding whitespace cut off. It neither starts nor ends with whitespace. |
| PyText.ParseTextRoundTrip | toml-editor-module.py:126-134 | A non-empty string without whitespace at either end is stored back unchanged by the text callback from its own widget, newlines inside included. |
| PyText.TextHeight | toml-editor-module.py:127 | The height is at least 1. It is `h` exactly when `40(h-1) <= len < 40h`, i.e. one more than the 40-character lines filled. |
| PyText.LayoutListText | toml-editor-module.py:112-114 | The insert loop leaves the widget holding the specified layout: each item followed by a newline. |
| PyText.LayoutIsJoin | toml-editor-module.py:112-114 | The layout of a non-empty list is its newline join plus one trailing newline. |
| PyText.LayoutParseRoundTrip | toml-editor-module.py:106-124 | A non-empty list of newline-free items, whose first item has no leading and last item no trailing whitespace, is parsed back unchanged from its own layout. |
| PyText.EmptyListParsesAsOneEmptyItem | toml-editor-module.py:106-124 | An empty list is laid out as an empty widget, which parses back as `[""]`, not `[]`. |
| PyText.ParseOneLine | toml-editor-module.py:119 | A single line without surrounding whitespace parses as the one-item list `[s]`, also with a trailing newline, and as the string `s`. |
| Tracker.Lookup | toml-editor-module.py:83 | A read `d[k]`, such as `current_fields[key]` handing the nested dictionary to the recursive call, finds a value exactly when `k` is among the keys. Otherwise it finds none, where Python raises `KeyError`. |
| Tracker.Put | toml-editor-module.py:79 | `d[k] = v`: afterwards `k` maps to `v`, every other key maps to what it did, and a new key is appended after the old ones. |
| Tracker.PutSameKeys | toml-editor-module.py:96 | Assigning an existing key keeps the key sequence, in order. |
| Tracker.PutUnique | toml-editor-module.py:79 | Assignment keeps keys unique. |
| Tracker.PutInPlace | toml-editor-module.py:96 | Assigning an existing key changes that entry only, at its own position. |
| Tracker.PutTwice | toml-editor-module.py:96 | A second assignment to the same key overrides the first. |
| Tracker.EvaluatedValue | toml-editor-module.py:103 | What `eval` stores from a number entry is an int or a float. |
| Tracker.SeededLeaf | toml-editor-module.py:90-130 | The value tracked for a loaded leaf is the loaded value. A boolean stays a boolean. An integer goes through `str` and `eval` unchanged. Lists and strings are stored as they are. |
| Tracker.SeededValueCopies | toml-editor-module.py:77-130 | The value seeded for an entry, section or leaf, equals the loaded value. |
| Tracker.SeedCopies | toml-editor-module.py:75-136 | `SeedInto`, the dictionary the loop builds: seeding a fresh dictionary gives exactly the section's entries, in the same order, at every nesting level. |
| Tracker.SeedIsPutAll | toml-editor-module.py:77-83 | `SeedInto` on an existing dictionary assigns the section's entries one by one, in order. |
| Tracker.FreshLoadIsDoc | toml-editor-module.py:75-136 | Assigning every entry of a loaded document, in order, to an empty tracker gives back exactly that document. |
| Tracker.PutAllKeepsOldKeys | toml-editor-module.py:79 | Seeding never removes a key, and the keys a dictionary already had keep their order at its front. |
| Tracker.PutAllKeySet | toml-editor-module.py:79 | After seeding, the keys are exactly the old keys plus the loaded ones. |
| Tracker.PutAllLookup | toml-editor-module.py:79 | After seeding, a loaded key maps to its loaded value, so a re-seeded section is replaced as a whole. Every other key keeps its old value. |
| Tracker.PutAllUnique | toml-editor-module.py:79 | Seeding keeps the keys of the tracker unique. |
| Tracker.PutAllWellFormed | toml-editor-module.py:79-83 | Seeding keeps keys unique at every nesting level. |
| Tracker.LoadableWellFormed | toml-editor-module.py:26-28 | A loaded document has unique keys at every level. |
| Tracker.TrackedLeafPutAll | toml-editor-module.py:79 | After seeding, every leaf of the loaded document is tracked with its loaded value. |
| Tracker.SectionAtChild | toml-editor-module.py:79-83 | The section at `p + [k]` is the dictionary stored under `k` in the section at `p`, and replacing it assigns `k` in that section. |
| Tracker.EditOnlyThisLeaf | toml-editor-module.py:96-134 | An edit callback's store changes the tracked value at its own slot only. Every other slot, at any depth, keeps its value. |
| Tracker.EditKeepsShape | toml-editor-module.py:96-134 | An edit adds and removes no key at any level, keeps every section a section, and keeps keys unique. |
| Tracker.PutAtSame | toml-editor-module.py:96 | Storing the value a slot already tracks changes nothing. |
| Tracker.PutAtTwice | toml-editor-module.py:96 | A second store into the same slot overrides the first. |
| Tracker.PutAtStores | toml-editor-module.py:96-134 | `PutAt`, the store `current_fields[key] = v` into the nested dictionary at a path: afterwards the section at that path is the old section with `key` assigned. |
| Editor.LeafWidgetAgrees | toml-editor-module.py:90-134 | `LeafWidget`, the widget made for a loaded leaf, agrees with that value. The widget is a Text widget exactly for lists and strings. |
| Editor.CellsAgree | toml-editor-module.py:75-136 | Every widget created for a section agrees with the section's value at that slot. |
| Editor.CellsReached | toml-editor-module.py:75-136 | Every widget created for a section sits below the section's path, under one of its keys. |
| Editor.LastTextsLinked | toml-editor-module.py:108-134 | `LastTexts`, what `text` names per section after rendering: the widget that `text` names for a section path is a Text widget of that section. Every section with a Text widget has one. |
| Editor.LoadConsistent | toml-editor-module.py:30-34 | The tracker seeded from a loaded document and the widgets made for it satisfy the editor's invariant. |
| Editor.EditConsistent | toml-editor-module.py:96-134 | Storing a value that agrees with the new widget keeps the invariant. |
| Editor.WidgetConsistent | toml-editor-module.py:104 | A widget change with no store, as when `eval` raises, keeps the invariant if the widget still agrees with the tracked value. |
| Editor.ClickTwiceRestores | toml-editor-module.py:96 | Two clicks on a checkbox leave the tracker as it was. |
| Editor.LateBoundTextReadsLastWidget | toml-editor-module.py:106-134 | In a section holding a list `k1` and then a string `k2`, the variable `text` ends up naming the string's widget `k2`. So the list's callback reads the string's content. |
| Editor.Editor.constructor | toml-editor-module.py:225 | An empty tracker with no widgets satisfies the invariant. |
| Editor.Editor.Load | toml-editor-module.py:30-34 | Loading seeds the loaded document into the tracker, top-level keys accumulating across loads, builds exactly its widgets, and keeps the invariant. |
| Editor.Editor.RenderSettings | toml-editor-module.py:75-136 | Rendering a section at a path puts the section's entries in turn into the tracker section there, and adds its widgets and last Text widgets. |
| Editor.Editor.RenderSection | toml-editor-module.py:78-84 | A table gets a fresh `{}` under its key, which is then seeded by the recursive call. |
| Editor.Editor.RenderLeaf | toml-editor-module.py:86-134 | A leaf is tracked under its key with its loaded value and gets its widget. A list or string widget becomes the section's `text`. |
| Editor.Editor.MakeLeaf | toml-editor-module.py:90-133 | The widget made for a leaf, and the value tracked for it: a checkbox and the boolean for a boolean; an entry and the evaluated text for a number; a Text widget and the value itself for a list or a string. |
| Editor.Editor.Store | toml-editor-module.py:96-134 | The store every callback makes: the value goes into the tracker at the widget's slot, the widget takes its new state, and the invariant holds again. |
| Editor.Editor.ClickCheckbox | toml-editor-module.py:96 | A click stores the negation of the box's state read before the toggle. The tracked boolean then equals the box's state, and the invariant holds. |
| Editor.Editor.NumberKey | toml-editor-module.py:100-104 | A keystroke whose text the filter refuses leaves the entry text. An entry text that `eval` cannot read raises and leaves the tracker unchanged. Otherwise the evaluated number is stored in the slot. |
| Editor.Editor.TypeInList | toml-editor-module.py:116-124 | As written: the list stored under the edited key is parsed from the section's last Text widget. It is the edited widget only when that one is the last. |
| Editor.Editor.TypeInListFixed | toml-editor-module.py:116-124 | The list stored under the edited key is parsed from the edited widget's own content. |
| Editor.Editor.TypeInText | toml-editor-module.py:134 | As written: the string stored under the edited key is the stripped content of the section's last Text widget. |
| Editor.Editor.TypeInTextFixed | toml-editor-module.py:134 | The string stored under the edited key is the stripped content of the edited widget. |
| Save.EndsWith | toml-editor-module.py:155-157 | `str.endswith`: the text is some prefix followed by the suffix. |
| Save.FormatFor | toml-editor-module.py:155-160 | A `.toml` suffix selects TOML, a `.json` suffix JSON with indent 4, and no other suffix selects a format. |
| Save.Write | toml-editor-module.py:154-160 | The target file is created or emptied. It then holds the tracker in the selected format, or stays empty while the call raises. No other file changes. |
| Save.SaveSettings | toml-editor-module.py:153-161 | Saving writes TOML into a `.toml` file and JSON into a `.json` file. Any other file is truncated and the save raises. |
| Save.NewSettings | toml-editor-module.py:164-174 | As written: the new file receives exactly what saving the old path would have written, and the call raises exactly when that save would. |
| Save.NewSettingsFixed | toml-editor-module.py:164-174 | Saving to a new path is the same as `save_settings` at that path. |
| Save.NewSettingsKeepsOldFormat | toml-editor-module.py:168-171 | Going from a `.toml` file to a `.json` name writes TOML into the `.json` file. The corrected version writes JSON. |
| Save.NewSettingsRaisesOnOldSuffix | toml-editor-module.py:168-172 | From a file with another suffix, the save raises and truncates the new `.toml` file. The corrected version writes it. |

## Left out

- Tk widget creation, grid layout, the `row` counter, the window geometry and menus (lines 36-55, 176-227). These are UI only, and the window arithmetic is in floats.
- Reading and writing files, and the `toml`/`json` libraries (lines 19-30, 67-73). A loaded document is any `Tracker.Loadable` dictionary. A dump records its format and the tracker.
- The load-side suffix test in `process_file` (lines 25-28). For a `.toml` or `.json` file it picks a parser. For any other suffix, such as a valid TOML `settings.cfg` or `X.TOML`, neither branch assigns `config`, which is local to `process_file` (the module-level `global` at line 15 does not reach into the function), so line 30 raises `UnboundLocalError`. This is the load-side counterpart of "Invalid file type". Before the test runs, `get_settings` (lines 67-73) has already parsed the chosen file with `toml.load`, catching only `FileNotFoundError`. A `.json` file that is not also valid TOML therefore raises there and never reaches the JSON branch.
- `askopenfilename`, `get_settings` and its `FileNotFoundError` path, and `root.destroy()` after saving (lines 57-73, 161, 174). These are native dialogs, I/O and lifecycle.
- The module-level `path` is never assigned, and `new_filename` is local to `load_editor`. `save_settings`, `new_settings` and `load_editor` would therefore stop with a `NameError`. The model instead takes the save path and the new path as given strings.
- `render_settings` overwrites `current_settings[key]` with the Tk variable (lines 94, 102). The loaded document's later use is not modelled: it is the widget state, kept in `cells`.
- Editor.Editor.Load: widgets of earlier loads are dropped. In the source they stay on screen with live callbacks, which still write into the tracker.
- Numbers.EvalNumber: `eval` is modelled on decimal literals only (optional sign, digits, at most one point). Exponents, underscores, `inf`/`nan` and surrounding spaces are left out.
- Numbers.FloatAccepts: Python's `float()` is likewise modelled on the same decimal literals only, so the model's filter refuses `1e5`, `inf` or ` 1`, which the source accepts.
- A loaded float must be a decimal literal with a point (`Tracker.Loadable`). TOML's `inf` and `nan` are excluded: `str()` gives `inf` or `nan`, and `eval` at line 103 then raises `NameError` in the middle of the loop, leaving the tracker partly seeded. Exponent floats such as `1e+16` are excluded too, although the source seeds them without trouble.
- Floating-point values are kept as their literal text, `Float(lit)`. No rounding is modelled, and `str()` of a float is taken to give back the loaded literal.
- Values other than booleans, numbers, lists, strings and tables, such as TOML dates, fall into the source's `else` branch. They are not modelled: the string case stands for that branch.
- List items are strings. Lists holding numbers or nested lists are not modelled: the layout at lines 112-114 inserts each item as text.
- The `<Button-1>` binding runs before Tk toggles the checkbox. The model takes one click as both steps, store and then toggle.
- Widget changes that run no callback are not modelled. Space on a focused checkbox toggles it without `<Button-1>`. A press dragged off the box before release fires `<Button-1>`, which stores the negation, but does not toggle. A middle-click paste changes an entry or a Text widget without a `<KeyRelease>`. In each case the source's tracker goes stale or contradicts the box. The clauses of the invariant (`Editor.Consistent`) saying that a checkbox or an entry agrees with its tracked value hold only for the model's events: a click is a press and a release on the box, and every text change is followed by a key release.

## Findings

| source | as written | input that shows it | evidently intended | confidence | as-written member | corrected member |
|---|---|---|---|---|---|---|
| toml-editor-module.py:117-134 | The list and string callbacks read `text`, a variable of `render_settings` bound late. After the loop, `text` names the last Text widget created in that section. | A section `{"hosts": ["a"], "name": "x"}`: typing into the `hosts` box stores `["x"]`, parsed from the `name` widget, under `hosts`. | Each callback reads its own widget: `text=text` bound like `key=key`. | not executed | Editor.LateBoundTextReadsLastWidget | Editor.Editor.TypeInListFixed |
| toml-editor-module.py:168-171 | `new_settings` tests the suffix of the old `path`, not of `new_path`. | Old file `a.toml`, new name `b.json`: `b.json` receives TOML. | The format follows the new file's suffix. | not executed | Save.NewSettingsKeepsOldFormat | Save.NewSettingsFixed |

The string callback has the same defect (`Editor.Editor.TypeInText` as written, `Editor.Editor.TypeInTextFixed` corrected).
