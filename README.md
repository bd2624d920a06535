# PredicateSearchApp, modelled in Dafny

PredicateSearchApp is a macOS SwiftUI app. The user builds a filter over a list
of persons (SwiftData `EntityPerson` records) in an `NSPredicateEditor`. The
app shows the persons the predicate accepts, together with a SwiftData
`#Predicate` rendering of the predicate's format string. This project models the two places where
the app's logic lives:

- **The content view** (`ContentView.swift`) is the filter session. Four of
  its five `@State` values are modelled: `currentPredicate`, `displayedPersons`,
  `parsedSwiftDataPredicate` and `isFiltered`.
  - They are the fields of the class `Session.ContentView`. Its methods
    `ApplyPredicate` (`applyPredicate`), `ClearPredicate` (`clearPredicate`),
    `OnCountChange` (the `onChange(of: allPersons.count)` handler) and
    `OnAppear` (the `onAppear` handler) assign these fields as the Swift code does.
  - Each method is proved against a pure transition function on a
    `Session.ViewState` (`Applied`, `Cleared`, `CountChanged`, `Appeared`),
    and the lemmas state the properties of those functions.
  - The filter closure turns each person into a dictionary
    (`Models.ToDictionary`) and hands it to the predicate. It is Swift's
    `Array.filter`, modelled as `Filtering.Filter`.
  - `convertToSwiftDataPredicate` becomes the method
    `Conversion.ConvertToSwiftDataPredicate`.
    - It keeps the Swift function's loop over the seven property names.
    - It keeps the six successive operator rewrites.
    - It is proved equal to the function `Conversion.SwiftDataPredicate`.
    - Foundation's `replacingOccurrences(of:with:)` is `Text.ReplaceAll`: left to right and non-overlapping.
- **The editor bridge** (`NSPredicateEditorView.swift`) has three parts.
  - The row-template schema of `createPredicateTemplates` is the constant
    table `Editor.PredicateTemplates`. The method
    `Editor.CreatePredicateTemplates` is proved to build that table by its appends.
  - `updateNSView`'s push of the bound predicate into the editor is
    `Editor.UpdateNSView`.
  - The coordinator's `predicateChanged` is `Editor.Coordinator.PredicateChanged`.
    - It writes the content view's `currentPredicate`, which is the binding.
    - It calls `ApplyPredicate`, which is the `onPredicateChange` callback, only for a complete predicate.
    - A ghost counter records how often the callback has run.

Foundation's predicate services are the fields of
`Foundation.PredicateRuntime`. The two services are `predicateFormat` (from
predicate to format string) and `evaluate` (from predicate and dictionary to a
boolean). They are left uninterpreted, because their behaviour is Foundation's
and not the app's. The predicate type is a type parameter. The app's own
completeness test on a format string, shared by the view and the editor, is
`Completeness.IsIncomplete`.

Three behaviours of the code worth knowing:

- **No re-filter on a count change.** The count handler does not re-filter a
  filtered view when the set of persons changes. It leaves the earlier result
  on display (`Session.CountChangeKeepsFilteredResult`).
- **Flat text rewriting.** The display string comes from plain text replacement
  over the flattened format, not from a walk over a predicate tree. A property
  name inside a quoted value is rewritten too: the search `country == "Page"`
  is shown as `person.country == "Pperson.age"`
  (`Conversion.PropertyNameInsideValueIsQualified`, `Conversion.PageSearchIsRewritten`).
- **Stale filter after an incomplete edit.** An incomplete edit nils the
  binding but keeps the filtered display (`Editor.Coordinator.PredicateChanged`).
  So the toolbar's clear button, which is disabled while `currentPredicate` is
  nil, is off while a filter is still shown.

## Model

| member | source | states |
|---|---|---|
| Models.ToDictionary | PredicateSearchApp/ContentView.swift:104-112 | The dictionary handed to the predicate has exactly the seven attribute names as keys, and each key holds its own attribute of the person. |
| Models.ToDictionaryForgetsOnlyId | PredicateSearchApp/Models.swift:12-31 | Two persons give the same dictionary if and only if they agree on every attribute except the identifier. |
| Text.ReplaceAll | PredicateSearchApp/ContentView.swift:141-150 | Replace-all leaves the text unchanged when the pattern is empty or does not occur. |
| Text.ContainsIff | PredicateSearchApp/ContentView.swift:97 | The substring test holds exactly when the pattern occurs at some offset of the text. |
| Text.ReplaceAllLeavesNoOccurrence | PredicateSearchApp/ContentView.swift:150 | If neither the replacement's nor the pattern's first character occurs anywhere in the other, no occurrence of the pattern survives a replace-all. |
| Text.ReplaceAllSkipsForeignText | PredicateSearchApp/ContentView.swift:141 | A leading text without the pattern's first character is copied unchanged, and the rest is rewritten on its own. |
| Text.ReplaceAllFirstOccurrence | PredicateSearchApp/ContentView.swift:141 | An occurrence that follows such a leading text is the first one replaced. |
| Completeness.IsIncomplete | PredicateSearchApp/ContentView.swift:96-97 | A format string is incomplete exactly when it is empty or "nil" occurs in it. |
| Filtering.Filter | PredicateSearchApp/ContentView.swift:103-115 | The filter result is no longer than its input, and each element of it is in the input and is accepted by the closure. |
| Filtering.FilterPicksKeptPositions | PredicateSearchApp/ContentView.swift:103-115 | The filter result is the subsequence at exactly the accepted positions, at strictly increasing positions, so the order is kept. |
| Filtering.FilterKeepsAll | PredicateSearchApp/ContentView.swift:103-115 | When the closure accepts every element, the filter returns its input. |
| Conversion.ConvertToSwiftDataPredicate | PredicateSearchApp/ContentView.swift:132-153 | The property loop and the six operator rewrites give `SwiftDataPredicate` of the format string, which starts with the `#Predicate<EntityPerson> { person in` prefix and ends with the closing suffix. |
| Conversion.QualifyAbsentProperties | PredicateSearchApp/ContentView.swift:139-142 | Qualifying property names that do not occur changes nothing. |
| Conversion.RewriteAbsentOperators | PredicateSearchApp/ContentView.swift:145-150 | The operator rewrites change nothing when none of the six keywords occurs. |
| Conversion.ConversionKeepsPlainText | PredicateSearchApp/ContentView.swift:136-152 | A format with no property name and no operator keyword appears between the prefix and the suffix unchanged. |
| Conversion.NoUpperCaseContainsInBody | PredicateSearchApp/ContentView.swift:150 | No upper-case "CONTAINS" remains in the converted body. |
| Conversion.PropertyNameInsideValueIsQualified | PredicateSearchApp/ContentView.swift:139-150 | For every format `country == "<pre>age<post>"` where `pre` and `post` contain none of the letters `a`, `c`, `d`, `f`, `i`, `l`, `A`, `B`, `C`, `E`, `N`, `O` (so no other property name or operator keyword can occur), the converted body qualifies both the `country` in front and the `age` inside the quoted value. |
| Conversion.PageSearchIsRewritten | PredicateSearchApp/ContentView.swift:139-150 | The search `country == "Page"` converts to the body `person.country == "Pperson.age"`. |
| Session.ContentView.constructor | PredicateSearchApp/ContentView.swift:16-20 | The view starts with no predicate, nothing displayed, an empty display string and not filtered. |
| Session.ContentView.OnAppear | PredicateSearchApp/ContentView.swift:80-82 | Appearing displays all persons and changes nothing else. |
| Session.ContentView.OnCountChange | PredicateSearchApp/ContentView.swift:74-79 | The count handler displays all persons only when unfiltered, and the display string stays consistent with the flag. |
| Session.ContentView.QueryUpdated | PredicateSearchApp/ContentView.swift:74-79 | A new query result runs the count handler only when the number of persons changed. |
| Session.ContentView.ClearPredicate | PredicateSearchApp/ContentView.swift:125-130 | Clearing gives the cleared state: no predicate, all persons, an empty string, not filtered. |
| Session.ContentView.ApplyPredicate | PredicateSearchApp/ContentView.swift:85-123 | Applying gives `Applied` of the earlier state: clear without a predicate, unchanged when incomplete, filtered and converted otherwise. The persons set is not touched. |
| Session.ApplyWithoutPredicateClears | PredicateSearchApp/ContentView.swift:86-89 | Applying with no current predicate is clearing. |
| Session.ApplyIncompleteChangesNothing | PredicateSearchApp/ContentView.swift:96-100 | An incomplete predicate leaves the whole view state as it was. |
| Session.ApplyCompleteFilters | PredicateSearchApp/ContentView.swift:103-120 | A complete predicate displays exactly the persons whose dictionary it accepts, in their original order and no more of them than there are persons. It sets the converted display string and marks the view filtered. |
| Session.ApplyAcceptingAllShowsEveryone | PredicateSearchApp/ContentView.swift:103-120 | A complete predicate that accepts every stored person displays all of them, in their order, and marks the view filtered. |
| Session.ClearIsIdempotent | PredicateSearchApp/ContentView.swift:125-130 | The cleared state shows all persons with no predicate, and applying in it (or clearing again) stays cleared. |
| Session.CountChangeKeepsFilteredResult | PredicateSearchApp/ContentView.swift:74-79 | On a count change, the display becomes all persons when unfiltered and keeps the earlier result when filtered; nothing else changes. |
| Session.TransitionsKeepConsistency | PredicateSearchApp/ContentView.swift:85-130 | Every transition keeps the display string non-empty exactly when filtered, and then it starts with the `#Predicate` prefix and ends with the closing suffix. |
| Editor.CreatePredicateTemplates | PredicateSearchApp/NSPredicateEditorView.swift:100-222 | The append sequence builds exactly the template table. |
| Editor.TemplateOrder | PredicateSearchApp/NSPredicateEditorView.swift:103-219 | There are eight templates: seven single-key-path direct comparisons (firstName, lastName, department, country, age, isBool, dateOfBirth), then the compound and/or/not template. |
| Editor.FieldOperators | PredicateSearchApp/NSPredicateEditorView.swift:104-211 | Gives each field's value type and its ordered operator list. |
| Editor.OperatorsMatchTypes | PredicateSearchApp/NSPredicateEditorView.swift:109-209 | Every comparison template offers equality and inequality first. Substring operators appear only on strings, and ordering operators only on integers and dates. |
| Editor.OnlyFirstNameHasOptions | PredicateSearchApp/NSPredicateEditorView.swift:116-210 | Only the firstName template is case- and diacritic-insensitive; every other template has no options. |
| Editor.TemplatesMatchRecords | PredicateSearchApp/NSPredicateEditorView.swift:104-207 | Every offered key path is a key of the person dictionary, holding a value of the template's type. |
| Editor.OfferedFieldsInOrder | PredicateSearchApp/NSPredicateEditorView.swift:104-197 | The offered key paths, in template order. |
| Editor.OfferedFieldsAreProperties | PredicateSearchApp/NSPredicateEditorView.swift:104-197 | The offered fields are exactly the dictionary's keys and exactly the properties the conversion qualifies. |
| Editor.UpdateNSView | PredicateSearchApp/NSPredicateEditorView.swift:54-60 | The editor is written exactly when the binding is non-nil and differs from the editor's value, and then it holds the binding. |
| Editor.PushSettles | PredicateSearchApp/NSPredicateEditorView.swift:57-59 | After a push the editor shows a non-nil binding, a nil binding leaves it as it was, and a second push writes nothing. |
| Editor.PredicateChangedGate | PredicateSearchApp/NSPredicateEditorView.swift:74-96 | The callback runs exactly when the editor holds a complete predicate, and then the binding is that predicate; otherwise the binding becomes nil. |
| Editor.Coordinator.constructor | PredicateSearchApp/NSPredicateEditorView.swift:70-72 | The coordinator is tied to its view, and the callback has not run. |
| Editor.Coordinator.PredicateChanged | PredicateSearchApp/NSPredicateEditorView.swift:74-96 | Sets the view's predicate as the gate decides. It runs `ApplyPredicate` and counts one callback exactly when the predicate is complete. Otherwise the predicate becomes nil while the filter flag, the displayed persons and the display string stay as they were. |
| Editor.CompleteEditFilters | PredicateSearchApp/NSPredicateEditorView.swift:93-95 | A complete edit leaves the view filtered by the edited predicate, with its matching persons and its converted string. |
| Editor.ChangeIsNotPushedBack | PredicateSearchApp/NSPredicateEditorView.swift:79-95 | The binding the coordinator leaves is never written back into the editor by the next `updateNSView`. |

## Left out

- `makeNSView` (scroll view setup, `addRow`, target/action wiring and the `DispatchQueue.main.async` layout pass), and the guard in `updateNSView` that finds the editor as the scroll view's document view (NSPredicateEditorView.swift:55): AppKit view construction, wiring and main-queue scheduling. `Editor.UpdateNSView` is handed the editor directly, and the editor control (`Editor.PredicateEditor`) has no constructor in the model because only `makeNSView` creates it.
- SwiftUI layout, `ResultsView`, `PredicateDisplayView`, `AddPersonView` and the app entry point: rendering only.
- `addSampleData` and all of SwiftData: `@Query`, `modelContext.insert` and `save` are persistence. The query result is a field (`allPersons`) that only `QueryUpdated` replaces.
- All `print` logging.
- `showingAddPerson` (ContentView.swift:19): the fifth `@State` value only presents the add-person sheet, which is user interface.
- `NSPredicate.evaluate(with:)` and `predicateFormat`: Foundation behaviour, kept uninterpreted as the fields of `Foundation.PredicateRuntime`. No comparison, case-folding or compound semantics are invented.
- Foundation's `Date` is reduced to whole seconds since the reference date. No floating-point time intervals are modelled.
- Swift's 64-bit `Int` for `age` is an unbounded `int`. The app does no arithmetic on it.
- Strings are sequences of characters. Unicode canonical equivalence, which Swift's `String.contains` and `replacingOccurrences` respect, is not modelled.
- The raw `NSNumber` values of the operators and logical types are modelled as enumeration cases. The options bit mask is modelled as the set of its flags.
- Conversion.ConvertToSwiftDataPredicate: takes the predicate's format string rather than the predicate, because the first thing the Swift function does is read `predicateFormat`.
- Editor.Coordinator.PredicateChanged: the predicate editor's row count, read only for logging, is not modelled. `sender.objectValue as? NSPredicate` is modelled as an optional predicate.
- The coordinator's `predicateEditor` reference (NSPredicateEditorView.swift:68, set at line 41) is not modelled; nothing in the core reads it.
