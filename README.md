# Activity feed rows and settings tables, in Dafny

This project models two small pieces of the Kickstarter iOS app's presentation
layer.

**The activity feed's data source** (`ActivitiesDataSource`). The feed has five
sections: survey, Facebook connect, find friends, activities and empty state.
Each section's raw value is its index in a per-section row store. A row pairs a
value with the cell class that renders it. A static row is a spacer cell known
only by its reuse identifier (`PaddingCell`, `HalfPaddingCell`). Each feed
operation rewrites exactly one section through the store's four primitives:
`set`, `appendRow`, `appendStaticRow` and `clearValues`. The cell configuration
(`configureCell`) is a dispatch over (cell class, value) pairs.

- `value_cell_data_source.dfy` (module `ValueCells`): the row store as a class
  `ValueCellDataSource` with one `seq` of rows per section. The new state of
  every primitive is given by `WithSection`, and two lemmas about it: the last
  write to a section wins, and writes to distinct sections commute.
- `activities_data_source.dfy` (module `ActivityFeed`): the feed's data types,
  the category classification, the dispatch function, and the class
  `ActivitiesDataSource`. Each method states the store's whole new state. The
  object invariant `Valid()` says every stored row reaches a real
  configuration branch, never the assertion branch.

**The settings screen's tables** (`SettingsCellType.swift`). Each settings
section maps to an ordered list of rows. Each row maps to its display
attributes, and the app-version text is built from the bundle's version
strings. The help screen has the same kind of section table.

- `settings_cell_type.dfy` (module `SettingsTables`): the enumerations as
  datatypes with their computed properties as member functions.
- `wrappers.dfy`: `Option`, for Swift optionals.

The store's base class is not part of this model. The model assumes what its
call sites rely on. Writing to a section beyond the current end first pads the
store with empty sections, so a section that was never written has no rows.

When the feed loads its activities, the padding row is appended after the
`switch` on the activity's category (line 92 of the data source). An activity
of an unsupported category therefore still adds one padding row
(`UnsupportedActivityKeepsPadding`).

## Model

| member | source | states |
|---|---|---|
| ValueCells.WithSection | Kickstarter-iOS/DataSources/ActivitiesDataSource.swift:7-13 | writing one section sets that section's rows and leaves every other section's rows as they were; the store grows to cover the section |
| ValueCells.LastWriteWins | Kickstarter-iOS/DataSources/ActivitiesDataSource.swift:15-19 | two writes to the same section leave only the second, so a visible-then-hidden toggle ends with zero rows |
| ValueCells.WritesToDistinctSectionsCommute | Kickstarter-iOS/DataSources/ActivitiesDataSource.swift:7-13 | writes to two different sections give the same store in either order |
| ValueCells.RowsOf | Kickstarter-iOS/DataSources/ActivitiesDataSource.swift:16-18 | `set` stores one row per value, in order, each rendered by the given cell class |
| ValueCells.ValueCellDataSource.Set | Kickstarter-iOS/DataSources/ActivitiesDataSource.swift:16-18 | the section becomes one row per value; nothing else changes |
| ValueCells.ValueCellDataSource.AppendRow | Kickstarter-iOS/DataSources/ActivitiesDataSource.swift:77 | one value row is added at the end of the section; nothing else changes |
| ValueCells.ValueCellDataSource.AppendStaticRow | Kickstarter-iOS/DataSources/ActivitiesDataSource.swift:27 | one static row with the given identifier is added at the end of the section; nothing else changes |
| ValueCells.ValueCellDataSource.ClearValues | Kickstarter-iOS/DataSources/ActivitiesDataSource.swift:42 | the section becomes empty; nothing else changes |
| ActivityFeed.Section.RawValue | Kickstarter-iOS/DataSources/ActivitiesDataSource.swift:7-13 | each section's store index is below five |
| ActivityFeed.RawValueInjective | Kickstarter-iOS/DataSources/ActivitiesDataSource.swift:7-13 | distinct sections use distinct store indices |
| ActivityFeed.ConfigureCell | Kickstarter-iOS/DataSources/ActivitiesDataSource.swift:97-124 | a static row is a no-op; a value row reaches the assertion branch exactly when its value's kind is not the one its cell class displays; otherwise the cell is configured with the row's value unchanged |
| ActivityFeed.CellForCategory | Kickstarter-iOS/DataSources/ActivitiesDataSource.swift:75-90 | only the eight named categories get a cell class; each gets an activity cell; failure, cancellation and suspension, and only they, share the negative-state-change cell |
| ActivityFeed.CategoryCellsDistinct | Kickstarter-iOS/DataSources/ActivitiesDataSource.swift:76-87 | two supported categories share a cell class only when they are equal or both negative state changes |
| ActivityFeed.ActivityRowsFor | Kickstarter-iOS/DataSources/ActivitiesDataSource.swift:75-92 | one activity gives one or two rows and the last is a padding row; it gives two exactly when its category is supported, and then the first shows the activity in the cell class its category selects |
| ActivityFeed.ActivityRows | Kickstarter-iOS/DataSources/ActivitiesDataSource.swift:74-93 | loading n activities gives between n and 2n rows |
| ActivityFeed.ActivityRowsRecognized | Kickstarter-iOS/DataSources/ActivitiesDataSource.swift:74-124 | every row that loading activities produces reaches a real configuration branch, never the assertion branch |
| ActivityFeed.ActivityRowsAppend | Kickstarter-iOS/DataSources/ActivitiesDataSource.swift:74-93 | the rows of a concatenated list are the rows of the first list followed by those of the second |
| ActivityFeed.ActivityRowsLength | Kickstarter-iOS/DataSources/ActivitiesDataSource.swift:74-93 | when every category is supported, n activities give exactly 2n rows |
| ActivityFeed.ActivityRowsAt | Kickstarter-iOS/DataSources/ActivitiesDataSource.swift:74-93 | when every category is supported, activity i with its category's cell is at row 2i and a padding row is at 2i+1 |
| ActivityFeed.ActivityRowsLayout | Kickstarter-iOS/DataSources/ActivitiesDataSource.swift:69-94 | when every category is supported there are exactly 2n rows: activity i with its category's cell at row 2i and a padding row at 2i+1 |
| ActivityFeed.UnsupportedActivityKeepsPadding | Kickstarter-iOS/DataSources/ActivitiesDataSource.swift:88-92 | an activity of an unsupported category adds only a padding row |
| ActivityFeed.ActivitiesDataSource.EmptyState | Kickstarter-iOS/DataSources/ActivitiesDataSource.swift:15-19 | the empty-state section holds one unit row when visible and none otherwise; no other section changes; the invariant is kept |
| ActivityFeed.ActivitiesDataSource.FacebookConnect | Kickstarter-iOS/DataSources/ActivitiesDataSource.swift:21-29 | when visible the section holds the source in the Facebook-connect cell and then a half-padding row; when hidden it is empty; no other section changes |
| ActivityFeed.ActivitiesDataSource.FindFriends | Kickstarter-iOS/DataSources/ActivitiesDataSource.swift:31-39 | when visible the section holds the source in the find-friends header cell and then a half-padding row; when hidden it is empty; no other section changes |
| ActivityFeed.ActivitiesDataSource.RemoveFacebookConnectRows | Kickstarter-iOS/DataSources/ActivitiesDataSource.swift:41-46 | the section is emptied and the result is always rows 0 and 1 of that section, whatever it held |
| ActivityFeed.ActivitiesDataSource.RemoveFindFriendsRows | Kickstarter-iOS/DataSources/ActivitiesDataSource.swift:48-53 | the section is emptied and the result is always rows 0 and 1 of that section, whatever it held |
| ActivityFeed.ActivitiesDataSource.LoadSurveyResponse | Kickstarter-iOS/DataSources/ActivitiesDataSource.swift:55-67 | a response gives the response row then a padding row; no response gives an empty section; no other section changes |
| ActivityFeed.ActivitiesDataSource.AppendActivityRows | Kickstarter-iOS/DataSources/ActivitiesDataSource.swift:74-93 | one pass of the loop adds the activity's rows at the end of the section; the result says whether its category is supported |
| ActivityFeed.ActivitiesDataSource.LoadActivities | Kickstarter-iOS/DataSources/ActivitiesDataSource.swift:69-94 | the section's previous rows are discarded and replaced by the rows of the activities in input order; no other section changes; the flag is set exactly when some category is unsupported |
| SettingsTables.SettingsSectionType.CellRowsForSection | Library/SettingsCellType.swift:45-60 | each section lists one or two rows without repeats, and a row is listed exactly when the row belongs to that section |
| SettingsTables.SettingsSectionType.RawValue | Library/SettingsCellType.swift:62-67 | `allCases` lists every section at the position of its raw value |
| SettingsTables.SectionRowCount | Library/SettingsCellType.swift:45-60 | a section lists a row once when the row belongs to it and not at all otherwise |
| SettingsTables.AllCasesListsSectionOnce | Library/SettingsCellType.swift:62-67 | `allCases` lists every section exactly once |
| SettingsTables.FlattenCount | Library/SettingsCellType.swift:45-60 | across any list of sections, a row appears as often as its own section is listed |
| SettingsTables.EveryCellShownOnce | Library/SettingsCellType.swift:62-79 | the sections of `allCases` together show each of the nine rows exactly once |
| SettingsTables.SettingsScreenOrder | Library/SettingsCellType.swift:45-67 | the settings screen's rows, top to bottom, are account, notifications, newsletters, help, privacy, find friends, log out, rate, app version |
| SettingsTables.AppVersionString | Library/SettingsCellType.swift:144-151 | the text starts with the short version; it equals the short version exactly in release builds; otherwise the rest is " #" and the build version |
| SettingsTables.AppVersionStringRecoversBuild | Library/SettingsCellType.swift:144-151 | in a non-release build the build version is what follows the short version and " #" |
| SettingsTables.SettingsCellType.Description | Library/SettingsCellType.swift:104-111 | only the app-version row has a description, and it is the app-version text |
| SettingsTables.SettingsCellType.ShowArrowImageView | Library/SettingsCellType.swift:113-120 | the arrow is hidden exactly on the log-out and app-version rows |
| SettingsTables.SettingsCellType.TextColor | Library/SettingsCellType.swift:122-129 | the text is red exactly on the log-out row and dark grey 500 everywhere else |
| SettingsTables.SettingsCellType.DetailTextColor | Library/SettingsCellType.swift:131-133 | the detail text is dark grey 400 on every row |
| SettingsTables.DetailTextColorUniform | Library/SettingsCellType.swift:131-133 | every row has the same detail-text colour |
| SettingsTables.SettingsCellType.HideDescriptionLabel | Library/SettingsCellType.swift:135-142 | the description label is shown only on the app-version row |
| SettingsTables.HideDescriptionLabelIffNoDescription | Library/SettingsCellType.swift:104-142 | a row hides its description label exactly when it has no description |
| SettingsTables.SettingsCellType.TitleKey | Library/SettingsCellType.swift:81-102 | every row has a non-empty string key for its title |
| SettingsTables.TitleKeyInjective | Library/SettingsCellType.swift:81-102 | distinct rows use distinct string keys |
| SettingsTables.HelpSectionType.CellRowsForSection | Library/SettingsCellType.swift:164-171 | each help section lists its rows without repeats, and a help row is listed exactly when it belongs to that section |
| SettingsTables.HelpSectionType.RawValue | Library/SettingsCellType.swift:154-162 | `allCases` lists every help section at the position of its raw value |
| SettingsTables.HelpScreenOrder | Library/SettingsCellType.swift:162-171 | the help screen's rows, top to bottom, are help center, contact, terms, privacy, cookie |

## Left out

- Rendering: the UIKit cells and each cell's `configureWith` body are view code. `ConfigureCell` reports only which branch a row reaches.
- ConfigureCell: treats every static row as the no-op branch. That holds only when the cell dequeued for "PaddingCell" or "HalfPaddingCell" is a `StaticTableViewCell`; which cell class a reuse identifier yields is decided by cell registration, which is not part of this model.
- The store base class `ValueCellDataSource` is not part of this model. Its four primitives are modelled on the section lists only. Reuse identifiers, table-view data-source plumbing and cell registration are left out, and so is the padding behaviour beyond what is stated above.
- Crashes: `assertionFailure` stops a debug build. The model follows a release build, which carries on. `LoadActivities` reports an unsupported category through its result flag, and `ConfigureCell` returns `UnrecognizedCombo`.
- Activity categories: the API model's category list is not part of this model. Every category the feed does not name is `Other`.
- Help rows: the `HelpType` enumeration is not part of this model. Only the five rows that the help sections list are modelled.
- Titles: the localized `Strings` lookups are external. Each row's title is modelled by the name of its string (`TitleKey`), not by the translated text.
- Colours are three named tones, not `UIColor` values. `sectionHeaderHeight` is floating-point styling and is left out.
- The main bundle: the short version, build version and release flag are passed in as a `MainBundle` value instead of being read from the app environment.
- `SettingsCurrencyCellValue`, `SettingsCellValue` and the `SettingsCellTypeProtocol` declaration are plain records and a protocol with no behaviour.
- Inheritance: `ActivitiesDataSource` holds its store as a field rather than subclassing it, because the model does not use traits. The rows and their order are unaffected.
