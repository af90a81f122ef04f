# CRM sales console — a verified model of its UI logic

This project models the decision logic of a CRM web application's sales console and proves
properties about it. The console covers leads, deals, pipelines, tasks, activities, products,
quotes, invoices and company settings. What is modelled is what the React components compute
and change, with rendering left aside:

- **Kanban drag and drop.** The task board and the deal pipeline board share one drop handler.
  It splices the dragged card out of its column and into the target column, re-tags its status
  when the column changes, and emits the `{id, status, position}` updates the server persists.
  `Reconcile` models that handler once, generic over the column key. `ReconcileProperties`
  proves the following about it:
  - the payload names each card at most once;
  - every position it carries is a multiple of 1000 in 1000..1,000,000;
  - it lists exactly the cards whose stored position is stale;
  - once persisted, both touched columns are numbered slot by slot;
  - no card is lost or duplicated;
  - ids stay unique;
  - the reverse drag restores the board.
- **Building the boards.** The task board groups tasks by status and sorts each column by
  position (`DataKanban`, a class holding the board). The pipeline board keys stages by name in
  `order` order (`PipelineKanban`). JavaScript's stable `Array.prototype.sort` is a stable
  insertion sort (`Sorting`).
- **The lead page's status workflow** (`LeadView`). It covers:
  - the status menu;
  - the confirmation dialog and its gates (qualified before converting, contacted and
    checklist met before qualifying);
  - the deal form filled in on conversion;
  - the deal creation that marks the lead converted;
  - the blank-note guard.

  The workflow is a step function over a page state. An invariant is proved to hold on every
  reachable page. A class mirrors the component's state hooks, one method per handler, each
  proved to be one step.
- **List pages.** These cover query parameters, filter toggles, pagination and badges:
  - the leads, companies, products, tasks and activities overviews;
  - the pipeline table;
  - the calendar;
  - the deal activity feed;
  - lead notes;
  - the settings page's country picker.
- **Aggregations.** These cover the pipeline summary (nested loops), column headers, product
  statistics and averages.
- **Forms.** These cover the invoice and quote forms' defaults, their pre-fill from a quote or a
  deal, and the contact-person pickers. They also cover the close-deal popover and the deal
  documents panel.

Conventions:

- Timestamps are integer milliseconds, and durations and money are integers. Product prices are
  exact reals.
- Missing values are `Option`. JavaScript truthiness of a string is "present and non-empty".
- Remote calls (tRPC mutations) are steps that succeed or fail. The outcome is a parameter.

## Model

| member | source | states |
|---|---|---|
| Reconcile.SlotPosition | data-kanban.tsx:118 | The position written for a slot is a multiple of 1000 between 1000 and 1,000,000 |
| Reconcile.RemoveAt | data-kanban.tsx:94-95 | `splice(i, 1)` removes exactly the card at `i`: the others keep their order, one fewer, same multiset minus that card |
| Reconcile.InsertAt | data-kanban.tsx:110-111 | `splice(i, 0, x)` puts `x` at `min(i, length)` and shifts the rest; the multiset gains exactly `x` |
| Reconcile.Reconcile | data-kanban.tsx:91-151 | The updater's result: with no card at the source index, the board is unchanged and the payload empty; otherwise the board is the move's result and the payload is the specified one |
| Reconcile.PushRenumbered | data-kanban.tsx:122-147 | A `forEach` pass appends exactly the renumbering entries of the column, in order, skipping the moved card |
| ReconcileProperties.Persist | data-kanban.tsx:153 | Applying payload entries to a stored card never changes its id |
| ReconcileProperties.SlotPositionOrder | data-kanban.tsx:124 | Slot positions are non-decreasing along a column and strictly increasing up to index 999; from 999 on all equal 1,000,000 |
| ReconcileProperties.RenumberedExactly | data-kanban.tsx:122-133 | An entry is emitted for exactly the non-skipped cards whose stored position differs from their slot, with that slot and the column's status |
| ReconcileProperties.RenumberedDistinct | data-kanban.tsx:122-133 | One pass over a column with distinct ids emits no id twice |
| ReconcileProperties.RemoveInserted | data-kanban.tsx:94-111 | Removing a just-inserted card restores the column |
| ReconcileProperties.InsertRemoved | data-kanban.tsx:94-111 | Re-inserting a removed card at its index restores the column |
| ReconcileProperties.MoveKeepsCards | data-kanban.tsx:91-112 | A move keeps the board's columns; it leaves the other columns untouched; the two columns together keep the same cards, with only the moved card's status changed; the card lands at the requested or the last index |
| ReconcileProperties.MoveBackRestores | data-kanban.tsx:91-112 | Dragging the card back from where it landed restores the board, within a column or across columns when its status named its column |
| ReconcileProperties.MoveKeepsIdsDistinct | data-kanban.tsx:91-112 | A move keeps card ids unique on the board |
| ReconcileProperties.MoveKeepsStatusMatch | data-kanban.tsx:101-112 | A move keeps every card in the column its status names |
| ReconcileProperties.PayloadExactly | data-kanban.tsx:114-148 | The payload is the moved card at its requested slot first, then exactly the stale cards of the destination column and, across columns, of the source column |
| ReconcileProperties.PayloadPositionsBounded | data-kanban.tsx:115-148 | Every payload position is a multiple of 1000 in 1000..1,000,000 and names one of the two columns |
| ReconcileProperties.MovedCardLanding | data-kanban.tsx:110-112 | The moved card sits at the landing index of the column it was inserted into |
| ReconcileProperties.PayloadIdsDistinctOn | data-kanban.tsx:114-148 | On a result board with unique ids, no id occurs twice in the payload |
| ReconcileProperties.PayloadIdsDistinct | data-kanban.tsx:91-153 | On a board with unique ids, the payload of a move names no id twice |
| ReconcileProperties.PersistUntouched | data-kanban.tsx:153 | Entries for other ids leave a stored card as it is |
| ReconcileProperties.PersistPosition | data-kanban.tsx:153 | A card whose every entry carries `pos`, and which has one unless it already stores `pos`, is stored at `pos` |
| ReconcileProperties.PersistStatus | data-kanban.tsx:153 | The same for the status |
| ReconcileProperties.PersistedMovedCardOn | data-kanban.tsx:115-119 | After persisting, the moved card has the destination status and the slot of the requested index |
| ReconcileProperties.PersistedDestinationOn | data-kanban.tsx:114-133 | With the card at the requested index, persisting numbers the destination column slot by slot and keeps its statuses |
| ReconcileProperties.PersistedSourceOn | data-kanban.tsx:135-148 | Across columns, persisting numbers the source column slot by slot and keeps its statuses |
| ReconcileProperties.PersistedOthersOn | data-kanban.tsx:114-148 | Persisting changes no card outside the two columns |
| ReconcileProperties.PersistedMove | data-kanban.tsx:80-154 | On a board with unique ids, the persisted state after a move: the moved card is in the destination at its slot, other columns are unchanged, and both columns are numbered when the index is a real slot |
| ReconcileProperties.PersistedMoveStatuses | data-kanban.tsx:101-148 | On a board whose statuses name their columns, both persisted columns keep naming their column |
| ReconcileProperties.RenumberedNumbered | data-kanban.tsx:125 | A column already numbered slot by slot yields no renumbering entries |
| ReconcileProperties.DropInPlace | data-kanban.tsx:91-133 | Dropping a card onto its own slot leaves the board as it was; on a numbered column the payload is just the card's entry |
| Sorting.Insert | data-kanban.tsx:53-55 | Insertion adds exactly the new element: one longer, same multiset plus it |
| Sorting.SortBy | data-kanban.tsx:53-55 | The result is sorted by the key and is a permutation of the input |
| Sorting.InsertKeepsTies | data-kanban.tsx:53-55 | Inserting keeps the relative order of elements tying with the inserted one |
| Sorting.SortByIsStable | data-kanban.tsx:53-55 | The sort is stable: for every key the elements with that key keep their input order |
| Sorting.SortBySorted | data-kanban.tsx:53-55 | A list already in order is left unchanged |
| DataKanban.ColumnIndex | data-kanban.tsx:41-46 | Each status has its own column, from left to right: backlog, todo, in-progress, done |
| DataKanban.CollectByStatus | data-kanban.tsx:48-50 | The push loop puts into each column exactly the tasks of that status, in input order |
| DataKanban.GroupByStatus | data-kanban.tsx:40-78 | Collecting and then sorting each column yields the built board |
| DataKanban.GroupedByColumns | data-kanban.tsx:52-56 | A board whose columns are the sorted collections is the built board |
| DataKanban.OfStatusMembers | data-kanban.tsx:48-50 | A task is collected for a status exactly when it occurs in the data with that status |
| DataKanban.GroupedPlacesEachTask | data-kanban.tsx:48-56 | Every task lands in exactly the column its status names |
| DataKanban.OfStatusCount | data-kanban.tsx:48-50 | A task is collected into its own status as often as it occurs, and never into another |
| DataKanban.OfStatusPartition | data-kanban.tsx:48-50 | The four columns together are a permutation of the data |
| DataKanban.GroupedKeepsTasks | data-kanban.tsx:40-59 | The built board holds exactly the data's tasks, each column sorted by position |
| DataKanban.GroupedKeepsTies | data-kanban.tsx:53-55 | Tasks of one column with equal positions keep their input order |
| DataKanban.TaskBoard.constructor | data-kanban.tsx:37-59 | The initial board is the board built from the data |
| DataKanban.TaskBoard.Refresh | data-kanban.tsx:61-78 | The effect rebuilds the board from the new data |
| DataKanban.TaskBoard.OnDragEnd | data-kanban.tsx:80-154 | A read-only board or a drop outside every column changes nothing and sends nothing; otherwise the board and the payload are `Reconcile`'s, and the board stays well formed |
| PipelineKanban.FromStagesSnoc | pipeline-kanban.tsx:33-38 | A later entry sets its name's column |
| PipelineKanban.BuildPipeline | pipeline-kanban.tsx:30-53 | The loop builds exactly the specified state |
| PipelineKanban.FromStagesKey | pipeline-kanban.tsx:33-38 | A name is a key exactly when some stage carries it |
| PipelineKanban.FromStagesValue | pipeline-kanban.tsx:33-38 | Every key holds the sorted deals of some stage with that name |
| PipelineKanban.FromStagesLastWins | pipeline-kanban.tsx:33-38 | With duplicate names, the last stage carrying a name provides its deals |
| PipelineKanban.SortedStagesSame | pipeline-kanban.tsx:31 | Sorting the stages keeps exactly the same stages |
| PipelineKanban.BuiltKeys | pipeline-kanban.tsx:30-41 | The state's keys are exactly the stage names |
| PipelineKanban.BuiltColumn | pipeline-kanban.tsx:30-41 | Every column is sorted by position and holds exactly the deals of a stage of that name |
| PipelineKanban.BuiltDistinctNames | pipeline-kanban.tsx:30-41 | With distinct names, each stage's column is its own deals, sorted |
| PipelineKanban.SameNameSameStage | pipeline-kanban.tsx:33-38 | With distinct names, two stages sharing a name are one stage |
| PipelineKanban.PipelineBoard.constructor | pipeline-kanban.tsx:30-41 | The initial state is the built state |
| PipelineKanban.PipelineBoard.Refresh | pipeline-kanban.tsx:43-53 | The effect rebuilds the state from the new stages |
| PipelineKanban.PipelineBoard.OnDragEnd | pipeline-kanban.tsx:55-135 | A drop outside every stage changes nothing; otherwise the state and the payload are `Reconcile`'s, the keys stay the same and unique deal ids stay unique |
| KanbanHeader.TotalValueAppend | kanban-header.tsx:13 | The total over two runs of deals is the sum of their totals |
| KanbanHeader.OverdueCount | kanban-header.tsx:14-16 | The overdue count is at most the number of deals |
| KanbanHeader.OverdueCountAppend | kanban-header.tsx:14-16 | Overdue counts add up over runs of deals |
| KanbanHeader.MissingDateCountedOverdue | kanban-header.tsx:15 | A deal without an expected close date compares as time 0, so it is counted overdue at any positive time |
| KanbanHeader.AverageHealth | kanban-header.tsx:17-25 | 0 without deals, else the mean health rounded half up |
| KanbanHeader.AverageHealthBounded | kanban-header.tsx:17-25 | With scores in 0..100, the average is in 0..100 |
| KanbanHeader.IndicatorBands | kanban-header.tsx:58-73 | Green from 70, amber from 40, red below, N/A at 0 or below |
| KanbanHeader.DisplayNameReplacesFirst | kanban-header.tsx:40 | A name without " & " is shown as it is; otherwise only the first " & " becomes one space |
| KanbanHeader.HeaderStats | kanban-header.tsx:13-25 | The header counts every deal and at most that many overdue; an empty column shows 0, 0 and N/A |
| Wrappers.RoundDiv | kanban-header.tsx:19-24 | `Math.round(a / n)`: twice the distance to `a / n` is at most `n`, halves rounding up |
| Wrappers.RoundDivBounds | kanban-header.tsx:19-24 | A rounded mean of values in `lo..hi` is in `lo..hi` |
| ManagePipeline.OutcomesDisjoint | manage-pipeline.tsx:173-189 | A deal is at most one of won, lost and overdue |
| ManagePipeline.SummaryOf | manage-pipeline.tsx:157-191 | The counters: won, lost and overdue together never exceed the total |
| ManagePipeline.Summarize | manage-pipeline.tsx:157-204 | The nested loops compute exactly the counters over all deals, stage after stage |
| ManagePipeline.CountStage | manage-pipeline.tsx:168-190 | The inner loop adds exactly one stage's deals to the counters |
| ManagePipeline.TotalIsSumOfStages | manage-pipeline.tsx:167-169 | The total deal count is the sum of the stages' deal counts |
| ManagePipeline.AverageHealth | manage-pipeline.tsx:193-194 | 0 without deals, else the mean in hundredths rounded half up |
| ManagePipeline.AverageHealthBounded | manage-pipeline.tsx:193-194 | With scores in 0..100, the average is in 0..100 |
| ManagePipeline.PipelinePage.constructor | manage-pipeline.tsx:119-128 | No bulk update has been sent |
| ManagePipeline.PipelinePage.HandleOnPipelineChange | manage-pipeline.tsx:130-140 | The board's payload is sent once, unchanged, as one bulk update |
| PipelineTable.FlattenMembers | pipeline-table.tsx:44-46 | A deal is flattened exactly when some stage holds it |
| PipelineTable.TableDealsComplete | pipeline-table.tsx:43-48 | The table lists a permutation of all stages' deals in creation order, and the row count is the sum of the stage counts |
| PipelineTable.TableDealsTies | pipeline-table.tsx:47 | Deals created at the same instant keep their stage-by-stage order |
| PipelineTable.HealthLabelBands | pipeline-table.tsx:50-66 | Healthy from 80, Warning from 50, At Risk below, and the colour always matches the label |
| PipelineTable.FindStage | pipeline-table.tsx:58 | `find` returns the first stage with the id, or none when no stage has it |
| PipelineTable.StageColor | pipeline-table.tsx:56-60 | The colour is "bg-muted" or the colour of a stage with that id |
| PipelineTable.StageColorCases | pipeline-table.tsx:56-60 | The colour is "bg-muted" without such a stage; else the first such stage's colour when non-empty, else "bg-muted" |
| PipelineTable.DaysSinceAntitone | pipeline-table.tsx:68-74 | An earlier stage entry never shows fewer days |
| PipelineTable.SortedByDaysOrder | pipeline-table.tsx:184-188 | Sorting by days keeps the rows, sorted by day count |
| LeadView.Prefilled | view-lead-component.tsx:303-324 | The deal form gets the lead's id and name, its estimated value if any, the first stage and its probability if any, and the assignee |
| LeadView.Step | view-lead-component.tsx:213-518 | No handler changes anything of the lead but its status, and none loads or drops the lead |
| LeadView.MenuEntries | view-lead-component.tsx:652-695 | Convert is listed exactly for a qualified lead and enabled exactly when the checklist is met; no entry writes a status without confirmation |
| LeadView.NoLeadRefuses | view-lead-component.tsx:215-217 | Without lead data every request returns `false` and changes nothing |
| LeadView.ConvertGate | view-lead-component.tsx:220-246 | Convert opens its confirmation exactly for a qualified lead and never changes the lead |
| LeadView.QualifyGate | view-lead-component.tsx:249-273 | Qualify opens its confirmation exactly for a lead that was contacted and meets the checklist, and changes nothing |
| LeadView.OtherRequests | view-lead-component.tsx:275-292 | Unqualify always asks for confirmation; any other status is written at once, and only on success |
| LeadView.ConfirmEffects | view-lead-component.tsx:299-357 | Confirming qualify or unqualify writes that status and closes on success; confirming convert keeps the status, fills the deal form, closes the dialog and opens the deal modal |
| LeadView.BlankNoteRejected | view-lead-component.tsx:363-366 | A blank note changes nothing |
| LeadView.InitialInv | view-lead-component.tsx:74-89 | A fresh page satisfies the invariant |
| LeadView.StepKeepsInv | view-lead-component.tsx:213-518 | Every enabled event keeps the invariant: an open dialog has an action; convert and the deal modal only for a qualified lead; qualify only for a contacted lead; dialog and modal never both open |
| LeadView.ConvertedOnlyAfterDeal | view-lead-component.tsx:498-518 | A lead becomes converted only through a successful deal creation from the modal, which is open only for a qualified lead, and the deal is recorded first |
| LeadView.QualifiedOnlyByConfirm | view-lead-component.tsx:249-357 | A lead becomes qualified only by confirming the qualify dialog opened for a contacted lead, and only on success |
| LeadView.StatusColorsDistinct | view-lead-component.tsx:384-399 | Distinct statuses get distinct colours, none the neutral one |
| LeadView.LeadPage.constructor | view-lead-component.tsx:74-89 | The page starts in the initial state |
| LeadView.LeadPage.HandleStatusChange | view-lead-component.tsx:213-297 | The handler performs one status-change step and returns `false` exactly where it refuses |
| LeadView.LeadPage.HandleConfirmAction | view-lead-component.tsx:299-357 | The field-by-field `setValue`s perform exactly one confirm step |
| LeadView.LeadPage.CancelConfirm | view-lead-component.tsx:789-814 | Cancel closes the dialog, as one step |
| LeadView.LeadPage.HandleOnCreateDeal | view-lead-component.tsx:498-518 | Creating the deal and then marking the lead converted is one step |
| LeadView.LeadPage.CloseDealModal | view-lead-component.tsx:892-895 | Closing the modal resets the deal form, as one step |
| LeadView.LeadPage.EditNote | view-lead-component.tsx:860-865 | Typing a note is one step |
| LeadView.LeadPage.CancelNote | view-lead-component.tsx:874 | Cancel closes and clears the note dialog, as one step |
| LeadView.LeadPage.HandleContactNoteSubmit | view-lead-component.tsx:359-382 | Submitting a note is one step |
| LeadsOverview.QueryMapping | leads-overview.tsx:82-91 | "all" sends no status and no source, and anything else sends exactly that value; an empty search sends none |
| LeadsOverview.LeadsPage.constructor | leads-overview.tsx:52-58 | The filters start at "all", an empty search, all leads, page 1 of 10 |
| LeadsOverview.LeadsPage.StatusChange | leads-overview.tsx:61-64 | The status is set and the page goes back to 1 |
| LeadsOverview.LeadsPage.SourceChange | leads-overview.tsx:66-69 | The source is set and the page goes back to 1 |
| LeadsOverview.LeadsPage.SearchChange | leads-overview.tsx:71-74 | The search is set and the page goes back to 1 |
| LeadsOverview.LeadsPage.UnassignedToggle | leads-overview.tsx:76-79 | The switch is set and the page goes back to 1 |
| LeadsOverview.LeadsPage.PageChange | leads-overview.tsx:440 | Only the page changes |
| LeadsOverview.LeadsPage.PageSizeChange | leads-overview.tsx:441 | Only the page size changes: the page is kept |
| LeadsOverview.QualificationColorBands | leads-overview.tsx:93-97 | Green from 75, yellow from 50, red below; a missing score is red |
| LeadsOverview.DiffDays | leads-overview.tsx:112-114 | Whole days elapsed, rounded down |
| LeadsOverview.FormatDateBuckets | leads-overview.tsx:108-124 | No date is "Never", 0 days "Today", 1 "Yesterday", other counts below 7 "N days ago", 7 or more the date |
| LeadsOverview.SameDayIsToday | leads-overview.tsx:112-116 | A contact less than a day ago shows "Today" |
| LeadsOverview.NoLeadsMessageCases | leads-overview.tsx:279-285 | "Try adjusting your filters" exactly when a search, status or source filter is set |
| CompaniesOverview.Defined | companies-overview.tsx:69-70 | `value \|\| undefined`: the value when non-empty, else none |
| CompaniesOverview.ListQuery | companies-overview.tsx:68-73 | The query asks for `pageSize` rows and sends a search or an industry exactly when it is non-empty |
| CompaniesOverview.ListQueryOffsets | companies-overview.tsx:72 | Page 1 starts at 0 and consecutive pages ask for adjacent, disjoint runs of rows |
| CompaniesOverview.TotalPages | companies-overview.tsx:79 | `ceil(total / pageSize)`: no pages exactly without companies, else the pages cover the total with less than one page to spare |
| CompaniesOverview.RangeWithinTotal | companies-overview.tsx:370-371 | On any page from 1 to the page count the range is a non-empty run of at most `pageSize` rows within 1..total, starting right after the offset |
| CompaniesOverview.CompaniesPage.constructor | companies-overview.tsx:50-56 | Empty search and industry, page 1 of 10 |
| CompaniesOverview.CompaniesPage.SearchChange | companies-overview.tsx:82-85 | The search is set and the page goes back to 1 |
| CompaniesOverview.CompaniesPage.IndustryChange | companies-overview.tsx:87-90 | The industry is set verbatim and the page goes back to 1 |
| CompaniesOverview.CompaniesPage.PageSizeChange | companies-overview.tsx:378-381 | The page size is set and the page goes back to 1 |
| CompaniesOverview.CompaniesPage.First | companies-overview.tsx:398 | The page becomes 1 |
| CompaniesOverview.CompaniesPage.Prev | companies-overview.tsx:406-408 | One page back, never below 1 |
| CompaniesOverview.CompaniesPage.Next | companies-overview.tsx:423-425 | One page on, never past the page count |
| CompaniesOverview.CompaniesPage.Last | companies-overview.tsx:433 | The page becomes the page count |
| CompaniesOverview.DisabledIffNoMove | companies-overview.tsx:395-437 | On a page from 1 to the page count, a button is disabled exactly when pressing it would not move |
| ProductsList.QueryMapping | products-list.tsx:63-68 | An empty search and "all" send nothing; another type is sent as is; "active" asks for active products and any other status for inactive ones |
| ProductsList.Active | products-list.tsx:100 | Exactly the active products, never more than all |
| ProductsList.ActiveCount | products-list.tsx:99-100 | Active is at most total; all are active exactly when every product is, and none exactly when none is |
| ProductsList.ActiveAtMostTotal | products-list.tsx:99-100 | The active count never exceeds the total, and both are 0 before loading |
| ProductsList.SumBounds | products-list.tsx:101-102 | Prices in `lo..hi` sum to between `n·lo` and `n·hi` |
| ProductsList.AveragePriceSpec | products-list.tsx:101-103 | With prices in `lo..hi`, the average is in `lo..hi` |
| ProductsList.CategoriesSpec | products-list.tsx:199 | A category is counted exactly when some product has it and it is non-empty, and there are at most as many as products |
| ProductsList.DeleteRequest | products-list.tsx:92-96 | A delete is requested exactly when the user confirms, and for that product |
| TasksOverview.ToggleFilter | tasks-overview.tsx:29-39 | A toggle changes only the list it names |
| TasksOverview.ToggleFilterEffect | tasks-overview.tsx:29-39 | A toggle removes every copy of a selected value or appends an unselected one; toggling twice restores the filters |
| TasksOverview.ClearFilters | tasks-overview.tsx:41-45 | Clearing leaves no filter and no search |
| TasksOverview.ActiveFilterCount | tasks-overview.tsx:47 | The badge counts at least every selected status and type |
| TasksOverview.ClearAllShown | tasks-overview.tsx:47-97 | "Clear all" is shown exactly when a filter is set, and clearing leaves none |
| FilterToggle.Remove | tasks-overview.tsx:32 | `filter(v => v !== value)` drops every copy of the value and keeps the rest in order |
| FilterToggle.RemoveAbsent | activities-overview.tsx:27 | Removing an absent value changes nothing |
| FilterToggle.ToggleMembership | activities-overview.tsx:24-31 | The value flips presence and every other value keeps its count |
| FilterToggle.ToggleTwice | activities-overview.tsx:24-31 | Toggling an absent value twice restores the list |
| ActivitiesOverview.SelectFilterEffect | activities-overview.tsx:24-31 | Selecting removes a selected type and appends an unselected one |
| ActivitiesOverview.OfTypesCount | activities-overview.tsx:35 | Each activity of a selected type is kept as often as it occurs, and any other is dropped |
| ActivitiesOverview.OfTypesInOrder | activities-overview.tsx:35 | The kept activities are in their original order |
| ActivitiesOverview.FilteredSpec | activities-overview.tsx:34-36 | No selection shows all; otherwise exactly the activities of selected types, in order |
| ActivitiesOverview.ClearFilters | activities-overview.tsx:92 | Clearing leaves no selection |
| ActivitiesOverview.ClearShowsAll | activities-overview.tsx:87-97 | After clearing, the button is hidden and every activity is shown |
| ActivitiesCalendar.Scheduled | activities-calendar.tsx:149 | Only scheduled activities are kept |
| ActivitiesCalendar.ToEvents | activities-calendar.tsx:150-170 | One event per activity, each taken from its activity |
| ActivitiesCalendar.ScheduledCount | activities-calendar.tsx:149 | A scheduled activity is kept as often as it occurs; an unscheduled one never |
| ActivitiesCalendar.ScheduledInOrder | activities-calendar.tsx:149 | The kept activities are in their original order |
| ActivitiesCalendar.EventsSpec | activities-calendar.tsx:144-171 | The events are exactly those of the scheduled activities, in order, each with its activity's id, title, start and resource |
| ActivitiesCalendar.EndTimeSpec | activities-calendar.tsx:152-154 | A non-zero duration lasts that many minutes, a zero or missing one an hour; a non-negative duration ends after it starts |
| ActivitiesCalendar.UnknownKindFallback | activities-calendar.tsx:45-80 | An unknown type shows like a note; the other known types each have their own icon and colour |
| ActivitiesCalendar.NavigateRoundTrip | activities-calendar.tsx:174-182 | Back and then Next return to the month shown |
| DealActivities.Tagged | deal-activities.tsx:111-121 | Every tagged entry carries the list's tags, one per activity, in order |
| DealActivities.AllActivitiesShape | deal-activities.tsx:110-129 | One entry per activity, newest first, read-only exactly when it comes from the lead |
| DealActivities.TaggedMember | deal-activities.tsx:111-121 | An entry is in a tagged list exactly when it carries the tags and an activity of that list |
| DealActivities.EntriesListed | deal-activities.tsx:110-129 | A deal activity is an editable deal entry, and a lead activity a read-only lead entry, exactly when the deal or lead has it |
| DealActivities.UndatedLast | deal-activities.tsx:124-127 | An undated activity sorts after every activity dated after time 0 |
| DealActivities.SameDateKeepsOrder | deal-activities.tsx:124-127 | Entries of one date keep deal-then-lead order, each list in its own order |
| DealActivities.StatusBadgeLabels | deal-activities.tsx:56-90 | Tasks read Completed, In Progress or Scheduled; meetings read Scheduled; other types their raw status |
| DealActivities.ActivityColorFaded | deal-activities.tsx:53 | The read-only colour is the base colour plus " opacity-75"; others keep it |
| DealActivities.EntryKeyInjective | deal-activities.tsx:165 | Two entries share a key only when they share source and id |
| DealActivities.ToggleExpandedEffect | deal-activities.tsx:177-183 | The clicked entry is expanded afterwards exactly when it was not |
| LeadNotes.SortedNotesSpec | lead-notes.tsx:24-31 | The timeline is a permutation of the notes, newest first; undated notes count as time 0; ties keep loaded order |
| LeadNotes.InitialsOfWord | lead-notes.tsx:76-81 | A one-word name gives its first letter, upper-cased |
| LeadNotes.InitialsOfWords | lead-notes.tsx:76-81 | A leading word contributes its initial, then the rest's initials follow |
| LeadNotes.AvatarOf | lead-notes.tsx:76-82 | With a name the avatar shows initials, otherwise the icon |
| LeadNotes.TagListPieces | lead-notes.tsx:122 | The pieces joined by commas give back the tags text |
| LeadNotes.TagChip | lead-notes.tsx:122-127 | Each chip is its piece trimmed, so it is clean |
| Text.Trim | lead-notes.tsx:127 | `trim()` keeps a slice with no white space at either end |
| Text.TrimSlice | view-lead-component.tsx:363 | The trimmed text is a slice with only white space around it |
| Text.TrimEmptyIff | view-lead-component.tsx:363 | A text trims to nothing exactly when it is all white space |
| Text.TrimControlSpaces | lead-notes.tsx:127 | Vertical tab, form feed and no-break space are trimmed like a space |
| Text.JoinSplit | lead-notes.tsx:122 | Joining the pieces of a split with the separator gives back the text |
| Text.ContainsIff | _client.tsx:58 | `includes` holds exactly when the pattern occurs at some offset |
| Text.ReplaceFirstSpec | kanban-header.tsx:40 | `replace` with a string rewrites only the first occurrence |
| Text.ToLowerIdempotent | _client.tsx:58 | Lower-casing twice is lower-casing once |
| Text.NatTextRoundTrip | create-invoice-form.tsx:146-147 | The decimal text of a number reads back as the number |
| Text.IntTextSign | create-invoice-form.tsx:146-147 | The text of an integer starts with '-' exactly when it is negative |
| DocumentForms.FullName | create-quote-form.tsx:166 | "first last": first name, one space, last name |
| DocumentForms.Subtitle | create-invoice-form.tsx:169-171 | "city, province", the city alone, or none without a city |
| DocumentForms.CompanyOptions | create-invoice-form.tsx:164-174 | One option per company, in order, with its id, name and subtitle |
| DocumentForms.FindById | create-invoice-form.tsx:180-182 | `find` by id, for companies and persons alike: the first element with the id, or none when there is none |
| DocumentForms.PersonsSpec | create-quote-form.tsx:138-147 | The persons of the first company with the selected id; none without companies, a selection or such a company |
| DocumentForms.SelectPersonSpec | create-quote-form.tsx:237-250 | An offered person fills in "first last" and their e-mail; an id not offered changes only the person id |
| CreateInvoiceForm.QuoteIdOf | create-invoice-form.tsx:75 | The default quote id wins over the URL's, and neither gives none |
| CreateInvoiceForm.FromQuoteItemSpec | create-invoice-form.tsx:143-150 | Quantity, unit price, discount and tax read back as the line's numbers; a missing discount or tax becomes "0" |
| CreateInvoiceForm.AppendLines | create-invoice-form.tsx:141-151 | One item per quote line, in order |
| CreateInvoiceForm.InvoiceForm.constructor | create-invoice-form.tsx:101-124 | The defaults: the given company, deal and quote or "", due in 30 days, one blank item |
| CreateInvoiceForm.InvoiceForm.ApplyQuote | create-invoice-form.tsx:135-162 | The quote's id; its lines replace the items when it has some; client, deal, name and e-mail from the quote; the person only when set |
| CreateInvoiceForm.InvoiceForm.SelectContact | create-invoice-form.tsx:253-266 | Picking a person among the selected organization's |
| CreateInvoiceForm.InvoiceForm.Submit | create-invoice-form.tsx:191-198 | The invoice is created exactly when the request succeeds, the flag is cleared however it ends, and no field changes |
| CreateQuoteForm.AddressOf | create-quote-form.tsx:154-158 | The address is "" before the companies are loaded |
| CreateQuoteForm.AddressOfSpec | create-quote-form.tsx:154-158 | The first address line of the first company with the id, "" without one |
| CreateQuoteForm.QuoteForm.constructor | create-quote-form.tsx:99-120 | The defaults: the given organization and deal or "", and one blank item |
| CreateQuoteForm.QuoteForm.ApplyDeal | create-quote-form.tsx:149-172 | The organization and its address when the deal has one, the primary contact when there is one, and always the deal id |
| CreateQuoteForm.QuoteForm.SelectContact | create-quote-form.tsx:237-250 | Picking a person among the selected organization's |
| CreateQuoteForm.QuoteForm.Submit | create-quote-form.tsx:174-181 | The quote is created exactly when the request succeeds, the flag is cleared however it ends, and no field changes |
| LeadColumns.StatusVariantCases | columns.tsx:30-45 | Secondary exactly for "contacted", destructive exactly for "lost", any letter case; default otherwise |
| LeadColumns.MenuEntries | columns.tsx:118-129 | The two entries never show together, and a lost lead shows neither |
| LeadColumns.ConvertRequestSpec | columns.tsx:80-84 | The deal title is the name plus " - Deal", distinct names give distinct titles, value 5000 and probability 50 |
| CloseDealButton.StatusText | close-deal-button.tsx:15 | A deal is never closed as "ongoing" |
| CloseDealButton.TitlesDiffer | close-deal-button.tsx:42-53 | "Mark as won" on a default button and "Mark as lost" on a destructive one |
| CloseDealButton.CloseButton.constructor | close-deal-button.tsx:23-24 | Closed, no reason, nothing saved |
| CloseDealButton.CloseButton.SetOpen | close-deal-button.tsx:59 | Only the popover's open flag changes |
| CloseDealButton.CloseButton.TypeReason | close-deal-button.tsx:70-78 | Only the reason changes |
| CloseDealButton.CloseButton.Confirm | close-deal-button.tsx:26-33 | `onSave` is called once with the status and the reason; the popover closes and the reason clears |
| CloseDealButton.CloseButton.Cancel | close-deal-button.tsx:83 | The popover closes and `onSave` is not called |
| CloseDealButton.ConfirmLost | close-deal-button.tsx:26-33 | Typing a reason for a lost deal and confirming reports that reason once |
| CloseDealButton.CancelThenConfirmWon | close-deal-button.tsx:26-33 | Cancel reports nothing; confirming a won deal then reports it once without a reason |
| DealDocuments.TotalText | deal-documents.tsx:52 | The amount shown is never empty |
| DealDocuments.PanelChoice | deal-documents.tsx:34-115 | Invoice wins over quote; a quote shows only without an invoice; neither gives a link with the deal's id |
| DealDocuments.PanelBadges | deal-documents.tsx:40-81 | An expired quote is flagged and destructive; an invoice is default exactly when paid; a missing total reads "0.00" |
| StakeholderItem.RoleColors | stakeholder-item.tsx:7-22 | Five roles, five colours; every other role is gray |
| StakeholderItem.SentimentColors | stakeholder-item.tsx:24-35 | Positive is green, negative red, anything else or none gray |
| StakeholderItem.Stars | stakeholder-item.tsx:37-41 | One to three stars |
| StakeholderItem.StarBands | stakeholder-item.tsx:37-41 | Three from 75, two from 50, one below; more influence never shows fewer stars |
| StakeholderItem.RowSpec | stakeholder-item.tsx:48 | "first last", and "Active" exactly for an engaged stakeholder |
| SettingsPage.FilteredCountries | _client.tsx:55-61 | Every listed country matches the search |
| SettingsPage.EmptyTermListsAll | _client.tsx:55-61 | An empty search lists every country |
| SettingsPage.FilteredCount | _client.tsx:55-61 | Each matching country is listed as often as it occurs, no other |
| SettingsPage.FilteredInOrder | _client.tsx:55-61 | Listed countries keep their order |
| SettingsPage.FilterIgnoresCase | _client.tsx:58 | The term's letter case never changes the list |
| SettingsPage.CopyKeys | _client.tsx:49-51 | Every stored key takes its stored value; every other field keeps its value |
| SettingsPage.Settings.constructor | _client.tsx:35-45 | The default form values, empty search |
| SettingsPage.Settings.LoadSettings | _client.tsx:47-53 | Without settings nothing changes; otherwise each stored key takes its value and every other field keeps its own |
| SettingsPage.Settings.SearchCountry | _client.tsx:199-201 | The search term is stored lower-cased |

## Left out

- Rendering, styling classes, icons, toasts, routing, query caching and invalidation are left
  out. So are tRPC transport, `console` output and React's render scheduling. A remote call is
  a parameter that succeeds or fails.
- Each drop is one atomic step. React may run a `setState` updater twice (StrictMode), or after
  the handler returns with an empty payload. That ordering of the updater and `onChange` is
  left out.
- DataKanban.TaskBoard.OnDragEnd uses the `isReadOnly` fixed when the board was built, as the
  source's memoised handler (an empty `useCallback` dependency list) does. The model has no
  operation that changes that prop.
- The pipeline board sorts its input props in place with `.sort` (the stages, and each stage's
  deals). The model sorts copies, so the mutation of the caller's arrays is not captured.
- PipelineKanban.PipelineBoard.OnDragEnd requires both droppable ids to be stage names, as
  rendered. A foreign id throws in the source.
- ReconcileProperties.PersistedMove proves both columns numbered only when the requested index
  is at most the column's length. This is what the drag-and-drop library reports. For a larger
  index the moved card's payload slot differs from where it lands, as written in the source.
- KanbanHeader.OverdueCount keeps the source's treatment of a missing expected close date: it
  compares as time 0, so such a deal counts as overdue.
- Floating point is not modelled:
  - deal values and scores are integers;
  - `toFixed(2)` is an average in hundredths, rounded half up;
  - product prices are exact reals;
  - `toLocaleString` and currency formatting are left out.
- Dates are integer milliseconds:
  - `differenceInDays` truncates toward zero;
  - `addMonths`/`subMonths` move a month index, so day-of-month clamping is not modelled;
  - `addDays(now, 30)` is a day count;
  - `isPast` compares with `now`;
  - formatted dates are left out.
- The debounced searches (700 ms), react-table's sorting of the columns other than Days (whose
  `sortingFn` is modelled), its global filter and column toggles, and the lead import are left
  out.
- Companies' "All Industries" entry sends the value "all" as the industry filter. It is modelled
  as written.
- The forms' `form.reset()` after a successful submit is left out (create-invoice-form.tsx:97
  and create-quote-form.tsx:95). So are the invoice and quote numbers, which are derived from
  the clock.
- CreateInvoiceForm.FromQuoteItem treats quote quantities and prices as integers. `toString`
  is their decimal text, so fractional amounts are not modelled.
- The settings page's logo upload (FileReader), its save mutation and the country list's
  contents are left out.
- Parsing attendees from JSON in the meeting forms, and the description text of the
  confirmation dialog, are left out.
- Text functions cover the ASCII letters for letter case; Unicode case mapping is not modelled.
  White space is the full set `trim()` removes.

