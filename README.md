# mindtile-client editor core in Dafny

This project models the core of the mindtile blog client. Posts are made of blocks ("canvas
elements"). The model covers:

- **Builder canvas.** Loading a post's blocks into the canvas, updating an element, saving the
  blocks back, and the drag-and-drop logic of `handleDragEnd`. That logic covers a drop on the
  trash, a drop from the palette and a move inside the canvas.
- **Palette and rendering switch.** The palette of element types and the switch that decides
  what each element type renders in edit and view mode.
- **Post normalisation.** How the API client normalises a post (tags parsed from a string or
  copied from an array, then sorted; `props` decoded from JSON; future posts hidden). The older
  `manager.tsx` version is modelled alongside.
- **Request sentinels.** What each request function answers on success and on failure, and the
  body `updatePost` and `voteOnBlock` send.
- **List editors.** The per-variant list editors: poll, voting, checklist, tabs, timeline and
  accordion. Each adds, removes and updates items of a list stored in the element's `props`,
  and each has its own view state (a chosen poll answer, local votes, checked items, the
  active tab).
- **Text, button and settings.**
  - The text element's `insertFormat` and `processContent`.
  - The button element's style table.
  - The post settings dialog: tag toggling, display order and save.
- **Categories and post list.** The category badges, and the public post list's search and date
  order.
- **Keyboard shortcuts.** The shortcut configuration and the listener: which shortcuts are listed
  on a page, and what a key press does.
- **Proxy.** The request proxy that guards `/admin`.
- **Admin chooser.** The admin dashboard's post chooser with its select/confirm/delete flow.

Parts of the source that change state step by step are Dafny classes with `modifies` clauses:
- the builder's component state;
- the poll, voting, checklist and tabs view state;
- the settings dialog;
- the admin chooser.

Each of their methods is specified against a function of the old state. Pure computations are
functions, and their properties are lemmas. JSON values are a `Json.Value` datatype. A JavaScript
object spread is `Json.Spread`, and `x || d` is `Json.Truthy`/`Present`. Tags, keys and paths are
`string`.

Several things are parameters of the model rather than part of it:
- the network (each request's answer is an input);
- the clock (`now`);
- random ids;
- `JSON.parse`/`JSON.stringify` (`decode`/`encode`);
- `localStorage`;
- the colour table `ELEMENT_COLORS`;
- the shortcut route table (`routes`, instantiated with `Shortcuts.Config`).

The router and toasts become output values.

## Model

| member | source | states |
|---|---|---|
| Types.ParseTag | src/types.ts:3-20 | parsing a tag string gives the element type with that name, and none when no type has it |
| Types.AllTagsComplete | src/types.ts:3-20 | the element-type union has exactly 17 members, all listed once |
| Types.TagNameRoundTrip | src/types.ts:3-20 | every element type's name parses back to that type |
| Types.TagNameInjective | src/types.ts:3-20 | no two element types share a name |
| Registry.Lookup | src/utils.tsx:34-140 | a key is found in the palette exactly when it is a palette key, and the entry found carries that key |
| Registry.PaletteShape | src/utils.tsx:34-140 | the palette has 15 entries; each entry's id and key are its type's name; keys are distinct; every type but voting and spacer is offered |
| Registry.PaletteTypesDistinct | src/utils.tsx:34-140 | no element type appears twice in the palette |
| Registry.PaletteKeyIsTag | src/utils.tsx:34-140 | each palette key parses to an element type with that name, never voting or spacer |
| Registry.RenderElement | src/utils.tsx:142-237 | voting and spacer render nothing; a separator always renders the rule; edit mode renders every other type and passes the update callback; view mode never passes it; image/code/embed in view render only with content; a poll in view renders only with at least two options; the text types always render |
| Registry.ViewIsEditWithoutCallback | src/utils.tsx:147-236 | whatever view mode renders is the edit rendering without the callback and in view mode |
| Registry.PaletteRendersInEdit | src/utils.tsx:34-140 | an element dropped from the palette always renders in the editor |
| Builder.PositionLeqIsTotalPreorder | src/components/builder.tsx:28 | the block comparator `a.position - b.position` is a total preorder |
| Builder.LoadCanvas | src/components/builder.tsx:25-38 | no blocks give an empty canvas; otherwise one element per block in position order, keeping type and props, content defaulting to the block's, and a generated `type_random` id exactly when the block's id is absent or empty; the sort works on a copy (see Left out) |
| Builder.LoadOrderIsStableSort | src/components/builder.tsx:28 | the load order is sorted by position, is a permutation of the blocks, and keeps blocks of equal position in their original order |
| Builder.Merge | src/components/builder.tsx:50-54 | each field of the result is the patch's value where the patch sets it and the element's own value where it does not; the empty patch changes nothing |
| Builder.UpdateById | src/components/builder.tsx:50-54 | the element with the id is merged with the patch, every other element is left unchanged, and the length is kept |
| Builder.UpdateUnknownIdIdle | src/components/builder.tsx:50-54 | updating an id that is not on the canvas leaves the canvas unchanged |
| Builder.SaveBlocks | src/components/builder.tsx:56-63 | one block per element, numbered from position 1 in canvas order, with type and props kept and absent content saved as "" |
| Builder.SaveLoadRoundTrip | src/components/builder.tsx:25-63 | saving the canvas and loading what the server stored (in any order) gives back the same elements, with their stored ids and content |
| Builder.FindIndex | src/components/builder.tsx:117 | the first index with the id, or -1 exactly when no element has it |
| Builder.InsertAt | src/components/builder.tsx:112-124 | inserting puts the new element at the index and removing it there gives the old canvas back |
| Builder.ArrayMove | src/components/builder.tsx:129-131 | `arrayMove` puts the moved element at the target index, keeps the others in order, and is a permutation |
| Builder.ArrayMoveInPlace | src/components/builder.tsx:129-131 | moving an element onto itself changes nothing |
| Builder.NewElement | src/components/builder.tsx:106-110 | an element created from the palette has the key's type, empty props, no content and the id `key_now` |
| Builder.InsertPosition | src/components/builder.tsx:112-124 | a drop on the canvas area or on an unknown element appends; a drop on an element inserts right after it |
| Builder.RemoveId | src/components/builder.tsx:94-102 | the trash removes every element with the id and keeps every other element as many times as it occurs, in order |
| Builder.DragEnd | src/components/builder.tsx:83-137 | no target: unchanged; trash with a palette item: unchanged; trash with an element: removed; palette item elsewhere: a new element inserted at the drop position; element onto element: moved to the target's index, a permutation, and no change when dropped on itself |
| Builder.PaletteDropKeepsCanvas | src/components/builder.tsx:104-125 | a palette drop adds exactly one element, the new one, and leaves every existing element in place around it |
| Builder.BuilderState.constructor | src/components/builder.tsx:25-40 | the initial state is the loaded canvas, with no active drag and not saving |
| Builder.BuilderState.HandleUpdateElement | src/components/builder.tsx:50-54 | the canvas becomes `UpdateById` of the old canvas |
| Builder.BuilderState.BeginSave | src/components/builder.tsx:56-63 | saving starts, and the request carries the post id and `SaveBlocks` of the canvas |
| Builder.BuilderState.FinishSave | src/components/builder.tsx:64-76 | saving ends with "Salvo com sucesso!" or "Erro ao salvar.", and the canvas is unchanged |
| Builder.BuilderState.HandleDragStart | src/components/builder.tsx:79-81 | the active id is the dragged id, or none when it is empty |
| Builder.BuilderState.HandleDragEnd | src/components/builder.tsx:83-137 | the canvas becomes `DragEnd` of the old canvas, and the active drag is cleared |
| Actions.NormalizeTags | src/actions.ts:60-71 | the normalised tags are the tag pieces (an array copied, a string split on ",", trimmed, empty pieces dropped), sorted |
| Actions.StringTagsCanonical | src/actions.ts:60-71 | tags parsed from a string are canonical: sorted, non-empty, trimmed and comma-free |
| Actions.StringTagShape | src/actions.ts:62-67 | each piece of a tag string is non-empty, trimmed and comma-free |
| Actions.TagsRoundTrip | src/actions.ts:60-71 | joining canonical tags with "," and normalising the string gives the same tags |
| Actions.DecodeProps | src/actions.ts:73-81 | string props are decoded, with `{}` when decoding fails; any other props pass through unchanged |
| Actions.Normalize | src/actions.ts:83-87 | the processed post has the normalised tags and decoded props, and every other field unchanged |
| Actions.ProcessedPost | src/actions.ts:52-88 | a `null` post throws (reading its `date`); otherwise a post is dropped exactly when the date filter is on and the post is in the future, and is normalised when kept |
| Actions.ProcessPost | src/actions.ts:52-88 | the step-by-step `processPost` computes `ProcessedPost`, the throw on a `null` post included |
| Actions.ProcessAll | src/actions.ts:90-94 | processing a list throws exactly when an item is `null`; otherwise it is never longer than the input, and with the filter off it is each post normalised, in order |
| Actions.ProcessAllIsFilterThenNormalize | src/actions.ts:52-94 | processing a list with no `null` item is dropping the future posts, then normalising each remaining post in order |
| Actions.GetDataWithTags | src/actions.ts:51-95 | it throws exactly when the body is `null` or an array holding `null`; otherwise an array gives a list and anything else one post, and with the filter off a single post is never null |
| Actions.CreatePostResult | src/actions.ts:4-29 | `createPost` answers false exactly when there is no answer, a non-2xx status, an unparsable body or a `null` body; any other answer is the body's id or true |
| Actions.StatusResult | src/actions.ts:31-49 | `deletePost`, `saveBlocks` and `updatePost` succeed exactly on a 2xx answer |
| Actions.GetPostResult | src/actions.ts:97-118 | `getPost` is null on a 404 or any failure, a throw while processing included, and a processed, non-null post exactly on a 2xx answer whose body has no `null` post; an array body gives a list |
| Actions.GetPostIgnoresDates | src/actions.ts:97-118 | `getPost` processes with the date filter off, so the clock and date parser make no difference |
| Actions.GetPostsResult | src/actions.ts:120-137 | `getPosts` answers `[]` on any failure, a throw while processing included, and the processed body on a 2xx answer with a body that has no `null` post |
| Actions.LikesResult | src/actions.ts:139-159 | `managePostLikes` succeeds exactly when the answer's body parses and is not `null` (reading `message` of `null` throws), whatever the status |
| Actions.UpdatePostBody | src/actions.ts:201-205 | the update body carries title and content, tags joined with ",", the date when given, and props encoded as a string when present |
| Actions.UpdateReadsBack | src/actions.ts:185-217 | reading back an updated post's tags and props gives what was sent |
| Actions.VoteMerge | src/actions.ts:240-246 | a vote sets the option's count to the old count plus one, and keeps every other count and every other prop |
| Actions.VoteAddsOne | src/actions.ts:240-246 | a numeric count grows by exactly one, and an absent count starts at one |
| Actions.FindBlock | src/actions.ts:228-229 | the block found is the first with the id, past only non-null blocks; the search throws exactly when a `null` item comes before any match; a miss means no block has it |
| Actions.VoteRequest | src/actions.ts:219-267 | a vote is sent exactly when `getPost` gave one post whose `blocks` is an array, the search finds the block and its props do not read as `null`; what is sent is those props with the option's count plus one |
| Actions.VoteSentForFirstMatch | src/actions.ts:225-246 | a post holding a block with the id, past only non-null blocks without it, gets a vote sent for that block: its props with the option's count plus one |
| Actions.VoteOnBlock | src/actions.ts:219-267 | the PATCH body is the encoded props of the block with the vote merged in; the call succeeds exactly when it was sent and answered 2xx |
| Manager.NormalizeLegacy | src/manager.tsx:131-148 | the older normalisation throws on a `null` post (reading its `tags`); otherwise it sets the sorted tags and keeps every other field, props included |
| Manager.ProcessPostLegacy | src/manager.tsx:131-148 | the step-by-step older `processPost` computes `NormalizeLegacy`, the throw included |
| Manager.NewerAddsOnlyProps | src/manager.tsx:131-148 | the newer normalisation differs from the older one only in decoding props |
| Manager.ProcessAllLegacy | src/manager.tsx:150-152 | the older version throws exactly when an item is `null`, and otherwise normalises every post, in order, dropping none |
| Manager.GetDataWithTagsLegacy | src/manager.tsx:129-156 | it throws exactly when the body has a `null` post; otherwise an array gives a list of the same length, anything else one post |
| Manager.GetLegacyResult | src/manager.tsx:50-85 | the older `getPost`/`getPosts` answer `[]` on any failure, a throw while processing included, and otherwise the processed body: a single post for a non-array body |
| Manager.Upgrade | src/manager.tsx:5-13 | each older tag maps to the newer tag whose name is the older tag's string, never poll, voting or spacer |
| Manager.UpgradeParses | src/manager.tsx:5-13 | an older tag's string parses, in the newer vocabulary, to its upgrade |
| Manager.LegacyEmbedding | src/manager.tsx:5-13 | the older vocabulary has 8 tags and embeds into the newer one without collisions |
| Colors.ColorValue | src/components/canvas/checklist-element.tsx:38 | the element's colour, or the default when it is absent |
| Colors.ByValue | src/components/canvas/checklist-element.tsx:39 | the colour found is the first one with that value, and none is found exactly when no colour has it |
| ListItems.AddItem | src/components/canvas/checklist-element.tsx:50-59 | the item list becomes the old list (or the default list) plus the new item, and other props are kept |
| ListItems.RemoveItem | src/components/canvas/checklist-element.tsx:61-68 | the item list loses exactly the items with the id, and other props are kept |
| ListItems.WithoutCounts | src/components/canvas/checklist-element.tsx:61-68 | a removal keeps each item without the id as many times as it occurs, and no item with it |
| ListItems.UpdateItem | src/components/canvas/checklist-element.tsx:70-77 | the item with the id gets the field set; other items and other fields are unchanged |
| ListItems.WithoutDistinct | src/components/canvas/checklist-element.tsx:61-68 | with distinct ids, removal drops exactly one item when the id is there and none otherwise |
| ListItems.RemovalKeepsMinimum | src/components/canvas/poll-element.tsx:207 | removal, allowed only above the minimum, never goes below it |
| ListItems.WithoutKeepsDistinct | src/components/canvas/checklist-element.tsx:61-68 | removal keeps ids distinct |
| ListItems.UpdatedKeepsIds | src/components/canvas/checklist-element.tsx:70-77 | updating a field other than the id keeps every id, so ids stay distinct |
| ListItems.AppendKeepsDistinct | src/components/canvas/checklist-element.tsx:50-59 | appending an item with a fresh id keeps ids distinct |
| ListItems.RendersNothing | src/components/canvas/checklist-element.tsx:98-99 | the view renders nothing exactly when the stored list is an empty array |
| Poll.Options | src/components/canvas/poll-element.tsx:28-31 | absent options give the two default options "1" and "2" |
| Poll.AddOption | src/components/canvas/poll-element.tsx:35-43 | adds "Opção n+1" with the fresh id at the end, and keeps the other props |
| Poll.RemoveOption | src/components/canvas/poll-element.tsx:45-53 | removes the option and clears the correct answer exactly when it was that option |
| Poll.UpdateOption | src/components/canvas/poll-element.tsx:55-62 | sets the option's text and keeps everything else |
| Poll.SetCorrectOption | src/components/canvas/poll-element.tsx:64-71 | marking the correct option toggles it: choosing it again clears it |
| Poll.SetCorrectTwice | src/components/canvas/poll-element.tsx:64-71 | toggling the correct option twice restores it |
| Poll.AddKeepsCorrect | src/components/canvas/poll-element.tsx:35-43 | adding an option keeps the correct answer one of the options |
| Poll.RemoveKeepsCorrect | src/components/canvas/poll-element.tsx:45-53 | removing an option keeps the correct answer one of the options |
| Poll.UpdateKeepsCorrect | src/components/canvas/poll-element.tsx:55-62 | editing an option's text keeps the correct answer one of the options |
| Poll.SetCorrectKeepsCorrect | src/components/canvas/poll-element.tsx:64-71 | marking an existing option keeps the correct answer one of the options |
| Poll.AnsweredMarks | src/components/canvas/poll-element.tsx:80-110 | once answered every option is marked; the chosen one is correct or chosen, and no other is chosen |
| Poll.PollView.constructor | src/components/canvas/poll-element.tsx:25 | a poll starts unanswered |
| Poll.PollView.Choose | src/components/canvas/poll-element.tsx:113-126 | choosing records the option's id and answers the poll |
| Poll.PollView.Retry | src/components/canvas/poll-element.tsx:135-146 | "retry" clears the answer, and every option shows unmarked again |
| Poll.PollView.Marks | src/components/canvas/poll-element.tsx:80-110 | an option is unmarked exactly when the poll is unanswered |
| Poll.PollView.ShowsExplanation | src/components/canvas/poll-element.tsx:129-134 | the explanation shows exactly when answered and an explanation exists |
| Voting.PropsOf | src/components/canvas/voting-element.tsx:35 | falsy props read as `{}` |
| Voting.Options | src/components/canvas/voting-element.tsx:37-40 | absent options give the default options |
| Voting.Votes | src/components/canvas/voting-element.tsx:41 | absent votes read as `{}` |
| Voting.AddOption | src/components/canvas/voting-element.tsx:64-72 | adds "Opção n+1" with the fresh id at the end |
| Voting.RemoveOption | src/components/canvas/voting-element.tsx:74-85 | removes the option and its vote count, keeps every other count, and keeps every other prop |
| Voting.UpdateOption | src/components/canvas/voting-element.tsx:87-94 | sets the option's text, and keeps the votes and every other prop |
| Voting.SumRemove | src/components/canvas/voting-element.tsx:59-62 | the total is one count plus the total of the rest |
| Voting.TotalVotes | src/components/canvas/voting-element.tsx:59-62 | the loop computes the sum of all counts |
| Voting.Count | src/components/canvas/voting-element.tsx:99-100 | an option's count, 0 when absent |
| Voting.Vote | src/components/canvas/voting-element.tsx:99-100 | a vote adds one to that option's count and leaves every other count unchanged |
| Voting.VoteAddsOne | src/components/canvas/voting-element.tsx:96-114 | a vote raises the total by exactly one |
| Voting.Percentage | src/components/canvas/voting-element.tsx:124-126 | 0 with no votes; otherwise between 0 and 100 and the nearest integer to count*100/total |
| Voting.VotingWidget.constructor | src/components/canvas/voting-element.tsx:44-48 | the widget starts with the given votes, not having voted |
| Voting.VotingWidget.SyncVotes | src/components/canvas/voting-element.tsx:44-46 | the local votes follow the element's votes |
| Voting.VotingWidget.RestoreVoted | src/components/canvas/voting-element.tsx:50-57 | a stored vote marks the reader as having voted, only in view mode with a post id |
| Voting.VotingWidget.HandleVote | src/components/canvas/voting-element.tsx:96-114 | a second vote in view mode changes nothing; otherwise the count goes up by one, then the editor gets the new props, or the vote is sent to the server once in view mode with a post id |
| Voting.VoteTwice | src/components/canvas/voting-element.tsx:96-114 | a reader's second vote is not sent and does not count: the total rises by one |
| Checklist.ChecklistItems | src/components/canvas/checklist-element.tsx:31-34 | absent items give two unchecked default tasks |
| Checklist.AddItemTo | src/components/canvas/checklist-element.tsx:50-59 | adds an unchecked "Tarefa n+1" at the end |
| Checklist.RemoveItemFrom | src/components/canvas/checklist-element.tsx:61-68 | removes the item with the id |
| Checklist.UpdateItemText | src/components/canvas/checklist-element.tsx:70-77 | sets the item's text |
| Checklist.Toggled | src/components/canvas/checklist-element.tsx:79-96 | toggling flips the checked state of the item with the id, and nothing else |
| Checklist.ToggleTwice | src/components/canvas/checklist-element.tsx:79-96 | toggling twice restores every checked state |
| Checklist.ToggleInProps | src/components/canvas/checklist-element.tsx:79-96 | in the editor the toggle is stored in the element's props |
| Checklist.ViewEmpty | src/components/canvas/checklist-element.tsx:98-99 | the list is empty exactly when the stored items are an empty array |
| Checklist.CheckedStyle | src/components/canvas/checklist-element.tsx:41-48 | unchecked items have the plain style; checked items take the chosen colour's classes, or the default when the colour is unknown |
| Checklist.ChecklistView.constructor | src/components/canvas/checklist-element.tsx:36 | the local items start as the element's items |
| Checklist.ChecklistView.ToggleCheck | src/components/canvas/checklist-element.tsx:79-96 | in edit mode the toggle is sent as an update; in view mode it flips the local items only |
| Tabs.TabList | src/components/canvas/tabs-element.tsx:32-35 | absent tabs give the default tabs |
| Tabs.AddTab | src/components/canvas/tabs-element.tsx:46-55 | adds "Aba n+1" with empty content at the end |
| Tabs.UpdateTab | src/components/canvas/tabs-element.tsx:70-81 | sets the tab's title or content and keeps every id |
| Tabs.InitialActive | src/components/canvas/tabs-element.tsx:38 | the first tab's id is active at first, or "1" |
| Tabs.CurrentTab | src/components/canvas/tabs-element.tsx:87 | the tab shown is the first tab with the active id when one exists, otherwise the first tab |
| Tabs.ViewEmpty | src/components/canvas/tabs-element.tsx:83-84 | there are no tabs exactly when the stored tabs are an empty array |
| Tabs.TabsState.constructor | src/components/canvas/tabs-element.tsx:38 | the initial active tab is `InitialActive` |
| Tabs.TabsState.SelectTab | src/components/canvas/tabs-element.tsx:99 | clicking a tab makes it active |
| Tabs.TabsState.RemoveTab | src/components/canvas/tabs-element.tsx:57-68 | the tab is removed from the props, and the active tab moves on when the active one was removed |
| Tabs.RemovalShowsRemainingTab | src/components/canvas/tabs-element.tsx:57-68 | after a removal the removed tab is never shown: removing the active tab shows the first remaining one, and another active tab stays shown |
| Timeline.Events | src/components/canvas/timeline-element.tsx:32-39 | absent events give the one default event |
| Timeline.AddEvent | src/components/canvas/timeline-element.tsx:47-57 | adds "Nova Data"/"Novo Evento" with no description at the end |
| Timeline.RemoveEvent | src/components/canvas/timeline-element.tsx:59-66 | removes the event with the id |
| Timeline.UpdateEvent | src/components/canvas/timeline-element.tsx:68-79 | sets the event's field; ids are kept unless the id itself is edited |
| Timeline.ViewEmpty | src/components/canvas/timeline-element.tsx:81-82 | there are no events exactly when the stored events are an empty array |
| Timeline.DotClass | src/components/canvas/timeline-element.tsx:40-44 | the dot takes the class of the first colour with the chosen value when that class is non-empty, and indigo when the colour is unknown or its class empty |
| Timeline.DateClass | src/components/canvas/timeline-element.tsx:40-45 | the date takes the text class of the first colour with the chosen value when that class is non-empty, and indigo when the colour is unknown or its class empty |
| Accordion.AccordionItems | src/components/canvas/accordion-element.tsx:37-39 | absent items give the one default item |
| Accordion.AddAccordionItem | src/components/canvas/accordion-element.tsx:46-55 | adds "Item n+1" with empty content at the end |
| Accordion.RemoveAccordionItem | src/components/canvas/accordion-element.tsx:57-64 | removes the item with the id |
| Accordion.UpdateAccordionItem | src/components/canvas/accordion-element.tsx:66-79 | sets the item's title or content and keeps every id |
| Accordion.ViewEmpty | src/components/canvas/accordion-element.tsx:81-82 | there are no items exactly when the stored items are an empty array |
| Accordion.TitleClass | src/components/canvas/accordion-element.tsx:40-44 | a title takes the non-empty text class of the first colour matching by value or by text class, and zinc when none matches or its class is empty |
| TextElement.Substring | src/components/canvas/text-element.tsx:110-112 | `substring` within bounds is the slice |
| TextElement.InsertFormat | src/components/canvas/text-element.tsx:103-131 | formatting happens exactly when there is a textarea and an update callback |
| TextElement.FormatWrapsSelection | src/components/canvas/text-element.tsx:103-131 | the selection is wrapped in `**`, `_` or `>`/`<`; the text before and after is kept; the selection moves with the inserted marker and still covers the same text |
| TextElement.SetAlign | src/components/canvas/text-element.tsx:186-189 | a non-empty alignment is stored and other props are kept; an empty one changes nothing |
| TextElement.Align | src/components/canvas/text-element.tsx:86 | alignment defaults to "left" |
| TextElement.AlignClass | src/components/canvas/text-element.tsx:156-159 | only center, right and justify add a class |
| TextElement.HighlightSetting | src/components/canvas/text-element.tsx:87 | the highlight colour defaults to "indigo" |
| TextElement.SetHighlightColor | src/components/canvas/text-element.tsx:250-258 | a chosen highlight colour is the one then used, and other props are kept |
| TextElement.HighlightColorsDistinct | src/components/canvas/text-element.tsx:26-75 | the eight highlight colours have distinct values |
| TextElement.HighlightFor | src/components/canvas/text-element.tsx:138-140 | the colour with the setting's value, or the first (indigo) when none matches |
| TextElement.UnknownHighlightIsIndigo | src/components/canvas/text-element.tsx:138-140 | an unknown setting highlights in indigo |
| TextElement.ReplaceBreaksLeavesNoPair | src/components/canvas/text-element.tsx:143 | no double backslash is left after replacement |
| TextElement.ReplaceBreaksIdle | src/components/canvas/text-element.tsx:143 | text without a double backslash is unchanged |
| TextElement.PairYieldsBreak | src/components/canvas/text-element.tsx:143 | a double backslash always yields a `<br/>` |
| TextElement.CloseAt | src/components/canvas/text-element.tsx:145-148 | the regex match ends at the first `<`, and the highlighted text holds no `<` or line break |
| TextElement.HighlightedIdle | src/components/canvas/text-element.tsx:145-148 | text without `>` is not highlighted |
| TextElement.ProcessContent | src/components/canvas/text-element.tsx:133-150 | empty content processes to "" |
| TextElement.PlainTextUnchanged | src/components/canvas/text-element.tsx:133-150 | text without markers passes through unchanged |
| TextElement.HighlightSpan | src/components/canvas/text-element.tsx:133-150 | a text that is one `>x<`, with `x` free of backslashes, line breaks and `<`, shows `x` in the span of the chosen highlight colour |
| TextElement.BreakLostAfterHighlightMarker | src/components/canvas/text-element.tsx:133-150 | as written, `1 > 0\\ok` highlights " 0" and loses its line break; the corrected order keeps it |
| TextElement.ProcessContentFixed | src/components/canvas/text-element.tsx:133-150 | the corrected processing (highlights, then breaks) maps empty content to "" |
| TextElement.FixedKeepsBreaks | src/components/canvas/text-element.tsx:133-150 | in the corrected processing a text holding a double backslash shows a line break, and no double backslash is left over |
| Button.Label | src/components/canvas/button-element.tsx:33 | the label is the content, or "" |
| Button.PropOr | src/components/canvas/button-element.tsx:34-36 | a present prop, or its default |
| Button.StyleFor | src/components/canvas/button-element.tsx:43-58 | no colour or an unknown variant sets no style; default/secondary set the background with white text; outline sets border and text; ghost/link set the text; only default adds the shadow |
| Button.InlineStyle | src/components/canvas/button-element.tsx:43-58 | the step-by-step style is `StyleFor` |
| Button.VariantLook | src/components/canvas/button-element.tsx:75-83 | exactly default, secondary and outline have a preset look |
| Button.ButtonClasses | src/components/canvas/button-element.tsx:73-84 | a custom colour drops the preset classes; without one, a variant with a preset look adds it after the base classes |
| Button.JustifyClass | src/components/canvas/button-element.tsx:62-67 | only start, center and end justify |
| Button.View | src/components/canvas/button-element.tsx:39-92 | an empty label renders nothing; otherwise the label and url are shown, with the icon except for links, the variant read from the props, the style and classes of `StyleFor` and `ButtonClasses` for the colour and variant, and the justification of the alignment (start by default) |
| Button.DefaultLook | src/components/canvas/button-element.tsx:39-92 | a button with no props renders indigo, left-justified, with the icon |
| Button.AlignPatch | src/components/canvas/button-element.tsx:104-110 | an empty alignment sends no update |
| Button.PropsPatch | src/components/canvas/button-element.tsx:149-156 | a prop edit sets that prop and keeps the others |
| Button.LabelPatch | src/components/canvas/button-element.tsx:132-137 | a label edit sets the content only |
| Button.EditsReadBack | src/components/canvas/button-element.tsx:104-177 | each edit is read back by the view, and leaves the other fields it shows unchanged |
| Categories.TableShape | src/categories.tsx:4-38 | the table has 29 categories, all captioned and light |
| Categories.Lookup | src/categories.tsx:46 | a tag has a category exactly when the table lists it |
| Categories.Pieces | src/categories.tsx:43 | a tag string is split on "," and each piece trimmed, and empty pieces are kept |
| Categories.TagList | src/categories.tsx:40-43 | an array is used as is, and a string is split |
| Categories.BadgeFor | src/categories.tsx:45-60 | a known tag shows its caption and colour, an unknown tag shows itself uncoloured, and text is always dark |
| Categories.GetBadges | src/categories.tsx:40-61 | one badge per tag, in order |
| Categories.JoinedBadges | src/categories.tsx:40-61 | a joined string of trimmed tags gives the same badges as the array |
| Categories.EmptyPiecesKept | src/categories.tsx:43 | "a,,b" gives three badges, the middle one empty |
| SettingsModal.ProgressColor | src/components/post-settings-modal.tsx:36-38 | the post's progress colour, or "#6366f1" |
| SettingsModal.ToggleTag | src/components/post-settings-modal.tsx:40-46 | a selected tag is removed and others kept; an unselected tag is appended |
| SettingsModal.RemoveTag | src/components/post-settings-modal.tsx:48-50 | every copy of the tag is removed; the others are kept in order |
| SettingsModal.ToggleTwice | src/components/post-settings-modal.tsx:40-46 | toggling an unselected tag twice restores the tags |
| SettingsModal.DisplayName | src/components/post-settings-modal.tsx:104 | a tag displays as its category's caption, or as itself |
| SettingsModal.DisplayLeqIsTotalPreorder | src/components/post-settings-modal.tsx:97-105 | the display comparator is a total preorder that compares display names |
| SettingsModal.SortedSelectedTags | src/components/post-settings-modal.tsx:97-105 | the shown tags are a stable sorted permutation of the selected tags |
| SettingsModal.DisplayIsByName | src/components/post-settings-modal.tsx:97-105 | the shown names are the display names sorted |
| SettingsModal.EntryLeqIsTotalPreorder | src/components/post-settings-modal.tsx:82-88 | the category comparator is a total preorder |
| SettingsModal.OptionsOf | src/components/post-settings-modal.tsx:82-94 | the category options are all categories, sorted by caption |
| SettingsModal.Reported | src/components/post-settings-modal.tsx:64-70 | the reported post has the new title, content, tags and progress colour, and keeps everything else |
| SettingsModal.PostSettings.constructor | src/components/post-settings-modal.tsx:31-38 | the dialog starts closed with the post's fields |
| SettingsModal.PostSettings.HandleToggleTag | src/components/post-settings-modal.tsx:40-46 | the tags become `ToggleTag` of the old tags |
| SettingsModal.PostSettings.HandleRemoveTag | src/components/post-settings-modal.tsx:48-50 | the tags become `RemoveTag` of the old tags |
| SettingsModal.PostSettings.SetProgressColor | src/components/post-settings-modal.tsx:36-38 | the progress colour is set |
| SettingsModal.PostSettings.BeginSave | src/components/post-settings-modal.tsx:52-60 | loading starts, and the update carries the title, content, tags and only the progress colour |
| SettingsModal.PostSettings.FinishSave | src/components/post-settings-modal.tsx:62-79 | loading ends; success closes the dialog, shows the success toast and reports the post when there is a callback; failure keeps the dialog open with the error toast |
| SettingsModal.ReportedReopens | src/components/post-settings-modal.tsx:64-70 | reopening the dialog on the reported post shows what was saved |
| SettingsModal.RequestPropsOnlyColor | src/components/post-settings-modal.tsx:59 | the saved props hold only the progress colour |
| PostsList.Searched | src/app/posts/posts-client.tsx:40-44 | the search keeps exactly the posts whose title contains it (case aside), each as many times as it occurs, in order; an empty search keeps all |
| PostsList.OrdersAreTotalPreorders | src/app/posts/posts-client.tsx:46-59 | both date comparators are total preorders |
| PostsList.Filtered | src/app/posts/posts-client.tsx:37-61 | the list is a permutation of the search result, ordered newest or oldest first as chosen, and left as is otherwise |
| PostsList.DateOrdersAreStable | src/app/posts/posts-client.tsx:46-59 | posts of the same instant keep their order |
| PostsList.OldestReversesNewest | src/app/posts/posts-client.tsx:46-59 | with distinct instants, oldest-first is exactly newest-first reversed |
| Shortcuts.Route | src/lib/shortcuts.ts:20-22 | `route(path)` pushes exactly that path |
| Shortcuts.BackAction | src/lib/shortcuts.ts:24-26 | `back()` goes back |
| Shortcuts.Find | src/lib/shortcuts.ts:32-98 | a lookup finds the key's entry, and none exactly when no entry has the key |
| Shortcuts.AdminDisabled | src/lib/shortcuts.ts:92-97 | "/admin" and "/admin/*" are disabled and hold no shortcuts |
| Shortcuts.OnlyAdminDisabled | src/lib/shortcuts.ts:32-98 | no other route is disabled |
| Shortcuts.GlobalKeys | src/lib/shortcuts.ts:33-49 | the global keys are "shift+?", "ctrl+h" and "ctrl+b"; help does nothing by itself and ctrl+h goes home |
| Shortcuts.PostDetailKeys | src/lib/shortcuts.ts:78-91 | under a post, p, esc and backspace all go to the post list |
| ShortcutListener.DropLast | src/components/shortcut-listener.tsx:41-45 | `slice(0, -1)` drops the last character |
| ShortcutListener.ScanWildcards | src/components/shortcut-listener.tsx:35-56 | the loop finds a disabled wildcard route covering the page exactly when one exists |
| ShortcutListener.Described | src/components/shortcut-listener.tsx:58-80 | each shortcut is listed with its key and description, in order |
| ShortcutListener.PushDescribed | src/components/shortcut-listener.tsx:58-80 | the loop appends the listing of the entries |
| ShortcutListener.PushIfCovering | src/components/shortcut-listener.tsx:83-99 | a wildcard route adds all its shortcuts exactly when it covers the page, and nothing otherwise |
| ShortcutListener.PushWildcards | src/components/shortcut-listener.tsx:82-101 | the loop appends the shortcuts of every covering wildcard route |
| ShortcutListener.GetActiveShortcuts | src/components/shortcut-listener.tsx:31-104 | the listed shortcuts are none on a disabled page, otherwise the global, page and covering wildcard shortcuts, in that order |
| ShortcutListener.KeyName | src/components/shortcut-listener.tsx:147-165 | a bare modifier has no name, Escape is "esc", and every other key is its lower-cased self ("?" and "backspace" included) |
| ShortcutListener.KeyString | src/components/shortcut-listener.tsx:147-165 | the key string is the pressed modifiers and the key name joined with "+" |
| ShortcutListener.KeyStringParts | src/components/shortcut-listener.tsx:147-165 | a key string splits back into its modifiers and key name |
| ShortcutListener.KeyStringExamples | src/components/shortcut-listener.tsx:147-165 | shift+? is "shift+?", ctrl+H is "ctrl+h", and Escape is "esc" |
| ShortcutListener.FireIfCovering | src/components/shortcut-listener.tsx:185-198 | a wildcard route fires its binding for the key exactly when it covers the page and binds the key, and only then prevents the default |
| ShortcutListener.FireWildcards | src/components/shortcut-listener.tsx:184-199 | the loop fires, in route order, the binding of every covering wildcard route that has one, and prevents the default exactly when one fired |
| ShortcutListener.HandleKeyDown | src/components/shortcut-listener.tsx:111-201 | the handler ignores typing and disabled pages, tries global, then page, then wildcard shortcuts, and opens the help dialog on shift+? |
| ShortcutListener.Keys | src/components/shortcut-listener.tsx:233-271 | the keys of a listing, in order |
| ShortcutListener.DescribedKeys | src/components/shortcut-listener.tsx:58-80 | a key is listed for a map exactly when the map has it |
| ShortcutListener.WildcardKeys | src/components/shortcut-listener.tsx:82-101 | a key is listed for the wildcard routes exactly when some covering route fires on it |
| ShortcutListener.ListedIffHandled | src/components/shortcut-listener.tsx:31-201 | on an enabled page a key press is handled exactly when the key is listed in the help dialog |
| ShortcutListener.DisabledIsSilent | src/components/shortcut-listener.tsx:35-56 | a disabled page lists nothing and ignores every key |
| ShortcutListener.GroupsPartition | src/components/shortcut-listener.tsx:233-271 | the dialog's global and screen groups together hold exactly the listed shortcuts |
| ShortcutListener.AdminWildcard | src/components/shortcut-listener.tsx:35-56 | "/admin/*" covers exactly the paths below "/admin/" |
| ShortcutListener.AdminIsSilent | src/components/shortcut-listener.tsx:35-56 | in the admin area no shortcut is listed or fires |
| ShortcutListener.HelpKeyOpensDialog | src/components/shortcut-listener.tsx:167-176 | on any enabled page shift+? opens the help dialog and runs nothing else |
| ShortcutListener.PostWildcard | src/components/shortcut-listener.tsx:185-200 | "/posts/*" covers exactly the paths below "/posts/" |
| ShortcutListener.CoveringBelowPost | src/components/shortcut-listener.tsx:185-200 | below "/posts/" only the "/posts/*" route covers the page |
| ShortcutListener.OnlyCoverFires | src/components/shortcut-listener.tsx:185-200 | with one covering route, only its action fires |
| ShortcutListener.NoCoverFires | src/components/shortcut-listener.tsx:185-200 | with no covering route, no wildcard action fires |
| ShortcutListener.BelowPostEnabled | src/components/shortcut-listener.tsx:123-145 | a post page has no route of its own and is enabled |
| ShortcutListener.EscapeDispatchBelowPost | src/components/shortcut-listener.tsx:178-200 | Escape on a post page goes to the post list |
| ShortcutListener.EscapeBelowPost | src/components/shortcut-listener.tsx:111-201 | pressing Escape on a post page, outside an input, goes to the post list |
| Proxy.ProxyResponse | src/proxy.ts:4-19 | a non-admin on an admin page other than login goes to login; an admin on login goes to the dashboard; nothing else redirects |
| Proxy.Serve | src/proxy.ts:21-23 | paths outside the matcher pass through untouched |
| Proxy.LoginIsIntercepted | src/proxy.ts:21-23 | the matcher covers the login page and the dashboard |
| Proxy.AdminAreaGuarded | src/proxy.ts:4-23 | the four cases of cookie and login page, over the whole admin area |
| Proxy.RedirectSettles | src/proxy.ts:4-23 | a redirect's target passes for the same cookie, so there is no loop |
| Proxy.CookieIsExact | src/proxy.ts:5 | only the exact cookie value "true" grants access |
| AdminClient.SelectedTitle | src/app/admin/admin-client.tsx:59-64 | the title of the first post whose id reads as the value, or "" |
| AdminClient.Chooser.constructor | src/app/admin/admin-client.tsx:53-57 | both dialogs closed, nothing selected, "Prosseguir" disabled; the invariant `Valid` holds and every handler keeps it |
| AdminClient.Chooser.SetSelectionOpen | src/app/admin/admin-client.tsx:96-98 | the chooser opens or closes and nothing else changes |
| AdminClient.Chooser.HandleSelect | src/app/admin/admin-client.tsx:59-64 | selecting enables "Prosseguir" and stores the value and its post's title |
| AdminClient.Chooser.HandleConfirm | src/app/admin/admin-client.tsx:66-76 | with the edit trigger it goes to the post's edit page; otherwise it opens the delete confirmation; the chooser closes |
| AdminClient.Chooser.CancelDelete | src/app/admin/admin-client.tsx:145 | cancelling closes the confirmation |
| AdminClient.Chooser.ConfirmDelete | src/app/admin/admin-client.tsx:78-91 | the confirmation closes; a deletion shows the success notice and refreshes; a failure shows the error notice |
| AdminClient.EditCardOpensDeleteConfirmation | src/app/admin/admin-client.tsx:67 | neither dashboard trigger text is "editar", so neither opens the editor |
| AdminClient.EditCardSession | src/app/admin/page.tsx:58 | as written, confirming a choice in the edit card opens the delete confirmation |
| AdminClient.IntendedChoiceSeparatesCards | src/app/admin/admin-client.tsx:66-76 | the intended test sends the edit card to the editor and the delete card to the confirmation, and agrees with the written test wherever that one edits |

## Left out

- Network, clock, randomness and storage are parameters. Each request's answer is an input: no answer, or a status with a body that may not parse. The model does not capture retries or timing.
- `JSON.parse` and `JSON.stringify` are the parameters `decode` and `encode`. Their round trip is assumed only where a lemma states it as a precondition.
- Dates are integers (`new Date(...).getTime()`). Invalid dates (`NaN` comparisons) are not modelled.
- Generated ids (`Math.random`, `Date.now`) are parameters. Their uniqueness is not guaranteed by the source, and the model only states what follows when they are fresh.
- Builder.DragEnd and Builder.BuilderState.HandleDragEnd: require that a canvas element dropped on anything but the trash or itself lands on another canvas element. Dropping a canvas element on the canvas area itself (the droppable with id "canvas", where `findIndex` gives -1) hands index -1 to dnd-kit's `arrayMove`, whose result is library-defined and not modelled.
- Actions.NormalizeTags, and every member that normalises a post (Normalize, ProcessedPost, ProcessAll, GetDataWithTags, GetPostResult, GetPostsResult and the Manager counterparts): requires a `tags` array to hold only strings, the declared `tags?: string[]` of the server's posts. With a non-string item, whether `localeCompare` is called on it (and throws, turning `getPost`/`getPosts` into null/`[]`) depends on the engine's sort, and is not modelled.
- Builder.LoadCanvas: `post.blocks.sort(...)` sorts the post's own array in place, so the caller's prop is reordered too. The model sorts a copy and does not capture that mutation.
- Voting.Percentage: rounds in exact arithmetic. Floating-point `Math.round` on `count / total * 100` is not modelled.
- Voting.VotingWidget.RestoreVoted: the `localStorage` lookup is the parameter `stored`.
- `localeCompare` is lexicographic order on code points, and `toLowerCase` folds ASCII letters only. Locale collation is not modelled. Code-point order differs from JavaScript's UTF-16 code-unit order for characters outside the Basic Multilingual Plane: U+1F600 sorts after U+FF5E here, and before it in code units.
- Strings are sequences of Unicode code points, while JavaScript indexes strings in UTF-16 code units. Every length and offset therefore counts a character outside the Basic Multilingual Plane as one, where JavaScript counts two. This applies to `textarea.selectionStart`/`selectionEnd`, `substring`, `length` and `s[i]` in TextElement.Substring, TextElement.InsertFormat and the string members of Json. With content "😀ab", offsets 2 to 3 select "a" in JavaScript and "b" in the model. Text made only of Basic Multilingual Plane characters behaves the same in both.
- Numbers in props and payloads are integers (`Json.Num`). Fractions, `NaN` and the infinities are not modelled, so neither is `NaN` being falsy, nor a fractional vote count or position.
- Registry.RenderElement: the poll guard `options.length < 2` treats a `length` that is a string, an array or an object as not below two. JavaScript would first convert it to a number, so `"1" < 2` would be true. Only an `options` object carrying its own `length` field reaches this case, and the editor never writes one.
- ListItems, Checklist, Poll, Voting, Tabs, Timeline and Accordion: every list member requires the stored list (`props.items`, `props.options`, `props.tabs`, `props.events`) to be absent, falsy or an array of objects, which is the declared `T[]` item type. A string list or a `null` item, where the source would throw or produce undefined ids, is not modelled.
- Class-name merging (`cn`/`twMerge`), the dnd-kit sensors and the markdown rendering are not modelled. `processContent` is modelled up to the HTML string it hands to the renderer.
- The colour table `ELEMENT_COLORS` is a parameter. `colors.ts` is not part of this model.
- The settings dialog's category sort reads a `priority` field that the category table never sets. The model therefore sorts by caption alone.
- The category table is read from `categories.tsx` as if it were exported. Object-prototype keys such as "constructor" or "toString" are not modelled as lookups, neither in the category table nor in the palette: `Registry.IsPaletteKey` counts only the palette's own keys, while `active in elementsList` is also true for those inherited names.
- Router calls and toasts are output values, and React re-rendering is not modelled.
- The window key listener is modelled as its handler function, with the route table as a parameter (instantiated with `Shortcuts.Config`).
- The shortcut listener's `disabled` check is modelled as written. Next's trailing-slash normalisation is not modelled, so "/admin/" is not covered by the wildcard.
- The "toggle-navbar" event and its notice are the `ToggleNavbar` action. `notify` is represented by the `Notify` action value only.
- Proxy: the redirect URL is modelled as its path. The matcher "/admin/:path*" is modelled as "/admin" or any path starting with "/admin/".
- The open state of dialogs is modelled only where an operation changes it.
- View-only markup (icons, layout classes not tied to props) is not modelled.

## Findings

| source | as written | input that shows it | evidently intended | confidence | as-written member | corrected member |
|---|---|---|---|---|---|---|
| src/components/canvas/text-element.tsx:142-148 | `processContent` replaces `\\` with `<br/>` before highlighting, so the `<` of `<br/>` can close a highlight opened by an earlier `>` | content `1 > 0\\ok` renders " 0" highlighted followed by the text `br/>ok`, and the line break is lost | a `\\` shows a line break whatever `>` precedes it, and no `\\` is left over | not executed | TextElement.BreakLostAfterHighlightMarker | TextElement.FixedKeepsBreaks |
| src/app/admin/admin-client.tsx:67 | `handleConfirm` opens the editor only when the trigger text, lower-cased, equals "editar", but the dashboard passes "Selecionar para Editar" (src/app/admin/page.tsx:58) | choosing a post in the edit card and pressing "Prosseguir" | the edit card opens the editor and the delete card opens the delete confirmation | not executed | AdminClient.EditCardSession | AdminClient.IntendedChoiceSeparatesCards |
