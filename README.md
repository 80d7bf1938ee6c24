# Admin console core, modelled in Dafny

This project models the core of a Vue 3 single-page admin console for a blog
backend. It covers seven screens and stores:

- **ConfigForm** (`config_form.dfy`): the schema-driven configuration form.
  - Which schema definitions become collapsible panels, and which panel
    starts expanded.
  - How a `$ref` property is resolved to a nested section.
  - Which input control a field gets from its type and `ui:options`.
  - How each field writes its value back into the shared form-data tree
    through lodash `get`/`set` on dot paths.
  - The mobile layout switch.
- **UiStore** (`ui_store.dfy`): the UI store.
  - The viewport record and its breakpoint bands.
  - The guard that ignores the height changes a mobile browser makes while
    scrolling.
  - The content-width arithmetic and the naive-ui dark flag.
- **Sidebar** (`sidebar.dfy`): the sidebar.
  - One open submenu at a time; clicks navigate only from leaf items.
  - The active-route test and the submenu height.
  - The collapse requests sent to the parent, and the inline width.
- **ManageTopics** (`topics.dfy`): the topic management page.
  - The upsert of a submitted topic by id, tested with `-~index`.
  - The modal flags.
  - The page number each fetch asks for.
- **LovePhotoEdit** (`love_photo_edit.dfy`): the love-photo editor.
  - The reactive form record.
  - The submit payload: validation, `undefined` to `null`, three trimmed
    fields.
  - The choice between create, update and no request.
  - The header label and the date picker.
- **SecurityTab** (`security.dfy`): the security settings tab.
  - Login sessions and the kick rules.
  - API tokens: delete by id, and the create dialog, which is reset after
    use and whose returned token is patched onto the refetched list.
  - The token column and the table's scroll width.
  - The password-confirmation rule.
- **Shorthand** (`shorthand.dfy`): the shorthand timeline.
  - Fetch, prepend on create, and delete.
- **JsPrims** (`js_prims.dfy`): the JavaScript built-ins these screens rely
  on, stated once with their ECMAScript behaviour.
  - `findIndex`, `indexOf`, `filter`, `splice(start, 1)`.
  - `trim`, `startsWith`.
  - ToInt32 behind `~`, and an Option type for `undefined`.

How the JavaScript is represented:

- Components whose state is reassigned step by step are classes whose
  methods state their whole new state:
  - `FormSession`, `FieldItem`, `FormProps`, `UIStore`, `SidebarState`,
    `TopicsPage`, `LovePhotoForm`, `SessionList`, `ApiTokens`, `Timeline`.
- Pure rules are functions with lemmas about them.
- Server calls, the router and the clipboard are replaced by method
  parameters and outputs:
  - a server response is an input;
  - a `router.push` is appended to a navigation log;
  - a request is returned as a value.

## Model

| member | source | states |
|---|---|---|
| ConfigForm.SplitPathJoin | src/components/config-form/index.tsx:193 | joining two lodash path strings with '.' concatenates their key lists, so a nested section's `<key>.<property>` addresses one level deeper |
| ConfigForm.SplitPathNoDot | src/components/config-form/index.tsx:207-216 | a property name without a dot is a single path key |
| ConfigForm.FieldPathKeys | src/components/config-form/index.tsx:207-216 | the path of `<base>.<property>` is the base path plus the property |
| ConfigForm.GetAppend | src/components/config-form/index.tsx:202-206 | reading along `a + b` reads `b` inside what `a` reaches, and is missing when `a` is |
| ConfigForm.SetThenGet | src/components/config-form/index.tsx:207-216 | after lodash `set(t, p, v)` on an object with an ordinary path, `get(t, p)` is `v`, whatever was on the way |
| ConfigForm.SetFrame | src/components/config-form/index.tsx:207-216 | `set` leaves every path that is neither a prefix nor an extension of `p` reading as before |
| ConfigForm.SetChildOfObject | src/components/config-form/index.tsx:207-216 | setting a key below an existing object changes that key of the object and nothing else of it |
| ConfigForm.WriteBackReadsBack | src/components/config-form/index.tsx:207-216 | after a field emits `v`, reading `<dataKey>.<property>` yields `v`, on both branches (truthy parent and falsy parent) |
| ConfigForm.WriteBackKeepsSiblings | src/components/config-form/index.tsx:207-212 | with an object parent, only the edited key of the parent changes; its sibling fields stay |
| ConfigForm.WriteBackFalsyParent | src/components/config-form/index.tsx:213-215 | a falsy or missing parent is replaced by exactly `{property: v}` |
| ConfigForm.WriteBackFrame | src/components/config-form/index.tsx:207-216 | nothing outside the parent's subtree changes |
| ConfigForm.FormSession.constructor | src/components/config-form/index.tsx:51-59 | a session starts from the initial form data and the `getKey` it was given |
| ConfigForm.FormSession.OnUpdateValue | src/components/config-form/index.tsx:207-216 | the new form data is the write-back of the emitted value, and it reads back at the field's path |
| ConfigForm.FieldItem.constructor | src/components/config-form/index.tsx:200-206 | a mounted field seeds `innerValue` from the tree at its path and emits it once, so the tree is the write-back of that value (also lines 258-262) |
| ConfigForm.FieldItem.UpdateValue | src/components/config-form/index.tsx:258-262 | a control update sets `innerValue` and the tree is the write-back of the new value |
| ConfigForm.MountTwoFieldsThenEdit | src/components/config-form/index.tsx:202-216 | on an empty tree, mounting two fields and editing one leaves the untouched field present as a key holding `undefined` |
| ConfigForm.MountField | src/components/config-form/index.tsx:258-262 | mounting field `k` of section `sec` with no value, under paths `[sec]` and `[sec, k]`, creates the key `k` with `undefined` inside the section object, whether that object existed or not |
| ConfigForm.EditField | src/components/config-form/index.tsx:207-212 | editing field `k` of an existing section object `sec` (paths `[sec]`, `[sec, k]`) sets that one key to the new value and keeps the section's other fields |
| ConfigForm.Panels | src/components/config-form/index.tsx:110-134 | every panel comes from a definition that is titled and not hidden, with that title and `getKey(name)` as data key, and every such definition has its panel |
| ConfigForm.PanelsAppend | src/components/config-form/index.tsx:110-122 | panels keep the definitions' order |
| ConfigForm.DefaultExpandedNames | src/components/config-form/index.tsx:81-83 | the expanded names are exactly the first definition key, or `undefined` when there are no definitions |
| ConfigForm.ExpandedNameMayMissPanels | src/components/config-form/index.tsx:81-83 | when the first definition is hidden or untitled, the default expanded name belongs to no panel |
| ConfigForm.RefName | src/components/config-form/index.tsx:188 | the resolved name is the suffix of `$ref` after its last '/', and contains no '/' |
| ConfigForm.RefNameOfPointer | src/components/config-form/index.tsx:186-189 | a `#/definitions/<name>` reference resolves to `<name>` |
| ConfigForm.Lookup | src/components/config-form/index.tsx:71-73 | a definition is found exactly when some definition has the name, and what is found is that definition (also lines 187-189) |
| ConfigForm.Section | src/components/config-form/index.tsx:176-197 | a missing schema renders nothing; otherwise one node per property, each meeting `NodeFor`: a `$ref` property is a nested section keyed `<getKey(dataKey)>.<property>` whose children are the section of the resolved definition at that key, one level of `fuel` down |
| ConfigForm.PropertyNodes | src/components/config-form/index.tsx:183-222 | one node per property in key order: a `$ref` gives a section keyed `<dataKey>.<property>` holding the resolved definition, with that definition's section at the new key as its children (none for an unresolved reference or spent `fuel`); anything else gives a field bound to that path with its own title, type, options (`{}` by default) and description (also lines 243-246) |
| ConfigForm.Dispatch | src/components/config-form/index.tsx:267-345 | the control for each type: a select for `string`/`url` with type `select`; a text input otherwise, autosized 3 to 5 rows for `textarea`, with `uiType` as input type when it is given and non-empty, else `text`; tags for `array`; a switch for `boolean`; a number input for `integer`; none for any other type |
| ConfigForm.FormProps.constructor | src/components/config-form/index.tsx:22-29 | form props start with labels on the left, right-aligned, 150 wide (also line 86) |
| ConfigForm.FormProps.OnMobileChange | src/components/config-form/index.tsx:87-99 | mobile puts labels on top, left-aligned; otherwise left, right-aligned |
| ConfigForm.IsHalfWidth | src/components/config-form/index.tsx:349-373 | a field spans half the grid exactly when `halfGrid` is set and the viewport is not mobile |
| UiStore.Classify | src/stores/ui.ts:53-63 | the rebuilt record: the bands `pad`, `hpad`, `wider`, `widest` are pairwise exclusive and cover every inner width above 568; `mobile` iff the screen or inner width is at most 568; `phone` iff the window is at most 568 wide or `pad` |
| UiStore.MobileAndPadTogether | src/stores/ui.ts:56-57 | every pad-sized window (569 to 768 wide) on a screen at most 568 wide is both `mobile` and `pad`: the flags overlap |
| UiStore.NextViewport | src/stores/ui.ts:38-64 | the record is either kept or rebuilt from the measurement; unless it is kept, its width is the measured width |
| UiStore.NextViewportIdempotent | src/stores/ui.ts:38-64 | repeating an update with the same measurement changes nothing |
| UiStore.DesktopAlwaysRebuilt | src/stores/ui.ts:44-52 | a record that is not `hpad`, `pad` or `mobile` is always rebuilt, however small the change in height |
| UiStore.ContentWidth | src/stores/ui.ts:66-77 | the content width is known exactly when a viewport record exists |
| UiStore.ContentInsetWidth | src/stores/ui.ts:79-83 | the inset width is known exactly when a viewport record exists |
| UiStore.ContentWidthRelations | src/stores/ui.ts:66-83 | the inset is exactly six font sizes narrower than the content; collapsing the sidebar widens the content by the collapse width; expanded content plus the sidebar is the viewport width |
| UiStore.UIStore.constructor | src/stores/ui.ts:26-28 | the store starts with an empty viewport record, a 250-pixel sidebar, the sidebar expanded and naive-ui light (also line 96) |
| UiStore.UIStore.UpdateViewport | src/stores/ui.ts:38-64 | the viewport becomes `NextViewport` of the old one: unchanged under the scroll guard, otherwise the classified measurement; no other field changes |
| UiStore.UIStore.OnlyToggleNaiveUIDark | src/stores/ui.ts:108-110 | a given flag is stored; without one the flag flips; nothing else changes |
| Sidebar.Toggle | src/components/sidebar/index.tsx:76-82 | the new index is the clicked index exactly when it differs from the open one, and -1 (all closed) otherwise |
| Sidebar.ToggleTwiceCloses | src/components/sidebar/index.tsx:76-82 | two clicks on a closed submenu open it and then close it |
| Sidebar.SidebarState.constructor | src/components/sidebar/index.tsx:51-74 | no menus, index 0, nothing navigated |
| Sidebar.SidebarState.OnMounted | src/components/sidebar/index.tsx:53-56 | the built menus replace the list; nothing else changes |
| Sidebar.SidebarState.OnVersionChange | src/components/sidebar/index.tsx:58-72 | the debug entry goes first exactly when the version is non-empty and is `dev` or the page proxy is on; otherwise the menus are unchanged |
| Sidebar.SidebarState.UpdateIndex | src/components/sidebar/index.tsx:76-82 | the index becomes `Toggle(old, next)` |
| Sidebar.SidebarState.HandleRoute | src/components/sidebar/index.tsx:84-96 | an item with sub-items changes nothing; a leaf is navigated to with its path and query, and toggles the index only when one is passed |
| Sidebar.SidebarState.OnItemClick | src/components/sidebar/index.tsx:181-185 | every top-level click toggles the index; only a leaf navigates |
| Sidebar.SidebarState.OnChildClick | src/components/sidebar/index.tsx:226 | a child click never moves the open submenu; a leaf child is navigated to, and a child with sub-items changes nothing, since `handleRoute` returns early |
| Sidebar.IsActive | src/components/sidebar/index.tsx:169-171 | an item is active exactly when the current path starts with its path; the equality test adds nothing (also lines 214-218) |
| Sidebar.ActiveIsPrefixClosed | src/components/sidebar/index.tsx:169-171 | the ancestors of an active item are active |
| Sidebar.MaxHeightRem | src/components/sidebar/index.tsx:203-206 | the open submenu is 3.5 rem per child high and every other one 0; positive exactly for the open submenu with children |
| Sidebar.AtMostOneSubmenuOpen | src/components/sidebar/index.tsx:203-206 | of any two submenus, at least one has height 0 |
| Sidebar.CollapseRequest | src/components/sidebar/index.tsx:101-107 | an outside click asks to collapse exactly on a `pad` or `mobile` viewport, and never asks to expand; the collapse button asks for the opposite state (also lines 155-157) |
| Sidebar.OutsideClickOnlyCollapses | src/components/sidebar/index.tsx:101-107 | on a desktop-sized window an outside click asks nothing |
| Sidebar.WidthStyle | src/components/sidebar/index.tsx:125 | an explicit width exactly while expanded with a nonzero width, and then that width |
| ManageTopics.UpsertExisting | src/views/manage-notes/topic.tsx:96-105 | a listed id: the first entry with it is replaced in place and the length is unchanged |
| ManageTopics.UpsertNew | src/views/manage-notes/topic.tsx:96-105 | an unseen id: the topic is appended and the list grows by one |
| ManageTopics.UpsertThenFind | src/views/manage-notes/topic.tsx:96-105 | after a submit, the first entry with the topic's id is the topic |
| ManageTopics.UpsertIdempotent | src/views/manage-notes/topic.tsx:96-105 | submitting the same topic twice is submitting it once |
| ManageTopics.UpsertKeepsIdsDistinct | src/views/manage-notes/topic.tsx:96-105 | distinct ids stay distinct |
| ManageTopics.TopicsPage.constructor | src/views/manage-notes/topic.tsx:69-70 | the fetched topics, no edited id, the modal flag off |
| ManageTopics.TopicsPage.HandleAddTopic | src/views/manage-notes/topic.tsx:71-74 | the modal is visible on a new topic; the list is unchanged |
| ManageTopics.TopicsPage.HandleEdit | src/views/manage-notes/topic.tsx:84-87 | the modal is visible on the given id; the list is unchanged (also line 234) |
| ManageTopics.TopicsPage.HandleCloseModal | src/views/manage-notes/topic.tsx:75-78 | the modal is hidden and the edited id cleared; the list is unchanged (also line 234) |
| ManageTopics.TopicsPage.HandleSubmit | src/views/manage-notes/topic.tsx:96-105 | the modal closes and the list becomes `Upsert(old list, topic)`; the `-~index` test is proved to be the `index != -1` test |
| ManageTopics.LeadingDigits | src/views/manage-notes/topic.tsx:48 | the longest run of decimal digits at the front of the string |
| ManageTopics.ParseIntOf | src/views/manage-notes/topic.tsx:48 | a query of decimal digits parses to its value |
| ManageTopics.DefaultPage | src/views/manage-notes/topic.tsx:48 | the default page is at least 1, and is the query's value when that is a positive decimal |
| ManageTopics.MissingPageFetchesZero | src/views/manage-notes/topic.tsx:31-48 | removing the page query makes the watcher fetch page 0, while a fetch without an argument asks for page 1 |
| ManageTopics.DigitPageAgrees | src/views/manage-notes/topic.tsx:31-64 | for a positive decimal query the watcher and the mount fetch the same page; for `0` the watcher fetches 0 and the mount 1 |
| JsPrims.NegBitNotNonzero | src/views/manage-notes/topic.tsx:99 | for any `findIndex` result, `-~index` is truthy exactly when the index is not -1 |
| JsPrims.TrimEmptyIff | src/views/manage-love-photos/edit.tsx:77 | `s.trim().length == 0` exactly when `s` is all whitespace |
| JsPrims.TrimIdempotent | src/views/manage-love-photos/edit.tsx:94-96 | trimming twice is trimming once |
| JsPrims.SpliceMinusOneDropsLast | src/views/shorthand/index.tsx:85 | `splice(-1, 1)` removes the last element |
| LovePhotoEdit.ResetReactive | src/views/manage-love-photos/edit.tsx:40-51 | the fresh record has exactly the ten keys, all empty strings except `hasPhotos`, which is on |
| LovePhotoEdit.ParseDataToPayload | src/views/manage-love-photos/edit.tsx:75-103 | a payload is built exactly when the description is a non-blank string and the music and detail-map fields are strings |
| LovePhotoEdit.EmptyDescriptionIff | src/views/manage-love-photos/edit.tsx:77-79 | the empty-description error occurs exactly for a falsy or blank description |
| LovePhotoEdit.Transform | src/views/manage-love-photos/edit.tsx:82-93 | the transformed record has the same keys as the form, each value copied with `undefined` turned into `null` |
| LovePhotoEdit.PayloadShape | src/views/manage-love-photos/edit.tsx:81-96 | the payload keeps the form's keys and holds no `undefined`; every other field is copied with `undefined` as `null`; the description, music and detail map are trimmed |
| LovePhotoEdit.FreshFormRejected | src/views/manage-love-photos/edit.tsx:40-79 | a fresh form cannot be submitted |
| LovePhotoEdit.PayloadRevalidates | src/views/manage-love-photos/edit.tsx:75-103 | a payload passes its own validation |
| LovePhotoEdit.PayloadIdempotent | src/views/manage-love-photos/edit.tsx:75-103 | building a payload from a payload gives the same payload |
| LovePhotoEdit.Submit | src/views/manage-love-photos/edit.tsx:104-122 | a list-valued id sends nothing; otherwise an invalid form aborts; a valid form is updated exactly for a non-empty string id, with that id, and created exactly when there is no truthy id; the sent payload is the parsed payload |
| LovePhotoEdit.ListIdSkipsValidation | src/views/manage-love-photos/edit.tsx:104-108 | with a list-valued id even a fresh form returns without a request or an error |
| LovePhotoEdit.ActionLabelAsWrittenMislabels | src/views/manage-love-photos/edit.tsx:129 | editing a record shows the publish label while the submit sends an update (also line 62) |
| LovePhotoEdit.ActionLabelFor | src/views/manage-love-photos/edit.tsx:129 | the update label is shown exactly when the page edits an existing record |
| LovePhotoEdit.ActionLabelMatchesSubmit | src/views/manage-love-photos/edit.tsx:104-129 | with the intended label, a valid form is updated exactly when the update label shows, and created only under the publish label |
| LovePhotoEdit.PickedTime | src/views/manage-love-photos/edit.tsx:205 | a cleared picker or instant 0 stores `null`; any other instant stores that date |
| LovePhotoEdit.PickerValueOf | src/views/manage-love-photos/edit.tsx:202 | the picker shows no value exactly for a falsy stored time |
| LovePhotoEdit.PickerRoundTrip | src/views/manage-love-photos/edit.tsx:202-206 | a picked nonzero instant is shown again; clearing shows nothing; picking instant 0 acts like clearing |
| LovePhotoEdit.LovePhotoForm.constructor | src/views/manage-love-photos/edit.tsx:61 | the form starts as `resetReactive()` |
| LovePhotoEdit.LovePhotoForm.OnTextInput | src/views/manage-love-photos/edit.tsx:158 | a text input writes its key, and the record keeps its key set (also lines 173, 184, 194, 211, 224, 239, 258) |
| LovePhotoEdit.LovePhotoForm.OnHasPhotos | src/views/manage-love-photos/edit.tsx:247 | the switch writes `hasPhotos`, and the record keeps its key set |
| LovePhotoEdit.LovePhotoForm.OnDatePicked | src/views/manage-love-photos/edit.tsx:204-206 | the picker writes `PickedTime(e)` to `time`, and the record keeps its key set |
| SecurityTab.KickAllDisabled | src/views/setting/tabs/security.tsx:86-88 | the button is disabled only for a one-session list whose session is the current one, and then nothing is kickable; for a one-session list it is disabled exactly when nothing is kickable; an empty list leaves it enabled |
| SecurityTab.KickRemovesExactlyId | src/views/setting/tabs/security.tsx:65 | after a kick, exactly the sessions with other ids remain |
| SecurityTab.KickKeepsOrder | src/views/setting/tabs/security.tsx:65 | the kick filter distributes over any split of the list, so the order is kept |
| SecurityTab.KickWithoutIdKeepsAll | src/views/setting/tabs/security.tsx:57-65 | without an id, a kick removes nothing |
| SecurityTab.SessionList.constructor | src/views/setting/tabs/security.tsx:49 | no sessions |
| SecurityTab.SessionList.OnFetched | src/views/setting/tabs/security.tsx:50-53 | the fetched list replaces the sessions |
| SecurityTab.SessionList.HandleKick | src/views/setting/tabs/security.tsx:57-67 | kicking the current session logs out and keeps the list; kicking another filters it out by id |
| SecurityTab.RemoveAbsentId | src/views/setting/tabs/security.tsx:231-238 | deleting an unlisted token id leaves the list unchanged |
| SecurityTab.RemoveListedId | src/views/setting/tabs/security.tsx:231-238 | deleting a listed id removes one entry, removes one entry with that id, and keeps the others in order |
| SecurityTab.RemoveFirstAt | src/views/setting/tabs/security.tsx:231-238 | deletion cuts out exactly the first entry with the id: when that entry is at `k`, the result is the list without position `k` |
| SecurityTab.PatchTokenOnlyFirst | src/views/setting/tabs/security.tsx:224-228 | only the first entry with the created name gets the token string; the length, every other entry and every other field are unchanged |
| SecurityTab.DefaultModel | src/views/setting/tabs/security.tsx:188-192 | the model has exactly the keys name, expired and expiredTime, holding an empty name, the switch off and the given instant |
| SecurityTab.PayloadOf | src/views/setting/tabs/security.tsx:204-209 | the request carries the name, and an expiry, the picked instant, exactly when the switch is on |
| SecurityTab.ApiTokens.constructor | src/views/setting/tabs/security.tsx:186-193 | no tokens, the dialog hidden, the model at its defaults |
| SecurityTab.ApiTokens.OnNameInput | src/views/setting/tabs/security.tsx:250-253 | the name is written and the model stays well typed |
| SecurityTab.ApiTokens.OnExpiredSwitch | src/views/setting/tabs/security.tsx:257-260 | the switch is written and the model stays well typed |
| SecurityTab.ApiTokens.OnExpiredTimePicked | src/views/setting/tabs/security.tsx:264-271 | the instant is written and the model stays well typed |
| SecurityTab.ApiTokens.OnDeleteToken | src/views/setting/tabs/security.tsx:231-238 | the list becomes `RemoveFirstById(old list, id)`; the dialog is untouched |
| SecurityTab.ApiTokens.ResetModel | src/views/setting/tabs/security.tsx:217-221 | every key of the dialog model is set back to its default value; the token list and the dialog flag are untouched |
| SecurityTab.ApiTokens.NewToken | src/views/setting/tabs/security.tsx:203-229 | the payload is built from the old model; if the clipboard write rejects, nothing on the page changes; otherwise the dialog closes, the model is reset key by key to the defaults, and the list is the refetched one, patched on the first entry with the name |
| SecurityTab.Stars | src/views/setting/tabs/security.tsx:316 | `'*'.repeat(n)` is n asterisks |
| SecurityTab.TokenCell | src/views/setting/tabs/security.tsx:316 | the token string when present, otherwise 40 asterisks |
| SecurityTab.TokenTableScrollX | src/views/setting/tabs/security.tsx:303-306 | known exactly when both widths are; then it is `Math.max(800, contentWidth - contentInsetWidth)`: at least both, and equal to one of them |
| SecurityTab.ScrollXIgnoresViewport | src/views/setting/tabs/security.tsx:303-306 | since the two widths always differ by six font sizes, the table scrolls at 800 whatever the viewport, for a font size up to 133 |
| SecurityTab.ValidatePasswordSame | src/views/setting/tabs/security.tsx:395-399 | the confirmation is accepted exactly when it equals the password |
| SecurityTab.ResetRequest | src/views/setting/tabs/security.tsx:406-425 | a reset is sent exactly when the password is non-empty and the confirmation equals it, and then it carries that password |
| Shorthand.RemoveAbsentDropsLast | src/views/shorthand/index.tsx:82-86 | as written, deleting an entry that is no longer listed removes the last entry |
| Shorthand.DeleteTwiceDropsAnother | src/views/shorthand/index.tsx:82-86 | as written, deleting `a` twice from `[a, b, c]` leaves `[b]` |
| Shorthand.RemoveItemLength | src/views/shorthand/index.tsx:82-86 | corrected deletion: an entry that is not listed leaves the list unchanged; a listed one makes it exactly one shorter |
| Shorthand.RemoveItemCount | src/views/shorthand/index.tsx:82-86 | corrected deletion removes exactly one copy of a listed entry and keeps every other entry: the multiset loses `item` and nothing else |
| Shorthand.RemoveItemAgreesWhenListed | src/views/shorthand/index.tsx:82-86 | for a listed entry, the corrected deletion and the source's agree |
| Shorthand.RemoveItemKeepsOrder | src/views/shorthand/index.tsx:82-86 | deletion distributes over a split of the list before the entry, so the other entries keep their order |
| Shorthand.Timeline.constructor | src/views/shorthand/index.tsx:32-33 | no entries, loading |
| Shorthand.Timeline.OnFetched | src/views/shorthand/index.tsx:34-41 | the fetched list replaces the data and loading ends |
| Shorthand.Timeline.OnCreated | src/views/shorthand/index.tsx:49-53 | a created entry goes to the front; a falsy result changes nothing |
| Shorthand.Timeline.OnDeleted | src/views/shorthand/index.tsx:82-86 | the data becomes `RemoveItem(old data, item)` |

## Left out

- REST calls, `message` toasts, the router and `window.location.reload`:
  - responses are parameters;
  - navigations are logged;
  - requests are returned as values;
  - a reload is reported as `LoggedOut`.
- The clipboard itself, in `newToken`: the model takes only whether the write
  succeeded (`copied`). A rejected token request is not modelled separately;
  like a rejected clipboard write, it stops the handler before any page state
  changes.
- Vue reactivity is not modelled: watchers, `watchEffect` scheduling,
  `computed` caching and the 500 ms resize debounce. Each handler is one
  method call, applied in the order the events arrive.
- JSX rendering, CSS classes and `marked` rendering of field descriptions:
  presentation only. `Dispatch` gives the chosen control; `PropertyNodes`
  gives each field's data.
- Floating point:
  - widths, heights and font sizes are whole pixels;
  - `parseInt` of the CSS variables is an input;
  - submenu heights use `real`.
- `Date`, `toISOString` and parsing a date string: instants are integer
  milliseconds, and a stored string is shown as `ParsedFrom(text)`.
- lodash paths are split on '.' only. Not modelled:
  - bracket syntax;
  - the case where the whole string is itself a key;
  - arrays as containers on the way.
- JavaScript object key order is the order of the given entries. Integer-like
  keys, which JavaScript moves first, are not reordered.
- ConfigForm.PropertyNodes: a `$ref` can point back at its own definition
  and recurse without end. The `fuel` bound stops nesting, and the model says
  nothing past that depth.
- Shorthand.RemoveItemAsWritten and Shorthand.Timeline.OnDeleted: `indexOf`
  compares by object identity; the model compares by value.
- Shorthand.Timeline.OnDeleted applies the corrected deletion `RemoveItem`.
  For an entry that is no longer listed, the page as written drops the last
  entry instead (`RemoveItemAsWritten`; see Findings).
- ManageTopics.NumberOf and ManageTopics.ParseIntOf are modelled on digit
  strings only. Not modelled:
  - leading whitespace and signs;
  - hexadecimal and exponent forms;
  - a query given as an array.
- The record load on mount (`useParsePayloadIntoData`) is not part of this
  model: its helper's source is not available. `LovePhotoEdit.EditsRecord`
  states when the load happens.
- The Passkey panel of the security tab: it is not one of the operations
  modelled here.
- `handleKickAll` and `handleDelete` on the topic page: they call the server
  and refetch, which adds no local rule.
- SecurityTab.ResetRequest: naive-ui's `required` rule is modelled as
  "non-empty".
- `isDark` and `toggleDark` (vueuse `useDark`): browser storage and a media
  query, outside the core.
- Each mounted field emits its current value once, even when that value is
  `undefined` (src/components/config-form/index.tsx:258-262). So fields the
  user never touched appear in the emitted data as keys holding `undefined`
  (`ConfigForm.MountTwoFieldsThenEdit`).
- ManageTopics.TopicsPage.HandleSubmit requires fewer than 2^32 topics: a
  JavaScript array cannot hold more, and `-~index` is only proved equal to
  the `index != -1` test in that range.

## Findings

| source | as written | input that shows it | evidently intended | confidence | as-written member | corrected member |
|---|---|---|---|---|---|---|
| src/views/shorthand/index.tsx:85 | `data.value.splice(data.value.indexOf(item), 1)` after the server delete | the entry is no longer in the list (for example the delete is confirmed twice, or a refetch already dropped it): `indexOf` gives -1 and `splice(-1, 1)` removes the last entry | remove the entry if it is listed, and otherwise leave the list alone | medium, not executed | Shorthand.RemoveAbsentDropsLast | Shorthand.RemoveItemLength |
| src/views/manage-love-photos/edit.tsx:129 | `isString(id)` tests the computed ref object, not `id.value` | `?id=42`: the ref is an object, so the header shows the publish label while submit sends an update | the update label when editing an existing record | high, not executed | LovePhotoEdit.ActionLabelAsWrittenMislabels | LovePhotoEdit.ActionLabelFor |
