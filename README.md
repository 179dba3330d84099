# RapidApp AutoHistory and template controller, modelled in Dafny

This project models two browser-side features of RapidApp.

- **AutoHistory** (`root/static/rapidapp/js/RapidApp/History.js`). It keeps a component's
  navigation state in step with the browser's back and forward buttons. Each navigation a
  component reports is encoded as a token `idx:id:old:new` and pushed onto the browser history.
  `idx` is a counter in 0..99 that wraps around. On every history change the coordinator decodes
  the token and takes one of four actions:
  - it ignores its own echo;
  - when history is exhausted, it replays the old state and re-installs a guard entry;
  - it navigates forward by replaying the token's new state;
  - it navigates backward by replaying the current token's old state.

  Direction is inferred from the wrapped distance between indices. The `Ext.TabPanel` override
  makes tab panels report their tab changes. A one-bit flag, `internalTabChange`, keeps replayed
  changes out of the history.
- **Template controller** (`share/assets/js/091-Template-Controller.js`). A panel plugin for
  editing server-side templates inline. Only its decisions are modelled:
  - click dispatch;
  - template-name cleaning;
  - the `get` / `create` / `set` request URLs and the save parameters;
  - the save outcomes: on success the editor closes and the tab reloads; on a 418 the user is
    asked whether to save anyway, and `yes` resubmits with `skip_validate`; any other failure
    shows an error;
  - the tab reload guard;
  - the rule that at most one editor window is open.

Files:

- `strings.dfy`, module `Strings`: the JavaScript string operations the code relies on.
  - `split` and `join` on a one-character separator.
  - `'' + n` for an index.
  - `parseInt` without a radix, including its `0x` prefix.
  - Round-trip lemmas between them.
- `history.dfy`, module `History`:
  - Index arithmetic and the token encoding.
  - The coordinator's operations, as functions on `HistState`. A `HistState` holds the two fields
    `navIdx` and `currentNav`, the browser history stack `pushed`, and the log `navs` of the
    `setNavState` calls the coordinator makes.
  - Lemmas about these functions.
  - The class `AutoHistory`. Its methods update the fields in place, and each one is proved to
    move `State()` exactly as the matching function says.
- `tab_nav.dfy`, module `TabNav`: the tab-panel override as the class `TabPanel`. It works
  together with an `AutoHistory` object and with the functions of `History`.
- `template_controller.dfy`, module `TemplateController`:
  - Pure decision functions and lemmas.
  - The class `TemplateControllerPanel`. It holds the plugin's fields: `win` and `tab`, plus logs
    of requests, message boxes, removed tabs and loaded configurations. Ajax answers and dialog
    answers arrive as method calls.

Foreign code enters only through parameters:

- `Ext.getCmp(id)` is a set `components` of live component ids.
- A history change notification is a call to `HandleHistChange` with the token.
- `Ext.History.add` appends to `pushed`.
- An Ajax answer is a call to `OnResponse` with a `Response` for one logged request.
- The tab that `loadContent` returns is the `loaded` parameter of `TabReload` and `OnResponse`.

## Model

| member | source | states |
|---|---|---|
| `Strings.Split` | root/static/rapidapp/js/RapidApp/History.js:105 | `split(':')`: there is always at least one field, and no field contains the separator |
| `Strings.Field` | root/static/rapidapp/js/RapidApp/History.js:96 | `parts[k]` is the k-th field when it exists, and otherwise the falsy `undefined`, modelled as "" |
| `Strings.SplitJoin` | root/static/rapidapp/js/RapidApp/History.js:76 | splitting a joined list gives the list back when no part contains the separator |
| `Strings.JoinSplit` | root/static/rapidapp/js/RapidApp/History.js:105 | joining the fields of a split gives the string back, so split loses nothing |
| `Strings.NatToString` | root/static/rapidapp/js/RapidApp/History.js:76 | `'' + navIdx` is a non-empty string of decimal digits with no leading zero |
| `Strings.Join` | share/assets/js/091-Template-Controller.js:38-41 | `join`: the first part starts the result and, when more parts follow, the separator comes right after it; `SplitJoin` and `TemplateController.RequestUrl` state the round trip and the URL it builds |
| `Strings.ParseInt` | root/static/rapidapp/js/RapidApp/History.js:106 | `parseInt` without a radix: after a `0x`/`0X` prefix it yields a number exactly when a hex digit follows; otherwise exactly when the field starts with a decimal digit; a field of decimal digits reads as its decimal value |
| `Strings.HexPrefixExamples` | root/static/rapidapp/js/RapidApp/History.js:106 | `parseInt` reads `'0x10'` as 16 and `'0X1f'` as 31, `'0xg'` as NaN, and `'010'` as 10 |
| `Strings.ParseIntNatToString` | root/static/rapidapp/js/RapidApp/History.js:106 | `parseInt('' + n) == n`: a printed index reads back as itself |
| `History.WrapIdx` | root/static/rapidapp/js/RapidApp/History.js:61 | on [-100, 199] the result is in [0, 99] and congruent to the input mod 100; on [0, 99] it is the identity |
| `History.WrapIdxIsSingleStep` | root/static/rapidapp/js/RapidApp/History.js:61 | outside that range it is only a single step, not a modulo (250 maps to 150, -150 to -50) |
| `History.IsForwardNav` | root/static/rapidapp/js/RapidApp/History.js:62 | for indices in [0, 99], forward iff (new - old) mod 100 < 50 |
| `History.DirectionExamples` | root/static/rapidapp/js/RapidApp/History.js:61-62 | (10, 11) and (99, 0) are forward, (10, 60) is backward; wrapIdx maps 100 to 0, -1 to 99, 50 to 50 |
| `History.StepIsForward` | root/static/rapidapp/js/RapidApp/History.js:75 | the index a new event gets is forward of the current one, and the current one is backward of it |
| `History.DirectionTieBreak` | root/static/rapidapp/js/RapidApp/History.js:62 | for distinct indices exactly one direction is forward, except at distance 50, where both read as backward |
| `History.MakeToken` | root/static/rapidapp/js/RapidApp/History.js:76 | the token is the ':'-join of the printed index, id, old and new value, and its first field is the printed index whatever the other three hold; `TokenRoundTrip` states the full round trip |
| `History.GuardToken` | root/static/rapidapp/js/RapidApp/History.js:67 | the guard token is the token of an event with empty id, old and new values; `GuardFields` states its fields |
| `History.TokenIndex` | root/static/rapidapp/js/RapidApp/History.js:105-106 | an index field of decimal digits reads as its value, below 100 for a well-formed token, and an empty index field reads as NaN; `TokenIndexOfToken` states it for built tokens |
| `History.TokenIndexOfToken` | root/static/rapidapp/js/RapidApp/History.js:76 | the index field of a recorded token parses back to its index, whatever the other fields contain, and a token built with an index in 0..99 is well formed |
| `History.TokenRoundTrip` | root/static/rapidapp/js/RapidApp/History.js:76 | splitting a recorded token on ':' gives back the index, id, old and new value, provided none of them contains ':' |
| `History.ColonBreaksRoundTrip` | root/static/rapidapp/js/RapidApp/History.js:10 | the "passed back as-is" promise fails for values containing ':': id `a:b` comes back as `a` and the fields shift |
| `History.GuardFields` | root/static/rapidapp/js/RapidApp/History.js:67 | a guard token splits into its index and three empty fields |
| `History.NavEffect` | root/static/rapidapp/js/RapidApp/History.js:82-89 | `performNav` makes one `setNavState(val)` call on the target iff id and val are non-empty and the component exists, and no call otherwise |
| `History.NavStep` | root/static/rapidapp/js/RapidApp/History.js:82-89 | `performNav` changes nothing except the navigation log |
| `History.SafeguardStep` | root/static/rapidapp/js/RapidApp/History.js:66-69 | `installSafeguard` keeps the index, makes the guard token current, pushes exactly it, and keeps the cursor invariant |
| `History.RecordStep` | root/static/rapidapp/js/RapidApp/History.js:72-80 | an empty newval changes nothing; otherwise the index advances by one mod 100, exactly the new current token is pushed, the token differs from the previous one, and the cursor invariant holds |
| `History.RecordedTokenDecodes` | root/static/rapidapp/js/RapidApp/History.js:76 | the token of a recorded event splits into the new index, the id, the old value and the new value |
| `History.HistChangeStep` | root/static/rapidapp/js/RapidApp/History.js:92-117 | keeps the cursor invariant. An empty token keeps the index and pushes the guard. The current token changes nothing. Any other token becomes current with its own index and pushes nothing. At most one navigation is added |
| `History.EchoIsIgnored` | root/static/rapidapp/js/RapidApp/History.js:102-103 | the notification caused by recording an event is ignored: no state change and no navigation |
| `History.EmptyTokenReplaysOldState` | root/static/rapidapp/js/RapidApp/History.js:93-99 | exhausted history replays the current token's id with its old state (field 2), then installs a guard at the unchanged index |
| `History.GuardReplayIsInert` | root/static/rapidapp/js/RapidApp/History.js:93-99 | replaying a guard token navigates nowhere, because its id is empty |
| `History.OtherTokenNavigates` | root/static/rapidapp/js/RapidApp/History.js:103-115 | a non-current token causes exactly one navigation attempt. Forward goes to the token's id with field 3; backward goes to the current token's id with field 2 |
| `History.BackThenForward` | root/static/rapidapp/js/RapidApp/History.js:91-117 | after one recorded event, Back replays its old state and restores the previous cursor, and Forward replays its new state and restores the event's cursor |
| `History.AutoHistory.constructor` | root/static/rapidapp/js/RapidApp/History.js:59-63 | the coordinator starts with index 0, an empty current token and no history |
| `History.AutoHistory.InstallSafeguard` | root/static/rapidapp/js/RapidApp/History.js:66-69 | updates the fields in place exactly as `SafeguardStep` |
| `History.AutoHistory.RecordHistEvent` | root/static/rapidapp/js/RapidApp/History.js:72-80 | updates the fields in place exactly as `RecordStep` |
| `History.AutoHistory.PerformNav` | root/static/rapidapp/js/RapidApp/History.js:82-89 | touches only the navigation log, exactly as `NavStep` |
| `History.AutoHistory.HandleHistChange` | root/static/rapidapp/js/RapidApp/History.js:92-117 | updates the fields in place exactly as `HistChangeStep`, keeping the cursor invariant |
| `TabNav.TabChangeStep` | root/static/rapidapp/js/RapidApp/History.js:130-136 | with the flag set, or a tab missing, nothing is recorded; otherwise one event is pushed and the index advances |
| `TabNav.ReplayRecordsNothing` | root/static/rapidapp/js/RapidApp/History.js:130-144 | right after `setNavState` the flag is set, so the next `beforetabchange` records nothing |
| `TabNav.UserTabChangeRecords` | root/static/rapidapp/js/RapidApp/History.js:131-132 | a user tab change records `(panelId, currentTabId, newTabId)`, and the pushed token decodes to them |
| `TabNav.TabPanel.constructor` | root/static/rapidapp/js/RapidApp/History.js:125-128 | a panel starts with the flag clear |
| `TabNav.TabPanel.BeforeTabChange` | root/static/rapidapp/js/RapidApp/History.js:130-136 | records as `TabChangeStep` says, always clears the flag and lets the change proceed |
| `TabNav.TabPanel.SetNavState` | root/static/rapidapp/js/RapidApp/History.js:138-144 | a known id sets the flag and becomes active; an unknown id leaves the flag and the active tab unchanged |
| `TabNav.TabPanel.GetNavState` | root/static/rapidapp/js/RapidApp/History.js:145 | the active tab's id, or "" when there is none |
| `TabNav.ReplayTabChange` | root/static/rapidapp/js/RapidApp/History.js:138-144 | a replayed navigation plus the notification it fires leaves the history unchanged, clears the flag, and makes the panel report the replayed state |
| `TemplateController.StripNewlines` | share/assets/js/091-Template-Controller.js:26 | the regex replace never makes the name longer |
| `TemplateController.StripNewlinesRemovesLineBreaks` | share/assets/js/091-Template-Controller.js:26 | the replace of `\r\n`, `\n` and `\r` is exactly the removal of every `\r` and `\n` character |
| `TemplateController.StripNewlinesIdempotent` | share/assets/js/091-Template-Controller.js:26 | stripping twice is stripping once |
| `TemplateController.TplElMeta` | share/assets/js/091-Template-Controller.js:23-30 | the extracted name has no `\r` or `\n` and equals the raw name with those removed |
| `TemplateController.RequestUrl` | share/assets/js/091-Template-Controller.js:38-41 | the URL is exactly `base + "/" + op + "/" + name` |
| `TemplateController.UrlEndsWithName` | share/assets/js/091-Template-Controller.js:93-96 | a name without '/' is the last path segment of its URL |
| `TemplateController.SaveParams` | share/assets/js/091-Template-Controller.js:98-101 | always carries `content`, and carries `skip_validate = 1` iff skipping is asked; no other keys |
| `TemplateController.EditRequest` | share/assets/js/091-Template-Controller.js:37-54 | a GET of `base/get/name` whose answer opens the editor for that name |
| `TemplateController.CreateRequest` | share/assets/js/091-Template-Controller.js:61-79 | a GET of `base/create/name` whose answer goes on to edit that name |
| `TemplateController.SaveRequest` | share/assets/js/091-Template-Controller.js:91-106 | a POST to `base/set/name` with the content, and with skip_validate iff asked |
| `TemplateController.Dispatch` | share/assets/js/091-Template-Controller.js:8-21 | edit iff the element has class `edit` inside a template. Create iff it has `create` but not `edit` inside a template. The name is the cleaned one |
| `TemplateController.SaveFailureDialog` | share/assets/js/091-Template-Controller.js:116-153 | a 418 asks for confirmation and keeps the name, content and error text; every other status shows the error text |
| `TemplateController.DialogAnswer` | share/assets/js/091-Template-Controller.js:135-141 | a request is issued iff the answer is `yes` to the validation question, and it is the same save with skip_validate |
| `TemplateController.ValidationOverride` | share/assets/js/091-Template-Controller.js:116-152 | after a failed save, a resubmission happens iff the status is 418 and the answer is `yes`. It goes to the same URL with the same name and content and `skip_validate = 1` |
| `TemplateController.ReloadTarget` | share/assets/js/091-Template-Controller.js:82 | `tabReload` works on the tab it last created, else on the panel's own tab |
| `TemplateController.AtMostOneEditor` | share/assets/js/091-Template-Controller.js:220-237 | under the plugin invariant, at most one editor window is open, and it is `win` |
| `TemplateController.TemplateControllerPanel.constructor` | share/assets/js/091-Template-Controller.js:3-6 | a fresh plugin has no window, no tab, no requests and no message |
| `TemplateController.TemplateControllerPanel.EditTemplate` | share/assets/js/091-Template-Controller.js:37-54 | issues exactly the edit request for the name |
| `TemplateController.TemplateControllerPanel.CreateTemplate` | share/assets/js/091-Template-Controller.js:61-79 | issues exactly the create request for the name |
| `TemplateController.TemplateControllerPanel.OnClick` | share/assets/js/091-Template-Controller.js:9-20 | issues the edit or create request that `Dispatch` chooses, or none |
| `TemplateController.TemplateControllerPanel.SetTemplate` | share/assets/js/091-Template-Controller.js:91-106 | issues exactly the save request with the given skip flag |
| `TemplateController.TemplateControllerPanel.LoadEditor` | share/assets/js/091-Template-Controller.js:220-237 | closes the previous window and opens a new one for the name and content; afterwards exactly that window is open, and the window counter advances by one |
| `TemplateController.TemplateControllerPanel.CloseEditor` | share/assets/js/091-Template-Controller.js:212-214 | Cancel closes the editor, and no window is left open |
| `TemplateController.TemplateControllerPanel.OnSaveClicked` | share/assets/js/091-Template-Controller.js:162-166 | Save posts the form's content under the window's template name, with validation |
| `TemplateController.TemplateControllerPanel.TabReload` | share/assets/js/091-Template-Controller.js:81-89 | removes and reloads the tab only when the container has `loadContent` and the tab has a load configuration; otherwise nothing changes, `tab` included |
| `TemplateController.TemplateControllerPanel.OnResponse` | share/assets/js/091-Template-Controller.js:43-153 | a fetched template opens the editor. A created one reloads the tab, then requests it for editing. A saved one closes the editor, then reloads the tab. A failed save shows the 418 question or an error. A failed fetch or create does nothing. Every other field stays as it was: the window and the open windows unless the editor opens or closes, the message unless a save fails, the request log unless a create succeeds, and the tab and reload logs unless a reload happens |
| `TemplateController.TemplateControllerPanel.OnDialogAnswer` | share/assets/js/091-Template-Controller.js:135-141 | answering closes the message box. Exactly the request `DialogAnswer` gives is issued: one skip_validate save for `yes` to the validation question, none otherwise |

## Left out

- `Ext.ux.RapidApp.HistoryInit_new` and its `!/` hash scheme are not modelled. They depend on `Ext.urlDecode`, `Ext.getCmp('main-load-target')` and `loadContent`, whose behaviour lies outside these sources.
- `Ext.ux.RapidApp.HistoryInit` is only event wiring. Its effect is the constructor followed by `InstallSafeguard`, with every later change notification arriving as a `HandleHistChange` call.
- The browser history mechanism (`Ext.History.init`, `add`, `on('change')`) is an append-only sequence `pushed` plus calls to `HandleHistChange`. Whether the browser fires a change for a pushed token is not modelled.
- History.AutoHistory.HandleHistChange: requires the token's index field to be a decimal number in 0..99 (`WellFormedToken`), the form of every token the coordinator builds. A hand-edited URL whose index field is NaN, signed, blank-led, hexadecimal or over 99 is not modelled.
- Strings.ParseInt: models the `0x`/`0X` hexadecimal prefix and decimal digits, but not a leading sign or leading whitespace, which JavaScript's `parseInt` also accepts. The index fields the coordinator builds have neither.
- History.TokenRoundTrip: holds only for id, old and new values without ':'. The source's comment promises values come back "as-is" without that condition, and `ColonBreaksRoundTrip` shows the promise fails for such values.
- Component objects are not modelled. A `setNavState` call on a target is a `NavCall` entry in a log, and what the target then does is not modelled, except for tab panels in `TabNav`.
- TabNav.ReplayTabChange: assumes that `setActiveTab` fires exactly one `beforetabchange` notification, synchronously, and that no other listener vetoes the change. `setActiveTab` is framework code outside these sources, and when it fires no notification, the flag stays set.
- Nothing ties `AutoHistory.PerformNav` to `TabPanel.SetNavState` automatically. Dispatch on the target's kind is framework code, so the two are composed explicitly in `ReplayTabChange`.
- All ExtJS UI construction in the template plugin is not modelled: the form, window and message-box configurations, their titles and sizes, `nl2br` formatting, and the DOM traversal (`parent`, `child`, `hasClass`, `innerHTML`). A click is abstracted to the element's classes and the raw name of its enclosing template.
- Ajax is abstracted to request records with one answer each. Overlapping requests, their timing and their order are not modelled, and neither are timeouts.
- What `loadContent` does is not modelled. The tab it returns is a parameter.
- Get and create failures: the source's failure handlers are commented out, so a failed fetch or create has no effect in the model. An error dialog for these failures is not what the code does.
- Concurrency: there is none beyond serial callbacks, and no interleavings are modelled.
