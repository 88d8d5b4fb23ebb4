# Dashboard UI state, modelled in Dafny

A model of the UI-state logic of a React analytics dashboard that runs on
hardcoded data. Four pieces carry logic:

- **The transactions table's action menu** (`transactions_table.dfy`, module
  `TransactionsTable`). At most one row's menu is open; the open one is named by
  a single optional row id. The menu's position is computed from the trigger
  button's bounding box and flips above the button near the bottom of the
  viewport. A scroll, a press outside the menu and the triggers, or choosing an
  entry closes it. The pure transition functions (`ActionClick`, `Scroll`,
  `MouseDown`, `MenuAction`) specify the class `ActionMenu`, whose methods update
  the two state fields in place. The table body lists every transaction in input
  order. It has no search or status filter.
- **The notification centre** (`notifications_view.dfy`). `markAsRead`,
  `deleteNotification` and `markAllAsRead` are functions on a sequence of
  `NotificationItem`. There are lemmas for their frame, idempotence and
  order-preservation properties, and for how they interact.
- **The settings screen** (`settings_view.dfy`). `handleChange` overrides one
  field of the profile form. `handleToggle` flips one of the four preference
  switches. Only three switches are on screen, so `newsletter` can never change
  from its initial `false`.
- **The application shell** (`app.dfy`). The class `Shell` holds `loaded`,
  `showSplash` and `currentView`. Each `setTimeout` callback is a separate step
  that can run once it has been scheduled: the splash timer, the load timer it
  schedules, and one timer per navigation to a different view. Navigation timers
  share one delay, so they fire in the order they were scheduled; the `pending`
  queue records that order. The header's title and subtitle and the
  `renderContent` dispatch are pure functions of the view.

Shared types (`types.dfy`) are `ViewType`, `Transaction` with its closed status
set, and `NotificationItem`.

DOM measurements become integer parameters: the button's bounding box and the
viewport height. The two scroll offsets enter only `ScrollTop` and
`PlacementAsWritten`, the placement as the code writes it (see Findings). `closest('.action-menu')` and
`closest('.action-button')` become two booleans. The lookup
`buttonRefs.current[id]` becomes a map from row id to bounding box.

The code uses JavaScript truthiness, and the model follows it. The scroll
handler tests `if (activeMenuId)` and the portal renders under
`activeMenuId && ...`. Both treat an open menu whose id is the empty string as
closed (`Truthy`). For the non-empty ids that rows actually have, the menu is
rendered exactly when an id is held (`MenuRenderedIffOpen`).

## Model

| member | source | states |
|---|---|---|
| `Types.ViewOf` | types.ts:1 | a string read as a view is that view's id |
| `Types.ViewIdRoundTrip` | types.ts:1 | every view id reads back as its own view, so the five ids are distinct |
| `TransactionsTable.ScrollTop` | components/TransactionsTable.tsx:47 | the scroll offset is `scrollY` whenever that is non-zero, and the document's `scrollTop` otherwise |
| `TransactionsTable.PlacementAsWritten` | components/TransactionsTable.tsx:47-57 | the menu's right edge meets the button's; its top is pinned by `PlacementAsWrittenSpec` and compared with `Placement` by `PlacementAsWrittenOffsetByScroll` |
| `TransactionsTable.Placement` | components/TransactionsTable.tsx:51-57 | the menu's right edge meets the button's, and it sits either 5 px below the button or 180 px above its top; `PlacementSpec` says which |
| `TransactionsTable.ActionClick` | components/TransactionsTable.tsx:37-62 | a trigger press either closes the menu, opens the pressed row's menu, or changes nothing; the position moves only when that row opens; `ClickOpenRowCloses`, `ClickOtherRowOpens` and `ClickUnregisteredNoChange` split the cases |
| `TransactionsTable.Scroll` | components/TransactionsTable.tsx:18-20 | after a scroll no menu is open and the position is kept |
| `TransactionsTable.MouseDown` | components/TransactionsTable.tsx:27-32 | a press never moves the menu and either keeps or clears the open id; `MouseDownSpec` says when |
| `TransactionsTable.MenuAction` | components/TransactionsTable.tsx:64-67 | choosing an entry leaves no menu open or rendered, with the position kept |
| `TransactionsTable.Rows` | components/TransactionsTable.tsx:83-123 | one row per transaction; `RowsSpec` gives each row's contents |
| `TransactionsTable.PlacementAsWrittenSpec` | components/TransactionsTable.tsx:47-57 | as written: top is rect.bottom + scrollTop + 5, or rect.top + scrollTop - 180 when rect.bottom + 200 > innerHeight; left is rect.right - 192 either way |
| `TransactionsTable.PlacementAsWrittenOffsetByScroll` | components/TransactionsTable.tsx:48-59 | the as-written position is the viewport position pushed down by exactly scrollTop, with the same left; the two agree iff scrollTop is 0 |
| `TransactionsTable.PlacementAsWrittenCounterexample` | components/TransactionsTable.tsx:48-51 | on a page scrolled by 300 px, the fixed menu opens 305 px below its button instead of 5 px |
| `TransactionsTable.PlacementSpec` | components/TransactionsTable.tsx:51-57 | corrected placement: the menu's right edge meets the button's; it starts 5 px below the button when there is room, otherwise 180 px above the button's top |
| `TransactionsTable.ClickOpenRowCloses` | components/TransactionsTable.tsx:40-43 | pressing the open row's trigger closes the menu and keeps the position |
| `TransactionsTable.ClickOtherRowOpens` | components/TransactionsTable.tsx:45-60 | pressing a registered trigger of another row, or with none open, opens that row's menu directly at the corrected `Placement` of its button |
| `TransactionsTable.ClickUnregisteredNoChange` | components/TransactionsTable.tsx:45-61 | a trigger with no registered button changes neither the id nor the position |
| `TransactionsTable.TriggerPressIsActionClick` | components/TransactionsTable.tsx:28-31 | the mousedown that precedes a trigger click leaves the state alone, so the press acts as the click alone |
| `TransactionsTable.EntryPressCloses` | components/TransactionsTable.tsx:64-67 | pressing a menu entry passes the mousedown listener and then closes the menu, which is no longer rendered |
| `TransactionsTable.ScrollCloses` | components/TransactionsTable.tsx:18-20 | a scroll closes an open menu and keeps its position; with none open it changes nothing; afterwards no menu is rendered |
| `TransactionsTable.MouseDownSpec` | components/TransactionsTable.tsx:28-31 | a press inside neither the menu nor any trigger closes the menu; a press inside either leaves the state unchanged |
| `TransactionsTable.MenuRenderedIffOpen` | components/TransactionsTable.tsx:128 | for non-empty ids, the menu is rendered exactly when a row id is held |
| `TransactionsTable.RowsSpec` | components/TransactionsTable.tsx:83-115 | the body has one row per transaction, in input order, and a row's trigger is active exactly when its id is the open one |
| `TransactionsTable.AtMostOneActiveRow` | components/TransactionsTable.tsx:12 | with distinct transaction ids, at most one row shows an active trigger |
| `TransactionsTable.StatusToneInjective` | components/TransactionsTable.tsx:97-106 | the three statuses get three different badge colours |
| `TransactionsTable.ActionMenu.constructor` | components/TransactionsTable.tsx:12-13 | no menu open, position (0, 0) |
| `TransactionsTable.ActionMenu.HandleActionClick` | components/TransactionsTable.tsx:37-62 | the new state is `ActionClick` of the old one: toggle off, or place and open |
| `TransactionsTable.ActionMenu.HandleScroll` | components/TransactionsTable.tsx:17-20 | the new state is `Scroll` of the old one |
| `TransactionsTable.ActionMenu.HandleMouseDown` | components/TransactionsTable.tsx:27-32 | the new state is `MouseDown` of the old one |
| `TransactionsTable.ActionMenu.HandleMenuAction` | components/TransactionsTable.tsx:64-67 | the new state is `MenuAction` of the old one: closed, position kept |
| `NotificationsView.MarkAsRead` | components/views/NotificationsView.tsx:16-18 | the list keeps its length; `MarkAsReadAt` gives each item |
| `NotificationsView.DeleteNotification` | components/views/NotificationsView.tsx:20-22 | the list never grows; `DeleteMembership` says which items survive |
| `NotificationsView.MarkAllAsRead` | components/views/NotificationsView.tsx:24-26 | the list keeps its length; `MarkAllAsReadAt` gives each item |
| `NotificationsView.CardActions` | components/views/NotificationsView.tsx:66-74 | a card offers one or two buttons, the last always deleting that card's item |
| `NotificationsView.Body` | components/views/NotificationsView.tsx:47-53 | the empty-state message is shown iff the list is empty |
| `NotificationsView.MarkAsReadAt` | components/views/NotificationsView.tsx:16-18 | length and order kept; items with the id become read with all other fields kept; other items unchanged |
| `NotificationsView.MarkAsReadIdempotent` | components/views/NotificationsView.tsx:17 | marking the same id twice equals marking it once |
| `NotificationsView.MarkAsReadHidesButton` | components/views/NotificationsView.tsx:67-71 | after marking an id, that item no longer offers the "mark read" button |
| `NotificationsView.DeleteMembership` | components/views/NotificationsView.tsx:20-22 | an item is in the result iff it was in the list and carries another id, so no item with the id is left |
| `NotificationsView.DeleteDistributes` | components/views/NotificationsView.tsx:21 | deletion splits over concatenation, so the survivors keep their relative order |
| `NotificationsView.DeleteSingle` | components/views/NotificationsView.tsx:21 | a single item is dropped exactly when it carries the id |
| `NotificationsView.DeleteAbsent` | components/views/NotificationsView.tsx:21 | deleting an id no item carries returns the list unchanged |
| `NotificationsView.DeleteUniquePresent` | components/views/NotificationsView.tsx:21 | with unique ids, deleting a present id removes exactly one item |
| `NotificationsView.MarkAllAsReadAt` | components/views/NotificationsView.tsx:24-26 | length and order kept; every item is read and keeps all its other fields |
| `NotificationsView.MarkAllAsReadIdempotent` | components/views/NotificationsView.tsx:25 | marking all twice equals marking all once |
| `NotificationsView.MarkAllAbsorbsMarkAsRead` | components/views/NotificationsView.tsx:17-25 | marking one id before marking all makes no difference |
| `NotificationsView.MarkAllAsReadHidesButtons` | components/views/NotificationsView.tsx:66-74 | after marking all, every card offers only its delete button |
| `NotificationsView.DeleteCommutesWithMarkAsRead` | components/views/NotificationsView.tsx:17-21 | marking one id and deleting another give the same list in either order |
| `NotificationsView.PressKeepsIdsUnique` | components/views/NotificationsView.tsx:16-22 | pressing a card's button keeps the ids unique |
| `NotificationsView.DeleteKeepsIdsUnique` | components/views/NotificationsView.tsx:21 | deletion keeps the ids unique |
| `NotificationsView.MarkAllKeepsIdsUnique` | components/views/NotificationsView.tsx:25 | marking all keeps the ids unique |
| `NotificationsView.EmptyStateIffEmpty` | components/views/NotificationsView.tsx:47-53 | the empty-state message is shown iff the list is empty; otherwise one card per item |
| `NotificationsView.MarkReadOfferedIffUnread` | components/views/NotificationsView.tsx:66-74 | the "mark read" button is offered iff the item is unread; the delete button always |
| `NotificationsView.InitialNotificationsShape` | components/views/NotificationsView.tsx:6-11 | four items with ids "1" to "4", all distinct; "1" and "2" unread, "3" and "4" read |
| `SettingsView.FieldOf` | components/views/SettingsView.tsx:19-21 | an input name designates a field only if it is that field's input name |
| `SettingsView.HandleChange` | components/views/SettingsView.tsx:19-21 | every field keeps its value unless the input's name designates it; `HandleChangeSetsOnlyField` gives the new value |
| `SettingsView.HandleToggle` | components/views/SettingsView.tsx:23-25 | the chosen switch is negated and every other switch keeps its value |
| `SettingsView.InputNameRoundTrip` | components/views/SettingsView.tsx:74-93 | each of the three inputs' names designates its own field |
| `SettingsView.HandleChangeSetsOnlyField` | components/views/SettingsView.tsx:19-21 | the field named by the input takes the value; the other two fields keep theirs |
| `SettingsView.HandleChangeUnknownName` | components/views/SettingsView.tsx:20 | a name that designates no field leaves the three fields unchanged |
| `SettingsView.HandleChangeOverwrites` | components/views/SettingsView.tsx:20 | the last edit of a field wins |
| `SettingsView.HeadingFollowsName` | components/views/SettingsView.tsx:53 | the profile heading shows the current name: the new value after editing "name", unchanged otherwise |
| `SettingsView.HandleToggleFlipsOnly` | components/views/SettingsView.tsx:23-25 | the chosen switch is negated; every other switch keeps its value |
| `SettingsView.HandleToggleTwice` | components/views/SettingsView.tsx:24 | toggling the same key twice restores the record |
| `SettingsView.ApplyTogglesParity` | components/views/SettingsView.tsx:24 | after a run of toggles, a switch is flipped iff it was toggled an odd number of times |
| `SettingsView.NewsletterUnreachable` | components/views/SettingsView.tsx:105-121 | under any run of clicks on the three rendered switches, newsletter stays false |
| `SettingsView.InitialState` | components/views/SettingsView.tsx:6-17 | the name starts as "John Doe"; notifications on, twoFactor off, publicProfile on, newsletter off; newsletter has no switch |
| `App.HeaderTitle` | App.tsx:160 | every view has a non-empty title; `HeaderTitleSpec` gives it |
| `App.HeaderSubtitle` | App.tsx:163-167 | every view has a non-empty subtitle; `HeaderSubtitleInjective` shows they differ |
| `App.RenderContent` | App.tsx:97-120 | a string naming no view renders the dashboard; `RenderContentDispatch` covers the five views |
| `App.HeaderTitleSpec` | App.tsx:160 | 'Analíticas de Conversión' for analytics, 'Configuración de Tienda' for settings, the view's id otherwise |
| `App.HeaderTitleInjective` | App.tsx:160 | no two views share a title |
| `App.HeaderSubtitleInjective` | App.tsx:163-167 | each view has its own subtitle; settings gets the fallback, which no other view shares |
| `App.RenderContentDispatch` | App.tsx:97-120 | each view id renders its own screen; a string naming no view renders the dashboard |
| `App.Shell.constructor` | App.tsx:73-75 | loaded false, splash shown, view dashboard, splash timer due, no navigation pending |
| `App.Shell.SplashTimerFires` | App.tsx:79-80 | hides the splash and schedules the load timer; nothing else changes |
| `App.Shell.LoadTimerFires` | App.tsx:81 | sets loaded and ends the splash sequence; nothing else changes |
| `App.Shell.Navigate` | App.tsx:87-95 | navigating to the current view changes nothing; to another view, clears loaded and schedules a switch, with the view unchanged for now |
| `App.Shell.NavigationTimerFires` | App.tsx:90-93 | the oldest scheduled navigation becomes the current view, with loaded set |

## Left out

- Markup, Tailwind classes, CSS transitions and animation delays are left out. They carry no state. This covers the `capitalize` styling of the header title and the icon picked per notification type (`getIcon`).
- Charts, the finance view, the dashboard layout, the KPI cards and the sidebar are presentation. The finance view's amounts also come from `Math.random`. The sidebar only calls `handleNavigate`, which is modelled.
- Browser side effects are left out: `alert` in `handleMenuAction`, the page reload on logout, and the direct DOM mutation in `handleSave`.
- Registering and removing event listeners, `e.stopPropagation()` and the portal are left out. Only the state effect of each event is modelled.
- Real timer scheduling is not modelled, and neither is the cancellation of the splash timer on unmount. The load timer and the navigation timers may fire in any interleaving. Only the order among navigation timers is kept, because they share one delay.
- DOM measurements are floating point in the browser; here they are integers.
- SettingsView.HandleChange: for an input `name` other than name, email or bio, JavaScript adds a new property that nothing reads. The model leaves the three fields unchanged. Every input on screen has one of the three names.
- TransactionsTable.ClickOtherRowOpens: this lemma and `ActionClick` place the opened menu at the corrected `Placement`, not at the code's `PlacementAsWritten`. The two differ by exactly the scroll offset (`PlacementAsWrittenOffsetByScroll`) and agree on an unscrolled page; see Findings.
- TransactionsTable.ActionMenu.HandleActionClick: places the menu with the corrected viewport-coordinate rule (`Placement`) and takes no scroll offsets. The code as written is `PlacementAsWritten`; see Findings.
- App.Shell.SplashTimerFires, App.Shell.LoadTimerFires, App.Shell.NavigationTimerFires: each requires its timer to be scheduled. A callback only runs after its `setTimeout`.

## Findings

| source | as written | input that shows it | evidently intended | confidence | as-written member | corrected member |
|---|---|---|---|---|---|---|
| components/TransactionsTable.tsx:48-57 | The menu's `top` adds the page scroll offset to the button's viewport-relative bounding box. The menu is `position: fixed` (line 130), so it is positioned in viewport coordinates. | A button with top 60 and bottom 100 on a page scrolled by 300 px, viewport height 800: `top` is 405, so the menu appears 305 px below the button. | Viewport coordinates throughout, as the flip test against `innerHeight` already uses: `top = rect.bottom + 5`, or `rect.top - 180` when flipped. | medium; not executed | `TransactionsTable.PlacementAsWrittenCounterexample` | `TransactionsTable.PlacementSpec` |
