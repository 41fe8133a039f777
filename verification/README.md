# Interactive admin dashboard — a Dafny model of its screen logic

The dashboard is a single-page React application. A shell (`DashboardLayout`)
shows a sidebar of six entries and a header title. The application root
(`app.tsx`) keeps the key of the current screen and renders one of six screens.
This project models the logic behind three of those screens and behind the
shell. It does not model the markup.

- **Notifications.** Notification records live in a local store that starts
  from six seeded records. The user can mark one record as read, mark all as
  read, or delete one. A tab filter has two pseudo-tabs, "all" and "unread",
  and one tab per category. The header counts are always taken over the
  whole store.
- **Users.** A fixed list of five users is searched case-insensitively by name
  or e-mail. The screen shows header counts (total, active, blocked, new this
  month), avatar initials, and a "Block User" / "Unblock User" menu label.
- **Help.** A fixed list of five FAQ entries is searched case-insensitively by
  question or answer. A "no results" message appears when nothing matches. A
  contact form holds a subject, a message and a priority chosen from three
  buttons.
- **Shell and root.** The sidebar table maps each key to a label. The header
  title shows the label of the current key. One sidebar entry is highlighted.
  Two toggles control the collapsed sidebar and the mobile menu. A sidebar
  click sets the current screen, and `renderScreen()` picks the screen for a
  key.

Modules:

| file | module | contents |
|---|---|---|
| `seqs.dfy` | `Seqs` | order-preserving `Filter`, `CountWhere`, `FindFirst` (the `Array.prototype.filter`/`.length`/`.find` the screens use) and their algebra |
| `text.dfy` | `Text` | ASCII `Lower`, substring `Contains` (`String.prototype.includes`), `Split`/`Join` on one separator character |
| `notifications.dfy` | `Notifications` | the notifications screen |
| `users.dfy` | `Users` | the users screen |
| `help.dfy` | `Help` | the help screen |
| `layout.dfy` | `Layout` | the dashboard shell |
| `app.dfy` | `App` | the application root |

Each screen is modelled the same way:

- an immutable state (`…State`);
- an `Init` giving the state on mount;
- a `Step` (or a setter) for every user event that has a handler;
- a `Render` function giving the values the markup displays: counts, the
  visible list and the flags that show or hide elements.

## Model

| member | source | states |
|---|---|---|
| Seqs.Filter | components/NotificationsScreen.tsx:152 | the result holds exactly the elements of the input that pass the predicate, and it is no longer than the input |
| Seqs.FilterCharacterisation | components/NotificationsScreen.tsx:157-158 | a sequence equals the filter of `s` by `p` if and only if it is a subsequence of `s`, every element passes `p`, and its length is the number of elements of `s` passing `p` |
| Seqs.FindFirst | components/DashboardLayout.tsx:86 | returns the index of the first element satisfying the predicate, or nothing exactly when no element satisfies it |
| Seqs.FilterLength | components/NotificationsScreen.tsx:137 | `filter(p).length` is the number of elements satisfying `p` |
| Text.Lower | components/UseresScreen.tsx:124 | `toLowerCase()` on ASCII: the length is kept, no upper-case letter remains, upper-case letters map to their lower-case partner and every other character is unchanged |
| Text.Contains | components/UseresScreen.tsx:124-125 | `includes` holds exactly when the needle occurs at some position of the haystack, stated against the positional definition `Occurs` |
| Text.Split | components/UseresScreen.tsx:236 | `split(' ')` yields one more piece than there are separators, no piece contains the separator, and every character of a piece comes from the input |
| Text.JoinSplit | components/UseresScreen.tsx:236 | joining the pieces of a split with the same separator gives back the original string |
| Text.SplitJoin | components/UseresScreen.tsx:236 | splitting the join of separator-free words gives back the words |
| Notifications.CategoryNameInjective | components/NotificationsScreen.tsx:34 | distinct categories carry distinct category strings, so a category tab selects exactly one category |
| Notifications.MarkAsRead | components/NotificationsScreen.tsx:139-143 | records carrying the id become read; every other record is unchanged; apart from `isRead` nothing in any record changes; order and length are kept |
| Notifications.MarkAllAsRead | components/NotificationsScreen.tsx:145-149 | every record becomes read; apart from `isRead` nothing changes; order and length are kept |
| Notifications.MarkAllAsReadIdempotent | components/NotificationsScreen.tsx:145-149 | marking all as read twice is the same as once |
| Notifications.MarkAllIsMarkEachId | components/NotificationsScreen.tsx:139-149 | marking all as read equals marking each record's id as read, one after another |
| Notifications.DeleteNotification | components/NotificationsScreen.tsx:151-153 | the result keeps exactly the records whose id differs, as a subsequence in the original order, and its length is the number of such records |
| Notifications.DeleteAbsentIsNoOp | components/NotificationsScreen.tsx:151-153 | deleting an id no record carries leaves the store unchanged |
| Notifications.UniqueIdCount | components/NotificationsScreen.tsx:37-92 | when ids are unique, a present id is carried by exactly one record and an absent one by none |
| Notifications.DeletePresentShrinksByOne | components/NotificationsScreen.tsx:151-153 | when ids are unique, deleting a present id removes exactly one record |
| Notifications.MarkAsReadUnreadCount | components/NotificationsScreen.tsx:137-143 | after `markAsRead(id)`, the unread count has dropped by the number of unread records carrying that id |
| Notifications.MarkUnreadAsReadDecrements | components/NotificationsScreen.tsx:137-143 | when ids are unique, marking an unread record as read lowers the unread count by exactly one |
| Notifications.FilterNotifications | components/NotificationsScreen.tsx:155-159 | a record is shown on a tab if and only if the tab is "all", or the tab is "unread" and the record is unread, or the tab equals the record's category string |
| Notifications.FilterNotificationsIsFilter | components/NotificationsScreen.tsx:155-159 | the three branches together are one order-preserving filter by that tab rule |
| Notifications.AllTabIsIdentity | components/NotificationsScreen.tsx:156 | the "all" tab shows the store unchanged |
| Notifications.UnreadTabExact | components/NotificationsScreen.tsx:157 | the "unread" tab shows exactly the unread records, in store order, and no others |
| Notifications.CategoryTabExact | components/NotificationsScreen.tsx:158 | a category tab shows exactly that category's records, in store order, and no others |
| Notifications.UnknownTabIsEmpty | components/NotificationsScreen.tsx:158 | a tab value that names neither a pseudo-tab nor a category shows nothing |
| Notifications.UnreadCount | components/NotificationsScreen.tsx:137 | the unread count equals the length of the "unread" tab, and it is zero exactly when every record is read |
| Notifications.CategoryCount | components/NotificationsScreen.tsx:220 | the per-category header count equals the length of that category's tab |
| Notifications.CategoryCountsPartition | components/NotificationsScreen.tsx:27-35 | the four category counts add up to the store size |
| Notifications.MarkAllAsReadClearsUnread | components/NotificationsScreen.tsx:137-149 | after marking all as read the unread count is zero |
| Notifications.Init | components/NotificationsScreen.tsx:134-135 | the screen starts on the seeded records with tab "all" |
| Notifications.Step | components/NotificationsScreen.tsx:139-159 | "Mark as read", "Mark all as read" and "Delete" apply `markAsRead`, `markAllAsRead` and `deleteNotification` to the store, so their contracts carry over; choosing a tab leaves the store alone; a store mutation leaves the tab alone; no read record becomes unread; unique ids stay unique |
| Notifications.RunKeepsUniqueIds | components/NotificationsScreen.tsx:139-153 | ids stay unique along every sequence of user events |
| Notifications.Render | components/NotificationsScreen.tsx:176-268 | the total, unread, security and system counts are taken over the whole store; "Mark all as read" appears exactly when some record is unread; the list shows exactly the records the tab admits, as a subsequence of the store of the admitted length (so in store order); the empty message appears exactly when the tab admits none |
| Notifications.SelectTabKeepsCounts | components/NotificationsScreen.tsx:177-248 | choosing a tab changes only the visible list: the total, unread, security and system counts and the "Mark all as read" button stay as they were |
| Notifications.SeedIds | components/NotificationsScreen.tsx:37-92 | the seed holds six records with ids 1 to 6, so its ids are unique |
| Notifications.SeedUnreadTab | components/NotificationsScreen.tsx:37-92 | on the seed the "unread" tab shows records 1, 2 and 4, in that order |
| Notifications.SeedUnreadCount | components/NotificationsScreen.tsx:137 | on the seed the unread count is 3 |
| Notifications.MarkAllOnUnreadTabScenario | components/NotificationsScreen.tsx:145-149 | on the "unread" tab, "Mark all as read" empties the list, shows the empty message, hides the button and keeps all six records |
| Users.FilterUsers | components/UseresScreen.tsx:123-126 | a user is listed if and only if they match the search; the list is a subsequence of the user list whose length is the number of matching users, so it keeps list order |
| Users.EmptySearchKeepsAll | components/UseresScreen.tsx:120-126 | the empty term lists every user, in order |
| Users.SearchIgnoresTermCase | components/UseresScreen.tsx:124-125 | lower-casing the term first does not change the result |
| Users.MatchesSearch | components/UseresScreen.tsx:123-126 | a user matches exactly when the lower-cased term occurs at some position of the lower-cased name or e-mail; the empty term matches everyone |
| Users.ActiveUsers | components/UseresScreen.tsx:128 | the number of active users; zero exactly when nobody is active |
| Users.BlockedUsers | components/UseresScreen.tsx:129 | the number of blocked users; zero exactly when nobody is blocked |
| Users.ActivePlusBlockedAtMostTotal | components/UseresScreen.tsx:128-129 | active plus blocked never exceeds the total |
| Users.NewUsersThisMonthAsWritten | components/UseresScreen.tsx:130-132 | counts the users whose signup date contains the literal text "Jan 2024" |
| Users.DateOmitsJan2024 | components/UseresScreen.tsx:130-132 | no date written "Mon DD, YYYY" contains "Jan 2024" |
| Users.NewUsersThisMonthAsWrittenSeedIsZero | components/UseresScreen.tsx:35-91 | on the seeded users, the count as written is 0 |
| Users.NewUsersThisMonth | components/UseresScreen.tsx:130-132 | counts the users who signed up in January 2024 ("Jan DD, 2024"); zero exactly when nobody did |
| Users.SeedJanuarySignups | components/UseresScreen.tsx:35-91 | on the seeded users, Alice, Bob and Eva signed up in January 2024, so the count is 3 |
| Users.FirstChars | components/UseresScreen.tsx:236 | the `i`-th character is the first character of the `i`-th non-empty word, and there is one per non-empty word; with no empty word, it is exactly the first character of each word, in order |
| Users.AvatarInitials | components/UseresScreen.tsx:236 | the initials are the first characters of the non-empty space-separated words of the name, in order; with no empty word, one per word; every initial is a non-space character of the name |
| Users.InitialsOnePerWord | components/UseresScreen.tsx:236 | when no word of the name is empty, there is exactly one initial per word |
| Users.AliceWords | components/UseresScreen.tsx:236 | "Alice Johnson" splits on the space into "Alice" and "Johnson" |
| Users.AliceInitials | components/UseresScreen.tsx:236 | "Alice Johnson" gives "AJ" |
| Users.BlockActionLabel | components/UseresScreen.tsx:276 | "Unblock User" exactly for blocked users, "Block User" for all others |
| Users.Init | components/UseresScreen.tsx:120-121 | the search term starts empty and nothing is selected |
| Users.SetSearchTerm | components/UseresScreen.tsx:120 | typing replaces the term and leaves the selection |
| Users.HeaderCountsIgnoreSearch | components/UseresScreen.tsx:128-132 | typing a new search term leaves all four header counts unchanged and lists exactly the users matching the new term |
| Users.Render | components/UseresScreen.tsx:128-229 | the four header counts are over the whole list, never the search result, and "New This Month" is the literal `Jan 2024` count the source shows; the table lists exactly the matching users, in list order, never more than the total; bulk actions appear exactly when something is selected |
| Users.RenderIntended | components/UseresScreen.tsx:130-132 | the same screen with "New This Month" counting the January 2024 signups; nothing else differs |
| Users.NewThisMonthCard | components/UseresScreen.tsx:168-172 | on the seed the card shows 0 as written and 3 as intended |
| Users.SearchAliceFindsAlice | components/UseresScreen.tsx:123-126 | searching "alice" lists Alice Johnson |
| Help.FilterFaq | components/HelpScreen.tsx:101-104 | an entry is listed if and only if it matches the search; the list is a subsequence of the FAQ list whose length is the number of matching entries, so it keeps list order |
| Help.EmptySearchKeepsAll | components/HelpScreen.tsx:101-104 | the empty term lists every entry, in order |
| Help.OnMountAllFaqListed | components/HelpScreen.tsx:94-104 | on mount the search is empty and all five FAQ entries are listed |
| Help.SearchIgnoresTermCase | components/HelpScreen.tsx:102-103 | lower-casing the term first does not change the result |
| Help.MatchesSearch | components/HelpScreen.tsx:101-104 | an entry matches exactly when the lower-cased term occurs at some position of its lower-cased question or answer; the empty term matches every entry |
| Help.ButtonValue | components/HelpScreen.tsx:209-214 | each button writes its own value: "low" exactly for Low, "medium" exactly for Medium, "high" exactly for High |
| Help.InitForm | components/HelpScreen.tsx:95-99 | the form starts with an empty subject and message and priority "medium" |
| Help.ApplyEdit | components/HelpScreen.tsx:203-227 | an edit replaces the one field it targets and leaves the other two unchanged; a priority click sets the priority to that button's value |
| Help.PriorityStaysValid | components/HelpScreen.tsx:209-214 | after any sequence of edits, a valid priority is still one of the three options |
| Help.ReachablePriorityValid | components/HelpScreen.tsx:95-99 | every form reachable from the initial one has a priority among the three options |
| Help.Init | components/HelpScreen.tsx:94-99 | the screen starts with an empty search term and the initial form |
| Help.Step | components/HelpScreen.tsx:122-227 | typing in the search box never touches the form; a form edit applies that edit to the form (so `ApplyEdit`'s contract carries over) and never touches the search; a valid priority stays valid |
| Help.Render | components/HelpScreen.tsx:170-185 | the list shows exactly the matching entries, in FAQ order and of the matching count; the "no results" message appears exactly when no entry matches; the highlighted priority button is the form's priority |
| Layout.IsActive | components/DashboardLayout.tsx:133 | a sidebar entry is highlighted exactly when its label is the header title of a current screen that is a sidebar key; when the current screen is not a sidebar key no sidebar entry is highlighted |
| Layout.SidebarKeysDistinct | components/DashboardLayout.tsx:76-83 | no two sidebar entries share a key |
| Layout.PageTitle | components/DashboardLayout.tsx:85-88 | the title is the label of the entry whose key is the current screen, and "Dashboard" when no entry has that key |
| Layout.ActiveItemUnique | components/DashboardLayout.tsx:133 | at most one entry is highlighted, and one is highlighted if and only if the current screen is a sidebar key |
| Layout.InitLayout | components/DashboardLayout.tsx:73-74 | the sidebar starts expanded and the mobile menu closed |
| Layout.HandleEvent | components/DashboardLayout.tsx:116-160 | each toggle flips its own flag and leaves the other alone; the backdrop and a sidebar click close the mobile menu; a screen change is reported exactly for a sidebar click, carrying the entry's key |
| Layout.TogglesAreInvolutions | components/DashboardLayout.tsx:116-160 | pressing either toggle twice restores the state |
| App.RenderScreen | app.tsx:75-90 | the five keys analytics, users, settings, notifications and help select their screen; every other string selects the home view |
| App.RenderScreenKey | app.tsx:75-90 | every screen is rendered from its own key |
| App.Init | app.tsx:73 | the app starts on "dashboard", which renders the home view |
| App.Step | app.tsx:93-95 | a sidebar click makes its key the current screen and closes the mobile menu; no other event changes the current screen; the shell state always changes exactly as `HandleEvent` says, so each toggle and the backdrop behave as in the shell |
| App.CurrentScreenStaysKnown | app.tsx:73-95 | when driven by sidebar clicks only, the current screen is always one of the six sidebar keys |
| App.TitleOfUnknownKey | app.tsx:87-88 | a string that is not a sidebar key gives the title "Dashboard" and renders the home view |
| App.TitleMatchesRenderedScreen | app.tsx:75-97 | for every string, the header title names the screen that is rendered; an unknown key gives both "Dashboard" and the home view |

## Left out

- The markup, styling, icons and colour helpers are not modelled. These are `getNotificationIcon`, `getCategoryIcon`, `getCategoryColor`, `getStatusBadgeColor` and `getRoleBadgeColor`. They choose presentation only.
- The other screens and widgets are not modelled: the Analytics and Settings screens, `DashboardHome`'s widgets, `StatCard`, `ChartCard`, `NotificationList`, `TableSection` and the help screen's static support-resource list. They are outside the modelled core, and `App.Screen` names them only as targets of `RenderScreen`.
- Screen switches do not reset screen state here. `renderScreen` (app.tsx:75-90) returns a different component for each key, so leaving a screen unmounts it, and a later visit starts again from its initial state. For example, a deleted notification is back after leaving the Notifications screen and returning. `App.AppState` keeps no per-screen state, so the model neither shows nor contradicts this; each screen's `Init` is the state a visit starts from.
- React mechanics are not modelled: state hooks, re-rendering and functional `setState` updates. Each screen is a pure state, plus a step per event, plus a render function.
- Text.Lower: only ASCII letters are folded. JavaScript's `toLowerCase` also folds non-ASCII letters, so a search that depends on non-ASCII case folding is not covered.
- Text.Split and Users.AvatarInitials: strings are sequences of characters, not UTF-16 code units, so a surrogate pair counts as one character here.
- Buttons with no handler in the source do nothing here. These are "Filters", "Add User", "Bulk Actions", the row menu items of the users table, "Send Message" and the support resources. Users.Render models the bulk-actions bar, but no event ever changes the selection.
- The notification record's `type` field is modelled as `Kind`, because `type` is a Dafny keyword. The sidebar item's `label` field is modelled as `text`, because `label` is a Dafny keyword.
- No scenario lemma covers a search that matches nothing (for example "zzz" on the users list). The general membership lemmas cover that case.
- `app.tsx` imports the users and analytics screens from `./components/UsersScreen` and `./components/AnalyticsScreen`. The files are named `UseresScreen.tsx` and `Analytics.tsx`. This is a module-resolution matter and has no counterpart in the model.

## Findings

| source | as written | input that shows it | evidently intended | confidence | as-written member | corrected member |
|---|---|---|---|---|---|---|
| components/UseresScreen.tsx:130-132 | "New This Month" counts signup dates that contain the text `Jan 2024` | the seeded dates "Jan 15, 2024", "Jan 10, 2024" and "Jan 20, 2024" all have a comma after the day, so the count is 0 | count the users who signed up in January 2024, which is 3 on the seed | high; not executed | Users.NewUsersThisMonthAsWritten (Users.NewUsersThisMonthAsWrittenSeedIsZero) | Users.NewUsersThisMonth (Users.SeedJanuarySignups), shown by Users.RenderIntended |
