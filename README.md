# Event planner client logic in Dafny

This project models the decision and list logic of the React client of an event planner. The client has these parts:

- an event list with role-based filtering and paging;
- a dashboard calendar with per-day markers and a bar chart of events per day;
- an event page with a chat room and an invite panel;
- an invite dialog;
- a notification list;
- an edit form;
- a toast queue;
- a Google Calendar link builder.

The client calls a server over HTTP and a socket. The model never talks to one. Each response is an input to the model, written `Option<...>` where `None` means the request failed, or `bool` where only success matters. Clock readings, and the parse and format steps of `Date`, are inputs or abstract values too:

- calendar days are `DayKey` values;
- `new Date(...)` in the link builder is an `Instant`, either valid UTC fields or an invalid date.

Pure expressions become functions with lemmas about them. The React state slots of each page and of each component that holds state are the fields of a class. Each setter call or asynchronous step becomes a method with `modifies` and `ensures` clauses that state the whole new state. A handler that awaits between two state changes is split into a `Begin…`/`Finish…` pair, so that the intermediate state (`loading` raised) can be observed.

Modules, one per source file (plus `Common`):

- `Common`: shared values (users, roles, events, optional strings with JavaScript truthiness, response bodies as far as `data.key || data || []` looks into them), the generic order-preserving filter and the subsequence relation.
- `CalendarLink`: `src/services/google.js`.
- `Toasts`: `src/components/ToastContainer.jsx`.
- `Analytics`: `src/components/Analytics.jsx`.
- `Dashboard`: `src/pages/Dashboard.jsx`.
- `EventsPage`: `src/pages/Events.jsx`.
- `Notifications`: `src/pages/Notifications.jsx`.
- `InviteParticipants`: `src/components/InviteParticipants.jsx`.
- `InviteModal`: `src/components/InviteModal.jsx`.
- `EditEvent`: `src/pages/EditEvent.jsx`.
- `EventDetails`: `src/pages/EventDetails.jsx`.

## Model

| member | source | states |
|---|---|---|
| `Common.OrElse` | src/services/google.js:14-16 | `x \|\| fallback` on an optional string: the value when it is present and non-empty, the fallback otherwise |
| `Common.OrEmptyIsValueOrEmpty` | src/pages/EditEvent.jsx:31-35 | `x \|\| ""` is the value when one is present, and "" when it is missing |
| `Common.Unwrap` | src/pages/Dashboard.jsx:22 | `data.events \|\| data \|\| []` under JavaScript truthiness: a null or undefined body throws (no value); an array or object under the key wins, even when empty; else a truthy body itself; else `[]` |
| `Common.JsOr` | src/pages/Dashboard.jsx:22 | `a \|\| b` is `a` exactly when `a` is truthy (an array or an object, even an empty one), else `b` |
| `Common.Property` | src/pages/Dashboard.jsx:22 | reading `data.events` throws exactly on null or undefined; an object yields its property, an array or a falsy scalar yields undefined |
| `Common.EmptyEnvelopeWins` | src/pages/Dashboard.jsx:22 | a body `{ events: [] }` unwraps to the empty list, not to the envelope, because an empty array is truthy |
| `Common.ListRead` | src/pages/Events.jsx:24 | the list a page stores: a bare array is itself, an array under the key is that array, a falsy scalar gives `[]`; a read that throws, or picks a value that is not a list, gives none |
| `Common.PrevPage` | src/pages/Events.jsx:133 | Prev never goes below page 1; above page 1 it steps back exactly one page |
| `CalendarLink.NatToString` | src/services/google.js:8 | `String(n)` of a natural number is all digits and reads back to n |
| `CalendarLink.NumToStringDigits` | src/services/google.js:8 | `String(x)` is "NaN" for NaN, the decimal digits of x for x >= 0, and "-" followed by the digits of -x otherwise |
| `CalendarLink.Pad` | src/services/google.js:8 | `pad` gives 0..9 a leading "0" and leaves n >= 10 unchanged; for 0..99 it is exactly two digits with value n; NaN prints as "NaN" |
| `CalendarLink.TwoDigitString` | src/services/google.js:8 | a number from 10 to 99 prints as its tens digit then its units digit |
| `CalendarLink.FourDigitString` | src/services/google.js:9 | a four-digit year prints as exactly four characters |
| `CalendarLink.StampOfValid` | src/services/google.js:9 | the stamp of a valid date is the year's digits, the padded month (zero-based plus one), day, "T", padded hour, minute, second, then "Z" |
| `CalendarLink.StampRoundTrip` | src/services/google.js:5-10 | the stamp of a valid four-digit-year date has 16 characters; its month is the zero-based month plus one, in 01..12; it parses back to exactly the date's UTC fields |
| `CalendarLink.InvalidStamp` | src/services/google.js:5-10 | an invalid date stamps as "NaNNaNNaNTNaNNaNNaNZ" |
| `CalendarLink.Params` | src/services/google.js:13-18 | the parameters are text, details, location and dates, in that order; a missing title, details or location becomes ""; dates is the value built from start and end |
| `CalendarLink.Link` | src/services/google.js:12-19 | the link is the fixed base URL, then "&", then the serialised parameters, and nothing else |
| `CalendarLink.DatesLayout` | src/services/google.js:17 | for any two dates, valid or not, the dates value is exactly the start stamp, then "/", then the end stamp |
| `CalendarLink.DatesRoundTrip` | src/services/google.js:17 | the dates value is start stamp, "/", end stamp: 33 characters whose halves parse back to the start and end |
| `Toasts.ToastQueue.constructor` | src/components/ToastContainer.jsx:5 | the queue starts empty |
| `Toasts.ToastQueue.Push` | src/components/ToastContainer.jsx:7-9 | push appends exactly one toast, whose id is the clock reading, and leaves earlier toasts unchanged |
| `Toasts.ToastQueue.Expire` | src/components/ToastContainer.jsx:10 | the timer callback replaces the list by the list without that id |
| `Toasts.ExpireRemovesExactlyId` | src/components/ToastContainer.jsx:10 | expiry removes every toast with the id and keeps every other toast, with its multiplicity and in order |
| `Toasts.ExpireAbsentIsNoop` | src/components/ToastContainer.jsx:10 | expiring an id no toast carries changes nothing |
| `Toasts.SameMillisecondExpiresTogether` | src/components/ToastContainer.jsx:8-10 | two toasts pushed in the same millisecond share an id, so one expiry removes both |
| `Toasts.PushThenExpireRestores` | src/components/ToastContainer.jsx:7-10 | with a fresh id, a push and then its expiry restore the list exactly |
| `Analytics.FirstSeen` | src/components/Analytics.jsx:12 | the keys of the counting object hold each day once, and exactly the days present |
| `Analytics.CountDays` | src/components/Analytics.jsx:8-11 | the `forEach` loop leaves one key per distinct start day, in first-met order, each holding the number of events on that day |
| `Analytics.TallyStep` | src/components/Analytics.jsx:10 | `(map[day] \|\| 0) + 1` keeps every count exact for one more event, adding the day as a new key only when it is new |
| `Analytics.TallyNext` | src/components/Analytics.jsx:9-10 | one turn of the `forEach` loop extends the tally over the days handled so far by the next event's day |
| `Analytics.FirstSeenInFirstMetOrder` | src/components/Analytics.jsx:8-12 | the keys come in the order of their first events: a key before another has its first event earlier in the list |
| `Analytics.OrderSnoc` | src/components/Analytics.jsx:9-10 | one more event keeps the first-met order of the keys, a new day going last |
| `Analytics.ChartData` | src/components/Analytics.jsx:6-13 | the counting loop produces at most seven bars: the first seven days in first-met order, each with the number of events starting that day; a missing list counts as empty |
| `Analytics.EveryCountPositive` | src/components/Analytics.jsx:10 | every counted day has at least one event |
| `Analytics.CountsSumToEvents` | src/components/Analytics.jsx:8-11 | the counts over all days add up to the number of events |
| `Analytics.AddOneDay` | src/components/Analytics.jsx:10 | one more event raises its day's count by exactly one and no other count |
| `Analytics.ChartCountsBounded` | src/components/Analytics.jsx:12 | the bars never count more events than exist, and count all of them when no days are cut |
| `Analytics.NoDataIffNoEvents` | src/components/Analytics.jsx:15 | "Not enough data" appears exactly when there are no events |
| `Dashboard.EventsOnDateExact` | src/pages/Dashboard.jsx:30-33 | `eventsOnDate` keeps exactly the events starting on that day, each as often as listed, in order |
| `Dashboard.EventsOnDate` | src/pages/Dashboard.jsx:30-33 | keeps exactly the events starting on that day, in list order |
| `Dashboard.TileClassName` | src/pages/Dashboard.jsx:94-101 | the only class ever given is "event-date", and it is given exactly to month tiles whose day has an event |
| `Dashboard.ShowsCheckmark` | src/pages/Dashboard.jsx:102-104 | the checkmark is drawn exactly on the tiles that get "event-date" |
| `Dashboard.ShowsNoEvents` | src/pages/Dashboard.jsx:133-136 | the message shows exactly when no event starts on the selected day |
| `Dashboard.TileMarkedIffEventsOnDate` | src/pages/Dashboard.jsx:94-104 | a month tile gets "event-date" and the checkmark iff `eventsOnDate` of its day is non-empty; other views get neither |
| `Dashboard.NoEventsIffUnmarked` | src/pages/Dashboard.jsx:133-136 | "No events scheduled" shows for the selected day iff its month tile is unmarked |
| `Dashboard.AfterFetch` | src/pages/Dashboard.jsx:16-26 | the list becomes the body's array, or the array under `events`, or `[]` for a falsy body; a failed request, a null or undefined body (the read throws), or a non-list choice leaves it unchanged |
| `Dashboard.DashboardView.constructor` | src/pages/Dashboard.jsx:11-13 | no events, today selected, the calendar layout |
| `Dashboard.DashboardView.Fetch` | src/pages/Dashboard.jsx:15-26 | the list becomes what the settled request gives by `AfterFetch`; nothing else changes |
| `Dashboard.DashboardView.Select` | src/pages/Dashboard.jsx:91 | the picked date becomes the selected date |
| `Dashboard.DashboardView.SetLayout` | src/pages/Dashboard.jsx:49-68 | the buttons switch between the calendar and the list layout |
| `Dashboard.DashboardView.Cards` | src/pages/Dashboard.jsx:87-171 | the list layout shows every event; the calendar layout exactly the selected day's events, each as often as listed; always in list order |
| `EventsPage.VisibleEvents` | src/pages/Events.jsx:24-33 | an Organizer sees exactly the events they organise and a Participant exactly those listing them, each as often as fetched; any other role sees all events; always in the fetched order |
| `EventsPage.ShowsCreate` | src/pages/Events.jsx:59-60 | the Create link shows exactly for an Admin or an Organizer |
| `EventsPage.ShowsEdit` | src/pages/Events.jsx:95-97 | Edit/Invite always shows for an Admin, for an Organizer exactly on the events they organise, and never for a role that may not create |
| `EventsPage.ShowsParticipantActions` | src/pages/Events.jsx:114-116 | Chat/Leave shows only for a Participant, and for a Participant exactly on events listing them; never on an event without a participant list |
| `EventsPage.ListedCardsCarryActions` | src/pages/Events.jsx:27-33 | every card an Organizer is shown offers Edit/Invite; every card a Participant is shown offers Chat/Leave; no card offers both, and no other role sees Chat/Leave |
| `EventsPage.EditImpliesCreate` | src/pages/Events.jsx:96-97 | Edit/Invite shows for an Admin, or for an Organizer owning the event; only roles that may Create get it |
| `EventsPage.Preview` | src/pages/Events.jsx:84 | the whole description when it has at most 80 characters, else exactly its first 80; then "..."; a missing description shows only "..." |
| `EventsPage.NextPage` | src/pages/Events.jsx:139 | Next moves to exactly the following page; it has no upper bound |
| `EventsPage.PrevUndoesNext` | src/pages/Events.jsx:133-139 | on every page from 1 up, Prev after Next returns to the same page |
| `EventsPage.EventsView.constructor` | src/pages/Events.jsx:9-12 | the list starts empty on page 1, not loading |
| `EventsPage.EventsView.Prev` | src/pages/Events.jsx:133 | the page stays at least 1 |
| `EventsPage.EventsView.Next` | src/pages/Events.jsx:139 | the page advances by one |
| `EventsPage.EventsView.BeginLoad` | src/pages/Events.jsx:16-17 | without a token, no request is made and nothing changes; otherwise `loading` is raised |
| `EventsPage.EventsView.FinishLoad` | src/pages/Events.jsx:24-39 | when the body reads as a list, the role-filtered list replaces the events; when the request fails or the read throws, the events are kept; `loading` is lowered on both paths |
| `Notifications.MarkRead` | src/pages/Notifications.jsx:39-41 | same length; each item is unchanged except that `read` becomes true where the id matches |
| `Notifications.MarkReadIdempotent` | src/pages/Notifications.jsx:39-41 | marking twice is marking once |
| `Notifications.MarkReadChangesOnlyTarget` | src/pages/Notifications.jsx:39-41 | items with another id, or already read, are untouched; ids never change |
| `Notifications.TotalPages` | src/pages/Notifications.jsx:52 | `Math.ceil(total / 10)`: the page count is the least one whose pages hold the total |
| `Notifications.NextPageCapped` | src/pages/Notifications.jsx:105 | below the last page Next steps forward by exactly one; at or past it, Next gives the last page |
| `Notifications.ShowsPager` | src/pages/Notifications.jsx:92 | the pager shows exactly when there are more than ten notifications |
| `Notifications.ShowsMarkButton` | src/pages/Notifications.jsx:78 | "Mark as read" shows exactly on unread items |
| `Notifications.MarkingHidesButton` | src/pages/Notifications.jsx:39-41 | once marked, no item with that id offers the button, and every other item offers it exactly as before |
| `Notifications.PagerKeepsRange` | src/pages/Notifications.jsx:92-106 | Prev and Next keep the page within 1..totalPages; each button leaves the page unchanged exactly where it is disabled |
| `Notifications.NotificationsView.constructor` | src/pages/Notifications.jsx:7-9 | the view starts on page 1 with no items and a total of 0 |
| `Notifications.NotificationsView.Fetch` | src/pages/Notifications.jsx:14-28 | on success, the items and the total are replaced; on failure, nothing changes |
| `Notifications.NotificationsView.MarkAsRead` | src/pages/Notifications.jsx:30-45 | the list changes only after the server accepts |
| `Notifications.NotificationsView.Prev` | src/pages/Notifications.jsx:92-96 | pressable only with the pager drawn and off page 1; goes back one page, clamped at 1 |
| `Notifications.NotificationsView.Next` | src/pages/Notifications.jsx:104-106 | pressable only with the pager drawn and off the last page; goes forward one page, clamped at the page count |
| `InviteParticipants.AvailableUsersExact` | src/components/InviteParticipants.jsx:23-26 | the available users are exactly the non-participants, with multiplicity, in their original order |
| `InviteParticipants.AvailableUsers` | src/components/InviteParticipants.jsx:23-26 | keeps exactly the users who are not participants; never more users than listed |
| `InviteParticipants.NoParticipantsAllAvailable` | src/components/InviteParticipants.jsx:23-26 | with no participants, every user is available |
| `InviteParticipants.Toggled` | src/components/InviteParticipants.jsx:76-80 | checking appends the value at the end; unchecking removes every occurrence and keeps the rest in order |
| `InviteParticipants.ClickFlipsOneBox` | src/components/InviteParticipants.jsx:73-80 | a click flips exactly that box and keeps the selection duplicate-free |
| `InviteParticipants.InvitePanel.constructor` | src/components/InviteParticipants.jsx:7-8 | no users and no selection |
| `InviteParticipants.InvitePanel.LoadUsers` | src/components/InviteParticipants.jsx:12-32 | on success, the available users replace the list; on failure, it is kept |
| `InviteParticipants.InvitePanel.ClickBox` | src/components/InviteParticipants.jsx:73-80 | a click toggles that id and keeps the selection duplicate-free |
| `InviteParticipants.InvitePanel.HandleInvite` | src/components/InviteParticipants.jsx:38-57 | an empty selection only warns; success sends the selection and clears it; failure keeps it |
| `InviteModal.SelectedValues` | src/components/InviteModal.jsx:90-92 | the new selection is exactly the chosen listed ids, in list order |
| `InviteModal.SelectionWithinList` | src/components/InviteModal.jsx:26-29 | the selection is duplicate-free and never names a current participant |
| `InviteModal.Modal.constructor` | src/components/InviteModal.jsx:6-9 | no users, no selection, not loading |
| `InviteModal.Modal.SetOpen` | src/components/InviteModal.jsx:6 | the parent sets `isOpen` |
| `InviteModal.Modal.BeginLoad` | src/components/InviteModal.jsx:12-16 | users are requested only while the dialog is open, and `loading` is raised then |
| `InviteModal.Modal.FinishLoad` | src/components/InviteModal.jsx:26-37 | on success, the available users replace the list; `loading` is lowered on both paths |
| `InviteModal.Modal.Select` | src/components/InviteModal.jsx:90-92 | a change replaces the selection wholesale |
| `InviteModal.Modal.HandleInvite` | src/components/InviteModal.jsx:43-63 | an empty selection only warns; success clears the selection and closes the dialog; failure leaves both as they were |
| `InviteModal.Modal.View` | src/components/InviteModal.jsx:66-85 | a closed dialog renders nothing; an open one shows the loading text exactly while loading, then "No available users to invite" for an empty list and the picker with the users and the selection otherwise |
| `EditEvent.LocalTime` | src/pages/EditEvent.jsx:33-34 | a timestamp is cut to at most its first 16 characters, a prefix of the stored value; a missing one becomes "" |
| `EditEvent.Prefill` | src/pages/EditEvent.jsx:30-36 | a missing title, description or location is prefilled as ""; the times are cut to 16 characters |
| `EditEvent.Update` | src/pages/EditEvent.jsx:45 | exactly the named field takes the new value; every other field is kept |
| `EditEvent.BuildPayload` | src/pages/EditEvent.jsx:53-55 | one text part per form field, in key order, then the attachment only when a file is chosen |
| `EditEvent.PayloadKeysDistinct` | src/pages/EditEvent.jsx:54-55 | every form field is sent exactly once, under its own name, never under the attachment key |
| `EditEvent.EditEventPage.constructor` | src/pages/EditEvent.jsx:11-19 | an empty form, no file, not loading |
| `EditEvent.EditEventPage.LoadEvent` | src/pages/EditEvent.jsx:23-41 | on success the form is prefilled; on failure it is kept |
| `EditEvent.EditEventPage.HandleChange` | src/pages/EditEvent.jsx:45 | the form takes the single-field update |
| `EditEvent.EditEventPage.ChooseFile` | src/pages/EditEvent.jsx:154 | the chosen file replaces the old one |
| `EditEvent.EditEventPage.BeginSubmit` | src/pages/EditEvent.jsx:47-55 | `loading` is raised, and the payload is built from the current form and file |
| `EditEvent.EditEventPage.FinishSubmit` | src/pages/EditEvent.jsx:63-71 | `loading` is lowered on both paths; the page navigates to /events only after a successful update |
| `EventDetails.DecideRoom` | src/pages/EventDetails.jsx:42-58 | the first room is reused iff it has an id; otherwise a room is created, named after the event and carrying its participants |
| `EventDetails.RoomNameEndsInChat` | src/pages/EventDetails.jsx:51 | a created room's name starts with the event title and ends in " Chat" |
| `EventDetails.TrimStartCut` | src/pages/EventDetails.jsx:80 | dropping leading white space leaves a suffix that is empty or starts with a visible character, and only white space is dropped |
| `EventDetails.TrimEndCut` | src/pages/EventDetails.jsx:80 | dropping trailing white space leaves a prefix that is empty or ends with a visible character, only white space is dropped, and a visible first character survives |
| `EventDetails.TrimIsSlice` | src/pages/EventDetails.jsx:80 | `text.trim()` is a slice of the text with only white space around it, and it neither starts nor ends with white space |
| `EventDetails.TrimStartEmptyIffBlank` | src/pages/EventDetails.jsx:80 | stripping leading white space leaves nothing iff the text is all white space; otherwise it starts with a visible character |
| `EventDetails.TrimEmptyIffBlank` | src/pages/EventDetails.jsx:80 | `text.trim()` is empty iff the text is empty or all white space |
| `EventDetails.CanSend` | src/pages/EventDetails.jsx:80 | the send guard passes exactly for a text with a visible character and a truthy room id |
| `EventDetails.FinalMessage` | src/pages/EventDetails.jsx:93-99 | each server field (text, sender, time) wins when present, else the local text, the current user or now; the room is always the current room |
| `EventDetails.FinalMessageComplete` | src/pages/EventDetails.jsx:80-99 | a message that passed the send guard shows non-empty text, a sender, a time and a room |
| `EventDetails.Stamped` | src/pages/EventDetails.jsx:21 | an inbound message without a time gets the current time; nothing else changes |
| `EventDetails.ShowsDateSeparator` | src/pages/EventDetails.jsx:143-146 | the first message always gets a date line, and so does every message whose day no earlier message has |
| `EventDetails.EveryDayHasSeparator` | src/pages/EventDetails.jsx:143-146 | every day in the timeline gets a date line, before its first message |
| `EventDetails.SeparatorsUniqueIffGrouped` | src/pages/EventDetails.jsx:143-146 | no day gets two date lines iff each day's messages are contiguous |
| `EventDetails.GroupedSeparatorsUnique` | src/pages/EventDetails.jsx:143-146 | when each day's messages are contiguous, no day gets two date lines |
| `EventDetails.UngroupedRepeatsSeparator` | src/pages/EventDetails.jsx:143-146 | when some day's messages are interrupted, that day gets two date lines |
| `EventDetails.AppendKeepsSeparators` | src/pages/EventDetails.jsx:143-146 | appending never moves an earlier date line; the new message gets one iff the timeline was empty or the last day differs |
| `EventDetails.ShowsInvitePanel` | src/pages/EventDetails.jsx:17-201 | the invite panel shows exactly when the event has loaded and the user is a signed-in Admin or Organizer |
| `EventDetails.InvitePanelGate` | src/pages/EventDetails.jsx:17-201 | once the event has loaded, the panel shows iff the user is signed in with the Create capability (Admin or Organizer); while it loads, or signed out, nobody sees it |
| `EventDetails.CalendarLinkAsWrittenLosesEvent` | src/pages/EventDetails.jsx:123 | as written, the link's details are "" and its dates are NaN stamps, for every event |
| `EventDetails.CalendarLinkCarriesEvent` | src/services/google.js:3 | with the event's description and times passed under the names the link reads, the link carries the description, and its dates parse back to the event's start and end |
| `EventDetails.ChatRoomView.constructor` | src/pages/EventDetails.jsx:12-15 | no event, no room, no messages, empty text |
| `EventDetails.ChatRoomView.Load` | src/pages/EventDetails.jsx:26-71 | the steps stop at the first failed request; a room is created only when none is reusable; a history body that reads as a list replaces the whole timeline |
| `EventDetails.ChatRoomView.SetText` | src/pages/EventDetails.jsx:185 | the input sets the text |
| `EventDetails.ChatRoomView.SendMessage` | src/pages/EventDetails.jsx:78-111 | blank text or no room: nothing happens. A failed post keeps the timeline and the text. On success exactly one final message is appended and emitted, and the text is cleared |
| `EventDetails.ChatRoomView.ReceiveMessage` | src/pages/EventDetails.jsx:20-23 | an inbound message appends exactly one entry at the end; no sorting, no deduplication |

## Left out

- HTTP and socket traffic are not modelled. Every response is an input, as are the `Promise.all` pair and the socket's connect, join, leave and emit (src/hooks/useSocket.js). `SendMessage` returns the emitted message, so whether a socket is connected is not modelled.
- Date parsing and locale formatting are abstract. `toDateString` and `toLocaleDateString` become the `DayKey` of an event or message. `new Date(...)` in the link builder becomes an `Instant`. `toLocaleString` and `toLocaleTimeString` are display only.
- Timers are not modelled. The 4000 ms `setTimeout` of the toast queue is the explicit `Expire` call.
- The percent-encoding of `URLSearchParams` (section 5.2 of the WHATWG URL Standard) is the uninterpreted parameter `serialize`.
- Auth plumbing is left out: AuthContext, localStorage, token decoding and the axios wrappers of `src/services/api.js`. A token is an optional string.
- Rendering, routing, styling and animation are left out, as are the pages with no extra logic: Login, Signup, Topbar, AttachmentSlider and ParticipantList.
- The per-message alignment (`isMe`) is display only and is not modelled.
- `Sidebar.jsx` has only the Admin-or-Organizer test. That test is `Common.IsManager`, which the Events page and the event page use too.
- `LocationInput.jsx` wraps the Google Places library and is not part of this model.
- Server-side behaviour is not modelled: one room per event, message ordering and deduplication. The client appends without deduplicating. A send whose message the server echoes back on the socket appears twice.
- The Events page's status filter is not modelled. The value chosen in the select (upcoming, ongoing, completed) is only forwarded as a request parameter.
- Response bodies are modelled only as far as `data.key || data || []` looks into them (`Common.Json`): undefined, null, a falsy scalar, an array, or an object with a value under the key. A truthy scalar body and the element shapes are not modelled.
- The single-object reads `ev.data.event || ev.data` (src/pages/EventDetails.jsx:34) and `res.data.message || res.data` (src/pages/EventDetails.jsx:91) are taken as resolved: the inputs of `EventDetails.ChatRoomView.Load` and `SendMessage` are the chosen event and message.
- Common.ListRead: a chosen value that is not a list (an object without an array under the key) is stored as is by the pages, which then fail when they render it; the model treats it as a failed read and keeps the previous list.
- `EventDetails.ChatRoomView.Load`: a room-creation response without a room id is modelled as a failed request. The page would instead store `undefined` as the room id and still load the history.
- Participants are compared by id. The source maps participant objects to their `_id` before comparing, and reads `user._id` on the Events page but `user.id` on the event page. The model uses one `UserId` per user.
- `Analytics.FirstSeen`: the order is insertion order. JavaScript lists integer-like object keys first. Locale date strings never take that form.
- Strings are sequences of Unicode characters rather than UTF-16 code units.
- EventsPage.Preview: cuts after 80 Unicode characters. JavaScript's `slice(0, 80)` counts UTF-16 code units and can split a surrogate pair, so for text outside the Basic Multilingual Plane the cut differs.
- EditEvent.LocalTime: cuts after 16 Unicode characters where `slice(0, 16)` counts UTF-16 code units; the two agree on the ISO timestamps the server stores, which are ASCII.

## Findings

| source | as written | input that shows it | evidently intended | confidence | as-written member | corrected member |
|---|---|---|---|---|---|---|
| src/pages/EventDetails.jsx:123 | the page passes the raw event to `createGoogleCalendarLink`, which reads `details`, `start` and `end` (src/services/google.js:3); the event has `description`, `startTime` and `endTime` instead | any event, e.g. description "Team sync" with start 2025-03-01T10:00Z: the link has `details=` empty and `dates=NaNNaNNaNTNaNNaNNaNZ/NaNNaNNaNTNaNNaNNaNZ` | the link carries the event's description and its start and end times | high (not executed) | `EventDetails.CalendarLinkAsWrittenLosesEvent` | `EventDetails.CalendarLinkCarriesEvent` |
