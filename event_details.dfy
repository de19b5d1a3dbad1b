/** The event page with its chat room (src/pages/EventDetails.jsx): loading
    the event, reusing or creating its room, loading the history, sending
    and receiving messages, the day separators of the timeline, the invite
    panel gate and the calendar link. */
module EventDetails {
  import opened Common
  import CalendarLink
  import EventsPage

  /** The event as `GET /api/events/:id` returns it. */
  datatype EventData = EventData(
    title: Option<string>,
    description: Option<string>,
    location: Option<string>,
    startTime: Option<string>,
    endTime: Option<string>,
    participants: seq<UserId>)

  datatype Sender = Sender(id: UserId, name: string)

  /** A chat message; every field may be missing from a server record. */
  datatype Message = Message(
    id: Option<string>,
    text: Option<string>,
    sender: Option<Sender>,
    createdAt: Option<string>,
    room: Option<RoomId>)

  // ---------------------------------------------------------------- the room

  /** An entry of `GET /api/rooms/:eventId`. */
  datatype RoomRecord = RoomRecord(id: Option<RoomId>)

  /** The body of `POST /api/rooms`. */
  datatype RoomRequest = RoomRequest(name: string, eventId: string, participants: seq<UserId>)

  datatype RoomChoice = Reuse(id: RoomId) | Create(request: RoomRequest)

  /** A string field interpolated into a template literal; a missing one
      prints as "undefined". */
  function TemplateText(s: Option<string>): string {
    if s.Some? then s.value else "undefined"
  }

  /** The room decision of `load`: reuse the first room returned when it has
      an id; otherwise ask for a room named after the event and carrying the
      event's participants. */
  function DecideRoom(rooms: seq<RoomRecord>, eventId: string, ev: EventData): (choice: RoomChoice)
    ensures choice.Reuse? <==> |rooms| > 0 && Truthy(rooms[0].id)
    ensures choice.Reuse? ==> choice.id == rooms[0].id.value
    ensures choice.Create? ==>
      && choice.request.name == TemplateText(ev.title) + " Chat"
      && choice.request.eventId == eventId
      && choice.request.participants == ev.participants
  {
    if |rooms| > 0 && Truthy(rooms[0].id) then Reuse(rooms[0].id.value)
    else Create(RoomRequest(TemplateText(ev.title) + " Chat", eventId, ev.participants))
  }

  /** The room name always ends in " Chat" and starts with the title when
      there is one. */
  lemma RoomNameEndsInChat(rooms: seq<RoomRecord>, eventId: string, ev: EventData)
    requires DecideRoom(rooms, eventId, ev).Create?
    ensures var name := DecideRoom(rooms, eventId, ev).request.name;
      && |name| >= 5 && name[|name| - 5..] == " Chat"
      && (ev.title.Some? ==> name[..|ev.title.value|] == ev.title.value)
  {
  }

  // ---------------------------------------------------------------- sending

  /** The characters `String.prototype.trim` removes: white space and line
      terminators of section 12.2 and 12.3 of ECMA-262. */
  predicate IsJsWhitespace(c: char) {
    || c == '\U{0009}' || c == '\U{000A}' || c == '\U{000B}' || c == '\U{000C}' || c == '\U{000D}'
    || c == '\U{0020}' || c == '\U{00A0}' || c == '\U{1680}'
    || ('\U{2000}' <= c <= '\U{200A}')
    || c == '\U{2028}' || c == '\U{2029}' || c == '\U{202F}' || c == '\U{205F}'
    || c == '\U{3000}' || c == '\U{FEFF}'
  }

  predicate Blank(s: string) {
    forall i :: 0 <= i < |s| ==> IsJsWhitespace(s[i])
  }

  /** `r` sits at offset `i` of `s` with only white space before and after it. */
  predicate BlankAround(s: string, i: int, r: string) {
    0 <= i <= |s| - |r| && r == s[i..i + |r|] && Blank(s[..i]) && Blank(s[i + |r|..])
  }

  /** `r` neither starts nor ends with white space. */
  predicate EdgesVisible(r: string) {
    r == [] || (!IsJsWhitespace(r[0]) && !IsJsWhitespace(r[|r| - 1]))
  }

  /** Drops the leading white space. */
  function TrimStart(s: string): string {
    if s != [] && IsJsWhitespace(s[0]) then TrimStart(s[1..]) else s
  }

  /** What `TrimStart` leaves is a suffix of `s` that is empty or starts with
      a non-white-space character, and everything dropped is white space. */
  lemma {:induction false} TrimStartCut(s: string)
    ensures var r := TrimStart(s);
      BlankAround(s, |s| - |r|, r) && (r == [] || !IsJsWhitespace(r[0]))
  {
    if s != [] && IsJsWhitespace(s[0]) {
      TrimStartCut(s[1..]);
      BlankHeadStep(s, TrimStart(s[1..]));
    } else {
      assert s[0..|s|] == s;
    }
  }

  /** Drops the trailing white space. */
  function TrimEnd(s: string): string {
    if s != [] && IsJsWhitespace(s[|s| - 1]) then TrimEnd(s[..|s| - 1]) else s
  }

  /** What `TrimEnd` leaves is a prefix of `s` that is empty or ends with a
      non-white-space character, everything dropped is white space, and a
      visible first character is never dropped. */
  lemma {:induction false} TrimEndCut(s: string)
    ensures var r := TrimEnd(s);
      && BlankAround(s, 0, r) && (r == [] || !IsJsWhitespace(r[|r| - 1]))
      && (s != [] && !IsJsWhitespace(s[0]) ==> r != [])
  {
    if s != [] && IsJsWhitespace(s[|s| - 1]) {
      TrimEndCut(s[..|s| - 1]);
      assert |s| > 1 ==> s[..|s| - 1][0] == s[0];
      BlankTailStep(s, TrimEnd(s[..|s| - 1]));
    } else {
      assert s[0..|s|] == s;
    }
  }

  /** A white-space character in front of a trimmed tail joins the dropped part. */
  lemma BlankHeadStep(s: string, r: string)
    requires s != [] && IsJsWhitespace(s[0])
    requires BlankAround(s[1..], |s| - 1 - |r|, r)
    ensures BlankAround(s, |s| - |r|, r)
  {
    assert forall i :: 1 <= i < |s| - |r| ==> s[i] == s[1..][..|s| - 1 - |r|][i - 1];
    assert s[1..][|s| - 1 - |r|..] == s[|s| - |r|..];
  }

  /** A white-space character behind a trimmed head joins the dropped part. */
  lemma BlankTailStep(s: string, r: string)
    requires s != [] && IsJsWhitespace(s[|s| - 1])
    requires BlankAround(s[..|s| - 1], 0, r)
    ensures BlankAround(s, 0, r)
  {
    assert forall i :: |r| <= i < |s| - 1 ==> s[i] == s[..|s| - 1][|r|..][i - |r|];
    assert s[..|s| - 1][..|r|] == s[..|r|];
  }

  /** `String.prototype.trim`. */
  function Trim(s: string): string {
    TrimEnd(TrimStart(s))
  }

  /** `trim` leaves a slice of `s` with only white space around it, and the
      slice neither starts nor ends with white space. */
  lemma TrimIsSlice(s: string)
    ensures exists i :: BlankAround(s, i, Trim(s))
    ensures EdgesVisible(Trim(s))
  {
    var t := TrimStart(s);
    TrimStartCut(s);
    TrimEndCut(t);
    TrimSlice(s, t, TrimEnd(t));
    assert BlankAround(s, |s| - |t|, Trim(s));
  }

  /** Cutting white space off the front (`t`) and then off the back (`r`)
      leaves a slice of `s` with only white space around it. */
  lemma TrimSlice(s: string, t: string, r: string)
    requires BlankAround(s, |s| - |t|, t) && (t == [] || !IsJsWhitespace(t[0]))
    requires BlankAround(t, 0, r) && (r == [] || !IsJsWhitespace(r[|r| - 1]))
    requires t != [] ==> r != []
    ensures BlankAround(s, |s| - |t|, r)
    ensures EdgesVisible(r)
  {
    var i := |s| - |t|;
    assert s[i..][..|r|] == s[i..i + |r|];
    assert s[i + |r|..] == t[|r|..];
  }

  /** Stripping leading white space leaves nothing exactly when the text is
      all white space. */
  lemma TrimStartEmptyIffBlank(s: string)
    ensures TrimStart(s) == [] <==> Blank(s)
  {
    TrimStartCut(s);
    LeadingCutEmptyIffBlank(s, TrimStart(s));
  }

  /** A suffix `r` of `s` with only white space before it and a visible first
      character is empty exactly when `s` is all white space. */
  lemma LeadingCutEmptyIffBlank(s: string, r: string)
    requires BlankAround(s, |s| - |r|, r) && (r == [] || !IsJsWhitespace(r[0]))
    ensures r == [] <==> Blank(s)
  {
    if r == [] {
      assert s[..|s|] == s;
    } else {
      assert s[|s| - |r|] == r[0];
    }
  }

  /** `!text.trim()` holds exactly when the text is empty or white space only. */
  lemma TrimEmptyIffBlank(s: string)
    ensures Trim(s) == [] <==> Blank(s)
  {
    TrimStartEmptyIffBlank(s);
    TrimStartCut(s);
    TrimEndCut(TrimStart(s));
  }

  /** The guard of `sendMessage`: nothing is sent for a blank text or
      without a (truthy) room id. */
  predicate CanSend(text: string, roomId: Option<RoomId>)
    ensures CanSend(text, roomId) <==> !Blank(text) && Truthy(roomId)
  {
    TrimEmptyIffBlank(text);
    Trim(text) != [] && Truthy(roomId)
  }

  /** `finalMsg`: the saved message with its text, sender and timestamp
      falling back to the local text, the current user and the clock, and
      its room always set to the current room. */
  function FinalMessage(saved: Message, text: string, user: User, now: string, roomId: RoomId): (m: Message)
    ensures m.id == saved.id
    ensures m.text == Some(if Truthy(saved.text) then saved.text.value else text)
    ensures m.sender == Some(if saved.sender.Some? then saved.sender.value else Sender(user.id, user.name))
    ensures m.createdAt == Some(if Truthy(saved.createdAt) then saved.createdAt.value else now)
    ensures m.room == Some(roomId)
  {
    saved.(text := Some(OrElse(saved.text, text)),
           sender := Some(if saved.sender.Some? then saved.sender.value else Sender(user.id, user.name)),
           createdAt := Some(OrElse(saved.createdAt, now)),
           room := Some(roomId))
  }

  /** A message that passed the guard is shown complete: it has non-empty
      text, a sender and a timestamp, whatever the server left out. */
  lemma FinalMessageComplete(saved: Message, text: string, user: User, now: string, roomId: RoomId)
    requires CanSend(text, Some(roomId)) && now != ""
    ensures var m := FinalMessage(saved, text, user, now, roomId);
      Truthy(m.text) && m.sender.Some? && Truthy(m.createdAt) && Truthy(m.room)
  {
    TrimEmptyIffBlank(text);
  }

  /** The socket handler's stamping: a message without a timestamp gets the
      current time; nothing else changes. */
  function Stamped(msg: Message, now: string): (m: Message)
    ensures Truthy(msg.createdAt) ==> m == msg
    ensures !Truthy(msg.createdAt) ==> m == msg.(createdAt := Some(now))
  {
    if Truthy(msg.createdAt) then msg else msg.(createdAt := Some(now))
  }

  // ---------------------------------------------------------------- day separators

  /** The day each message is shown under; `dayOf` stands for
      `new Date(createdAt).toDateString()`. */
  function Days(messages: seq<Message>, dayOf: Option<string> -> DayKey): (days: seq<DayKey>)
    ensures |days| == |messages|
    ensures forall i :: 0 <= i < |messages| ==> days[i] == dayOf(messages[i].createdAt)
  {
    seq(|messages|, i requires 0 <= i < |messages| => dayOf(messages[i].createdAt))
  }

  /** `showDate`: the first message, and every message whose day differs
      from the previous one's, is preceded by a date line. */
  predicate ShowsDateSeparator(days: seq<DayKey>, i: int)
    requires 0 <= i < |days|
    ensures i == 0 ==> ShowsDateSeparator(days, i)
    ensures (forall j :: 0 <= j < i ==> days[j] != days[i]) ==> ShowsDateSeparator(days, i)
  {
    i == 0 || days[i] != days[i - 1]
  }

  /** The first index at or after `from` that holds `d`, or `|days|`. */
  function FirstFrom(days: seq<DayKey>, d: DayKey, from: nat): (m: nat)
    requires from <= |days|
    ensures from <= m <= |days|
    ensures m < |days| ==> days[m] == d
    ensures forall t :: from <= t < m ==> days[t] != d
    decreases |days| - from
  {
    if from == |days| || days[from] == d then from else FirstFrom(days, d, from + 1)
  }

  /** The messages of one day form one block of the timeline. */
  ghost predicate Grouped(days: seq<DayKey>) {
    forall i, j, k :: 0 <= i < j < k < |days| && days[i] == days[k] ==> days[j] == days[i]
  }

  /** Every day present in the timeline gets a date line: the one before its
      first message. */
  lemma EveryDayHasSeparator(days: seq<DayKey>, d: DayKey)
    requires d in days
    ensures exists i :: 0 <= i < |days| && days[i] == d && ShowsDateSeparator(days, i)
  {
    var i := FirstFrom(days, d, 0);
    assert ShowsDateSeparator(days, i);
  }

  /** No day gets two date lines exactly when each day's messages are
      contiguous; the timeline is never sorted, so out-of-order arrivals
      repeat a day's line. */
  lemma SeparatorsUniqueIffGrouped(days: seq<DayKey>)
    ensures Grouped(days) <==>
      forall i, j :: 0 <= i < j < |days| && ShowsDateSeparator(days, i) && ShowsDateSeparator(days, j)
        ==> days[i] != days[j]
  {
    if Grouped(days) {
      GroupedSeparatorsUnique(days);
    } else {
      UngroupedRepeatsSeparator(days);
    }
  }

  /** In a grouped timeline the line before a day's block is its only one. */
  lemma GroupedSeparatorsUnique(days: seq<DayKey>)
    requires Grouped(days)
    ensures forall i, j ::
      (0 <= i < j < |days| && ShowsDateSeparator(days, i) && ShowsDateSeparator(days, j) ==> days[i] != days[j])
  {
    forall i, j | 0 <= i < j < |days| && ShowsDateSeparator(days, i) && ShowsDateSeparator(days, j)
      ensures days[i] != days[j]
    {
      if i < j - 1 {
        assert days[j - 1] != days[j];
      }
    }
  }

  /** A day whose block is interrupted gets a second line. */
  lemma UngroupedRepeatsSeparator(days: seq<DayKey>)
    requires !Grouped(days)
    ensures exists i, j ::
      (0 <= i < j < |days| && ShowsDateSeparator(days, i) && ShowsDateSeparator(days, j) && days[i] == days[j])
  {
    var i, j, k :| 0 <= i < j < k < |days| && days[i] == days[k] && days[j] != days[i];
    var d := days[k];
    var a := FirstFrom(days, d, 0);
    var b := FirstFrom(days, d, j + 1);
    assert a <= i < b <= k;
    assert a > 0 ==> days[a - 1] != d;
    assert b - 1 == j || days[b - 1] != d;
    assert ShowsDateSeparator(days, a) && ShowsDateSeparator(days, b);
  }

  /** Appending a message never moves an earlier date line; the new message
      gets one exactly when the timeline was empty or its day differs from
      the last message's. */
  lemma AppendKeepsSeparators(days: seq<DayKey>, d: DayKey)
    ensures forall i :: 0 <= i < |days| ==>
      (ShowsDateSeparator(days + [d], i) <==> ShowsDateSeparator(days, i))
    ensures ShowsDateSeparator(days + [d], |days|) <==> days == [] || days[|days| - 1] != d
  {
  }

  // ---------------------------------------------------------------- the invite gate

  /** `role && <InviteParticipants ... />`, reached only once the event has
      loaded (before that the page renders "Loading event..."): the invite
      panel is shown to a signed-in Admin or Organizer only. */
  predicate ShowsInvitePanel(event: Option<EventData>, user: Option<User>)
    ensures ShowsInvitePanel(event, user)
      <==> event.Some? && user.Some? && (user.value.role == Admin || user.value.role == Organizer)
  {
    event.Some? && user.Some? && IsManager(user.value.role)
  }

  /** Once the event has loaded, the panel is gated by the same capability as
      the Create link of the event list: a signed-in Admin or Organizer sees
      it, a Participant, an unrecognised role or a signed-out visitor does
      not; while the event is loading nobody sees it. */
  lemma InvitePanelGate(event: Option<EventData>, user: Option<User>)
    ensures event.Some? ==> (ShowsInvitePanel(event, user) <==> user.Some? && EventsPage.ShowsCreate(user.value.role))
    ensures user.Some? && user.value.role in {Participant, Unrecognised} ==> !ShowsInvitePanel(event, user)
    ensures !ShowsInvitePanel(event, None)
    ensures !ShowsInvitePanel(None, user)
  {
  }

  // ---------------------------------------------------------------- the calendar link

  /** The argument the page passes to `createGoogleCalendarLink`, read the
      way that function destructures it: the event has no `details`,
      `start` or `end` fields, so those are undefined and both dates are
      invalid. */
  function CalendarInputAsWritten(ev: EventData): CalendarLink.CalendarInput {
    CalendarLink.CalendarInput(ev.title, None, CalendarLink.Invalid, CalendarLink.Invalid, ev.location)
  }

  /** As written, the link never carries the event's times or description:
      `details` is empty and `dates` is "NaNNaNNaNTNaNNaNNaNZ" twice around
      the slash. */
  lemma CalendarLinkAsWrittenLosesEvent(ev: EventData)
    ensures var ps := CalendarLink.Params(CalendarInputAsWritten(ev));
      && ps[1] == (CalendarLink.DetailsKey, "")
      && ps[3] == (CalendarLink.DatesKey, CalendarLink.NaNStamp + "/" + CalendarLink.NaNStamp)
  {
    CalendarLink.InvalidStamp();
  }

  /** The argument the link evidently needs: the event's description as the
      details and its start and end times, parsed by `parse` (`new Date`). */
  function CalendarInputFor(ev: EventData, parse: Option<string> -> CalendarLink.Instant): CalendarLink.CalendarInput {
    CalendarLink.CalendarInput(ev.title, ev.description, parse(ev.startTime), parse(ev.endTime), ev.location)
  }

  /** With that argument the link carries the description, and its `dates`
      value reads back to the event's start and end. */
  lemma CalendarLinkCarriesEvent(ev: EventData, parse: Option<string> -> CalendarLink.Instant,
                                 start: CalendarLink.UtcFields, end: CalendarLink.UtcFields)
    requires parse(ev.startTime) == CalendarLink.Valid(start) && CalendarLink.FourDigitYear(start)
    requires parse(ev.endTime) == CalendarLink.Valid(end) && CalendarLink.FourDigitYear(end)
    ensures var ps := CalendarLink.Params(CalendarInputFor(ev, parse));
      && ps[1] == (CalendarLink.DetailsKey, if ev.description.Some? then ev.description.value else "")
      && ps[3].0 == CalendarLink.DatesKey && |ps[3].1| == 33
      && CalendarLink.ParseStamp(ps[3].1[..16]) == Some(start)
      && CalendarLink.ParseStamp(ps[3].1[17..]) == Some(end)
  {
    CalendarLink.DatesRoundTrip(start, end);
  }

  // ---------------------------------------------------------------- the page state

  /** The page's state slots. */
  class ChatRoomView {
    var event: Option<EventData>
    var roomId: Option<RoomId>
    var messages: seq<Message>
    var text: string

    constructor ()
      ensures event.None? && roomId.None? && messages == [] && text == ""
    {
      event, roomId, messages, text := None, None, [], "";
    }

    /** `load`: fetch the event, find or create its room, then fetch the
        history (`msgs.data.messages || msgs.data || []`). Each response is
        `None` when that request fails, which ends the procedure with the
        slots set so far; so does a history body whose read throws. Returns the room
        creation request when one was made. */
    method Load(eventId: string, eventResponse: Option<EventData>,
                roomsResponse: Option<seq<RoomRecord>>, createResponse: Option<RoomId>,
                historyResponse: Option<Json<Message>>)
      returns (createRequest: Option<RoomRequest>)
      modifies this`event, this`roomId, this`messages
      ensures eventResponse.None? ==>
        event == old(event) && roomId == old(roomId) && messages == old(messages) && createRequest.None?
      ensures eventResponse.Some? ==> event == eventResponse
      ensures eventResponse.Some? && roomsResponse.None? ==>
        roomId == old(roomId) && messages == old(messages) && createRequest.None?
      ensures eventResponse.Some? && roomsResponse.Some? ==>
        var choice := DecideRoom(roomsResponse.value, eventId, eventResponse.value);
        var room := if choice.Reuse? then Some(choice.id) else createResponse;
        && createRequest == (if choice.Create? then Some(choice.request) else None)
        && roomId == (if room.Some? then room else old(roomId))
        && messages == (if room.Some? && historyResponse.Some? && ListRead(historyResponse.value).Some?
                        then ListRead(historyResponse.value).value else old(messages))
    {
      createRequest := None;
      if eventResponse.None? {
        return;
      }
      event := eventResponse;
      if roomsResponse.None? {
        return;
      }
      var rid: RoomId;
      var choice := DecideRoom(roomsResponse.value, eventId, eventResponse.value);
      if choice.Reuse? {
        rid := choice.id;
      } else {
        createRequest := Some(choice.request);
        if createResponse.None? {
          return;
        }
        rid := createResponse.value;
      }
      roomId := Some(rid);
      if historyResponse.None? || ListRead(historyResponse.value).None? {
        return;
      }
      messages := ListRead(historyResponse.value).value;
    }

    /** The input's `onChange`. */
    method SetText(value: string)
      modifies this`text
      ensures text == value
    {
      text := value;
    }

    /** `sendMessage`: a blank text or a missing room sends nothing and
        changes nothing. Otherwise `{text, roomId}` is posted; when the post
        fails (`saved == None`) the timeline and the text are kept; when it
        succeeds the final message is appended, emitted on the socket and the
        input cleared. */
    method SendMessage(user: User, now: string, saved: Option<Message>)
      returns (posted: Option<(string, RoomId)>, emitted: Option<Message>)
      modifies this`messages, this`text
      ensures !CanSend(old(text), roomId) ==>
        posted.None? && emitted.None? && messages == old(messages) && text == old(text)
      ensures CanSend(old(text), roomId) ==> posted == Some((old(text), roomId.value))
      ensures CanSend(old(text), roomId) && saved.None? ==>
        emitted.None? && messages == old(messages) && text == old(text)
      ensures CanSend(old(text), roomId) && saved.Some? ==>
        var m := FinalMessage(saved.value, old(text), user, now, roomId.value);
        emitted == Some(m) && messages == old(messages) + [m] && text == ""
    {
      posted, emitted := None, None;
      var allowed := CanSend(text, roomId);
      if !allowed {
        return;
      }
      posted := Some((text, roomId.value));
      if saved.None? {
        return;
      }
      var m := FinalMessage(saved.value, text, user, now, roomId.value);
      messages := messages + [m];
      emitted := Some(m);
      text := "";
    }

    /** The socket's `chatMessage` handler: exactly one entry is appended at
        the end; there is no sorting and no check for duplicates. */
    method ReceiveMessage(msg: Message, now: string)
      modifies this`messages
      ensures messages == old(messages) + [Stamped(msg, now)]
    {
      messages := messages + [Stamped(msg, now)];
    }
  }
}
