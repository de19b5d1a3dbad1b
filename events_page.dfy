/** The event list page (src/pages/Events.jsx): role-based filtering of
    the fetched events, the per-event action predicates, the description
    preview and the page counter. */
module EventsPage {
  import opened Common

  /** `e.participants?.some((p) => p._id === user._id)`: a missing list lists
      nobody. */
  predicate Lists(ev: Event, me: UserId) {
    ev.participants.Some? && me in ev.participants.value
  }

  /** The role-based filter applied to the fetched list. */
  function VisibleEvents(role: Role, me: UserId, fetched: seq<Event>): (shown: seq<Event>)
    ensures role == Organizer ==> forall ev :: ev in shown <==> ev in fetched && ev.organizer == me
    ensures role == Participant ==> forall ev :: ev in shown <==> ev in fetched && Lists(ev, me)
    ensures role == Organizer ==> forall ev ::
      multiset(shown)[ev] == if ev.organizer == me then multiset(fetched)[ev] else 0
    ensures role == Participant ==> forall ev ::
      multiset(shown)[ev] == if Lists(ev, me) then multiset(fetched)[ev] else 0
    ensures role != Organizer && role != Participant ==> shown == fetched
    ensures Subsequence(shown, fetched)
  {
    if role == Organizer then
      FilterIsSubsequence(fetched, (ev: Event) => ev.organizer == me);
      FilterCounts(fetched, (ev: Event) => ev.organizer == me);
      Filter(fetched, (ev: Event) => ev.organizer == me)
    else if role == Participant then
      FilterIsSubsequence(fetched, (ev: Event) => Lists(ev, me));
      FilterCounts(fetched, (ev: Event) => Lists(ev, me));
      Filter(fetched, (ev: Event) => Lists(ev, me))
    else
      SubsequenceReflexive(fetched);
      fetched
  }

  /** The Create link. */
  predicate ShowsCreate(role: Role)
    ensures ShowsCreate(role) <==> role == Admin || role == Organizer
  {
    IsManager(role)
  }

  /** The Edit / Invite actions on an event card. */
  predicate ShowsEdit(role: Role, me: UserId, ev: Event)
    ensures role == Admin ==> ShowsEdit(role, me, ev)
    ensures ShowsEdit(role, me, ev) ==> ShowsCreate(role)
    ensures role == Organizer ==> (ShowsEdit(role, me, ev) <==> ev.organizer == me)
  {
    role == Admin || (role == Organizer && ev.organizer == me)
  }

  /** The Chat / Leave actions on an event card. */
  predicate ShowsParticipantActions(role: Role, me: UserId, ev: Event)
    ensures ShowsParticipantActions(role, me, ev) ==> role == Participant
    ensures ShowsParticipantActions(role, me, ev) ==> !ShowsCreate(role) && ev.participants.Some?
    ensures role == Participant ==> (ShowsParticipantActions(role, me, ev) <==> Lists(ev, me))
  {
    role == Participant && Lists(ev, me)
  }

  /** Every card an Organizer sees carries Edit / Invite, every card a
      Participant sees carries Chat / Leave, and the two action groups never
      appear on the same card. */
  lemma ListedCardsCarryActions(role: Role, me: UserId, fetched: seq<Event>)
    ensures role == Organizer ==>
      forall ev :: ev in VisibleEvents(role, me, fetched) ==> ShowsEdit(role, me, ev)
    ensures role == Participant ==>
      forall ev :: ev in VisibleEvents(role, me, fetched) ==> ShowsParticipantActions(role, me, ev)
    ensures forall ev :: !(ShowsEdit(role, me, ev) && ShowsParticipantActions(role, me, ev))
    ensures role != Participant ==> forall ev :: !ShowsParticipantActions(role, me, ev)
  {
  }

  /** Edit / Invite is offered only to a role that may also create events. */
  lemma EditImpliesCreate(role: Role, me: UserId, ev: Event)
    ensures ShowsEdit(role, me, ev) ==> ShowsCreate(role)
    ensures ShowsEdit(role, me, ev) <==> role == Admin || (role == Organizer && ev.organizer == me)
  {
  }

  /** `{ev.description?.slice(0, 80)}...`: the first 80 characters of the
      description (nothing when it is missing), then "...". */
  function Preview(description: Option<string>): (text: string)
    ensures 3 <= |text| <= 83
    ensures text[|text| - 3..] == "..."
    ensures description.Some? ==> text[..|text| - 3] <= description.value
    ensures description.Some? && |description.value| <= 80 ==> text == description.value + "..."
    ensures description.Some? && |description.value| > 80 ==> text == description.value[..80] + "..."
    ensures description.None? ==> text == "..."
  {
    var shown := if description.None? then ""
      else if |description.value| <= 80 then description.value
      else description.value[..80];
    shown + "..."
  }

  /** `setPage((p) => p + 1)`: there is no upper bound on this page. */
  function NextPage(p: int): (r: int)
    ensures r > p
    ensures r == p + 1
  {
    p + 1
  }

  /** Prev undoes Next on every page the counter can show. */
  lemma PrevUndoesNext(p: int)
    requires p >= 1
    ensures PrevPage(NextPage(p)) == p
  {
  }

  /** The page's state slots. */
  class EventsView {
    var page: int
    var events: seq<Event>
    var loading: bool

    ghost predicate Valid()
      reads this
    {
      page >= 1
    }

    constructor ()
      ensures Valid() && page == 1 && events == [] && !loading
    {
      page, events, loading := 1, [], false;
    }

    method Prev()
      requires Valid()
      modifies this`page
      ensures Valid() && page == PrevPage(old(page))
    {
      page := PrevPage(page);
    }

    method Next()
      requires Valid()
      modifies this`page
      ensures Valid() && page == NextPage(old(page))
    {
      page := NextPage(page);
    }

    /** The start of `load`: without a (truthy) token nothing happens and no
        request is made; otherwise `loading` is raised and the request sent. */
    method BeginLoad(token: Option<string>) returns (requested: bool)
      requires Valid()
      modifies this`loading
      ensures Valid()
      ensures requested <==> Truthy(token)
      ensures loading == (if requested then true else old(loading))
    {
      requested := Truthy(token);
      if requested {
        loading := true;
      }
    }

    /** The end of `load`: when the body reads as a list
        (`res.data.events || res.data || []`), the role-filtered list
        replaces the events; when the request fails or the read throws they
        stay; `loading` is lowered either way (`finally`). */
    method FinishLoad(user: User, response: Option<Json<Event>>)
      requires Valid()
      modifies this`events, this`loading
      ensures Valid() && !loading
      ensures response.Some? && ListRead(response.value).Some? ==>
        events == VisibleEvents(user.role, user.id, ListRead(response.value).value)
      ensures response.None? || ListRead(response.value).None? ==> events == old(events)
    {
      if response.Some? && ListRead(response.value).Some? {
        events := VisibleEvents(user.role, user.id, ListRead(response.value).value);
      }
      loading := false;
    }
  }
}
