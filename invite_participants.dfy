/** The invite panel of the chat page (src/components/InviteParticipants.jsx):
    the users who may still be invited, a checkbox per user that toggles
    the selection, and the invite action with its guard and outcome. */
module InviteParticipants {
  import opened Common

  /** A user as `GET /api/auth/all` lists them. */
  datatype Candidate = Candidate(id: UserId, name: string, email: string)

  /** What `handleInvite` did. */
  datatype InviteOutcome =
    | NothingSelected            // the warning toast; no request is made
    | Invited(ids: seq<UserId>)  // the request succeeded; the page reloads
    | InviteFailed(ids: seq<UserId>)

  /** `usersRes.data.filter((user) => !eventParticipants.includes(user._id))`. */
  function AvailableUsers(users: seq<Candidate>, participantIds: seq<UserId>): (r: seq<Candidate>)
    ensures forall u :: u in r <==> u in users && u.id !in participantIds
    ensures |r| <= |users|
  {
    Filter(users, (u: Candidate) => u.id !in participantIds)
  }

  /** The available users are exactly the non-participants: none of them is
      a participant, no non-participant is dropped (with multiplicity), and
      the original order is kept. */
  lemma AvailableUsersExact(users: seq<Candidate>, participantIds: seq<UserId>)
    ensures forall u :: u in AvailableUsers(users, participantIds) ==> u.id !in participantIds
    ensures forall u :: u in users && u.id !in participantIds ==>
      multiset(AvailableUsers(users, participantIds))[u] == multiset(users)[u]
    ensures Subsequence(AvailableUsers(users, participantIds), users)
  {
    FilterIsSubsequence(users, (u: Candidate) => u.id !in participantIds);
    FilterCounts(users, (u: Candidate) => u.id !in participantIds);
  }

  /** With no participants, every user is available. */
  lemma NoParticipantsAllAvailable(users: seq<Candidate>)
    ensures AvailableUsers(users, []) == users
  {
    FilterKeepsAll(users, (u: Candidate) => u.id !in []);
  }

  /** `checked={selected.includes(u._id)}`. */
  predicate IsTicked(selected: seq<UserId>, id: UserId) {
    id in selected
  }

  /** `prev.filter((id) => id !== value)`. */
  function Unticked(selected: seq<UserId>, id: UserId): seq<UserId> {
    Filter(selected, (x: UserId) => x != id)
  }

  /** The checkbox `onChange` update: append when checked, otherwise drop
      every occurrence of the value. */
  function Toggled(selected: seq<UserId>, value: UserId, checked: bool): (r: seq<UserId>)
    ensures checked ==> r == selected + [value]
    ensures !checked ==> value !in r && Subsequence(r, selected)
    ensures !checked ==> forall x :: x != value ==> multiset(r)[x] == multiset(selected)[x]
  {
    if checked then selected + [value]
    else
      FilterIsSubsequence(selected, (x: UserId) => x != value);
      FilterCounts(selected, (x: UserId) => x != value);
      Unticked(selected, value)
  }

  /** A click on a controlled checkbox reports the opposite of its current
      state, so a click flips that box, leaves every other box as it was and
      keeps the selection free of duplicates. */
  lemma ClickFlipsOneBox(selected: seq<UserId>, id: UserId)
    requires Distinct(selected)
    ensures var r := Toggled(selected, id, !IsTicked(selected, id));
      && (IsTicked(r, id) <==> !IsTicked(selected, id))
      && (forall x :: x != id ==> (IsTicked(r, x) <==> IsTicked(selected, x)))
      && Distinct(r)
  {
    var r := Toggled(selected, id, !IsTicked(selected, id));
    if IsTicked(selected, id) {
      SubsequenceDistinct(r, selected);
      forall x | x != id ensures IsTicked(r, x) <==> IsTicked(selected, x) {
        assert multiset(r)[x] == multiset(selected)[x];
      }
    }
  }

  /** The panel's state slots. */
  class InvitePanel {
    var users: seq<Candidate>
    var selected: seq<UserId>

    ghost predicate Valid()
      reads this
    {
      Distinct(selected)
    }

    constructor ()
      ensures Valid() && users == [] && selected == []
    {
      users, selected := [], [];
    }

    /** `loadUsers`: on success the available users replace the list; on
        failure it stays as it was. */
    method LoadUsers(response: Option<(seq<Candidate>, seq<UserId>)>)
      requires Valid()
      modifies this`users
      ensures Valid()
      ensures response.Some? ==> users == AvailableUsers(response.value.0, response.value.1)
      ensures response.None? ==> users == old(users)
    {
      if response.Some? {
        users := AvailableUsers(response.value.0, response.value.1);
      }
    }

    /** A click on the checkbox of `id`. */
    method ClickBox(id: UserId)
      requires Valid()
      modifies this`selected
      ensures Valid()
      ensures selected == Toggled(old(selected), id, !IsTicked(old(selected), id))
    {
      ClickFlipsOneBox(selected, id);
      selected := Toggled(selected, id, !IsTicked(selected, id));
    }

    /** `handleInvite`: an empty selection only warns; otherwise the
        selection is sent, and it is cleared (and the page reloaded) only
        when the request succeeds. */
    method HandleInvite(succeeds: bool) returns (outcome: InviteOutcome)
      requires Valid()
      modifies this`selected
      ensures Valid()
      ensures old(selected) == [] ==> outcome == NothingSelected && selected == []
      ensures old(selected) != [] && succeeds ==> outcome == Invited(old(selected)) && selected == []
      ensures old(selected) != [] && !succeeds ==> outcome == InviteFailed(old(selected)) && selected == old(selected)
    {
      if selected == [] {
        return NothingSelected;
      }
      if succeeds {
        outcome := Invited(selected);
        selected := [];
      } else {
        outcome := InviteFailed(selected);
      }
    }
  }
}
