/** The invite dialog (src/components/InviteModal.jsx): it loads the
    available users only while open, shows a multiple-choice list whose
    selection replaces `selected` wholesale, and closes after a successful
    invite. */
module InviteModal {
  import opened Common
  import opened InviteParticipants

  /** The ids of a list of users, in order. */
  function Ids(users: seq<Candidate>): (ids: seq<UserId>)
    ensures |ids| == |users|
    ensures forall i :: 0 <= i < |users| ==> ids[i] == users[i].id
  {
    seq(|users|, i requires 0 <= i < |users| => users[i].id)
  }

  /** `[...e.target.selectedOptions].map((opt) => opt.value)`: the values of
      the chosen options, in the order the options are listed. */
  function SelectedValues(users: seq<Candidate>, chosen: set<UserId>): (values: seq<UserId>)
    ensures forall x :: x in values <==> x in chosen && x in Ids(users)
    ensures Subsequence(values, Ids(users))
    decreases |users|
  {
    if users == [] then []
    else
      var rest := SelectedValues(users[1..], chosen);
      assert Ids(users) == [users[0].id] + Ids(users[1..]);
      if users[0].id in chosen then [users[0].id] + rest
      else
        SubsequenceOfTail(rest, Ids(users));
        rest
  }

  /** Whatever the user picks, the new selection names only listed users,
      each once when the list has no duplicate ids; when the list is the
      available users, no participant is ever selected. */
  lemma SelectionWithinList(all: seq<Candidate>, participantIds: seq<UserId>, chosen: set<UserId>)
    requires Distinct(Ids(AvailableUsers(all, participantIds)))
    ensures var values := SelectedValues(AvailableUsers(all, participantIds), chosen);
      && Distinct(values)
      && forall x :: x in values ==> x !in participantIds
  {
    var users := AvailableUsers(all, participantIds);
    var values := SelectedValues(users, chosen);
    SubsequenceDistinct(values, Ids(users));
    AvailableUsersExact(all, participantIds);
    forall x | x in values ensures x !in participantIds {
      var i :| 0 <= i < |users| && Ids(users)[i] == x;
      assert users[i] in users;
    }
  }

  /** What the dialog renders. */
  datatype ModalView =
    | Hidden
    | LoadingUsers
    | NoUsersAvailable
    | Picker(users: seq<Candidate>, selected: seq<UserId>)

  /** The dialog's props and state slots. `isOpen` belongs to the parent;
      `onClose` is modelled as the parent clearing it. */
  class Modal {
    var isOpen: bool
    var users: seq<Candidate>
    var selected: seq<UserId>
    var loading: bool

    constructor (open: bool)
      ensures isOpen == open && users == [] && selected == [] && !loading
    {
      isOpen, users, selected, loading := open, [], [], false;
    }

    /** The parent opens or closes the dialog. */
    method SetOpen(open: bool)
      modifies this`isOpen
      ensures isOpen == open
    {
      isOpen := open;
    }

    /** The load effect: it does nothing while the dialog is closed, and
        otherwise raises `loading` and sends the two requests. */
    method BeginLoad() returns (requested: bool)
      modifies this`loading
      ensures requested == isOpen
      ensures loading == (if isOpen then true else old(loading))
    {
      requested := isOpen;
      if requested {
        loading := true;
      }
    }

    /** The end of the load: on success the available users replace the
        list, on failure it stays; `loading` is lowered on both paths. */
    method FinishLoad(response: Option<(seq<Candidate>, seq<UserId>)>)
      modifies this`users, this`loading
      ensures !loading
      ensures response.Some? ==> users == AvailableUsers(response.value.0, response.value.1)
      ensures response.None? ==> users == old(users)
    {
      if response.Some? {
        users := AvailableUsers(response.value.0, response.value.1);
      }
      loading := false;
    }

    /** A change of the multiple select replaces the selection wholesale. */
    method Select(chosen: set<UserId>)
      modifies this`selected
      ensures selected == SelectedValues(users, chosen)
    {
      selected := SelectedValues(users, chosen);
    }

    /** `handleInvite`: an empty selection only warns; a successful request
        clears the selection, reloads the page and closes the dialog; a
        failed one leaves the selection and the dialog as they were. */
    method HandleInvite(succeeds: bool) returns (outcome: InviteOutcome)
      modifies this`selected, this`isOpen
      ensures old(selected) == [] ==> outcome == NothingSelected && selected == [] && isOpen == old(isOpen)
      ensures old(selected) != [] && succeeds ==>
        outcome == Invited(old(selected)) && selected == [] && !isOpen
      ensures old(selected) != [] && !succeeds ==>
        outcome == InviteFailed(old(selected)) && selected == old(selected) && isOpen == old(isOpen)
    {
      if selected == [] {
        return NothingSelected;
      }
      if succeeds {
        outcome := Invited(selected);
        selected := [];
        isOpen := false;
      } else {
        outcome := InviteFailed(selected);
      }
    }

    /** The render: nothing while closed, then the loading text, the empty
        text or the picker. */
    function View(): (v: ModalView)
      reads this
      ensures v == Hidden <==> !isOpen
      ensures v.Picker? ==> v.users == users && v.selected == selected && users != []
      ensures v == LoadingUsers <==> isOpen && loading
      ensures v == NoUsersAvailable <==> isOpen && !loading && users == []
      ensures v.Picker? <==> isOpen && !loading && users != []
    {
      if !isOpen then Hidden
      else if loading then LoadingUsers
      else if users == [] then NoUsersAvailable
      else Picker(users, selected)
    }
  }
}
