/** The notification list (src/pages/Notifications.jsx): ten items per
    page, marking one item read after the server accepts it, and the
    clamped Prev / Next pager. */
module Notifications {
  import opened Common

  datatype Notification = Notification(
    id: string,
    title: Option<string>,
    message: string,
    createdAt: string,
    read: bool)

  /** `const limit = 10`. */
  const Limit: int := 10

  /** `prev.map((n) => (n._id === id ? { ...n, read: true } : n))`. */
  function MarkRead(ns: seq<Notification>, id: string): (r: seq<Notification>)
    ensures |r| == |ns|
    ensures forall i :: 0 <= i < |ns| ==> r[i] == ns[i].(read := ns[i].read || ns[i].id == id)
  {
    if ns == [] then []
    else
      var n := ns[0];
      [if n.id == id then n.(read := true) else n] + MarkRead(ns[1..], id)
  }

  /** Marking is idempotent. */
  lemma {:induction false} MarkReadIdempotent(ns: seq<Notification>, id: string)
    ensures MarkRead(MarkRead(ns, id), id) == MarkRead(ns, id)
    decreases |ns|
  {
    if ns != [] {
      MarkReadIdempotent(ns[1..], id);
    }
  }

  /** Only the `read` flag of items with that id changes: every other item
      is kept as it was, and an item already read is untouched. */
  lemma MarkReadChangesOnlyTarget(ns: seq<Notification>, id: string)
    ensures forall i :: 0 <= i < |ns| && ns[i].id != id ==> MarkRead(ns, id)[i] == ns[i]
    ensures forall i :: 0 <= i < |ns| && ns[i].read ==> MarkRead(ns, id)[i] == ns[i]
    ensures forall i :: 0 <= i < |ns| ==> (MarkRead(ns, id)[i].read <==> ns[i].read || ns[i].id == id)
    ensures forall i :: 0 <= i < |ns| ==> MarkRead(ns, id)[i].id == ns[i].id
  {
  }

  /** `Math.ceil(total / limit)`. */
  function TotalPages(total: int): (pages: int)
    ensures Limit * (pages - 1) < total <= Limit * pages
  {
    (total + Limit - 1) / Limit
  }

  /** `setPage((p) => Math.min(p + 1, totalPages))`. */
  function NextPageCapped(p: int, totalPages: int): (r: int)
    ensures r <= totalPages
    ensures p < totalPages ==> r == p + 1
    ensures p >= totalPages ==> r == totalPages
  {
    if p + 1 < totalPages then p + 1 else totalPages
  }

  /** The pager is drawn when there is more than one page, that is, when
      there are more than ten notifications. */
  predicate ShowsPager(total: int)
    ensures ShowsPager(total) <==> total > Limit
  {
    TotalPages(total) > 1
  }

  /** "Mark as read" is offered on unread items only. */
  predicate ShowsMarkButton(n: Notification)
    ensures ShowsMarkButton(n) <==> !n.read
  {
    !n.read
  }

  /** Once the server accepts, no item with that id offers the button any
      more, and every other item offers it exactly as before. */
  lemma MarkingHidesButton(ns: seq<Notification>, id: string)
    ensures forall i :: 0 <= i < |ns| ==>
      (ShowsMarkButton(MarkRead(ns, id)[i]) <==> ShowsMarkButton(ns[i]) && ns[i].id != id)
  {
  }

  /** Prev and Next keep the page within 1..totalPages, and each button is
      disabled exactly where pressing it would leave the page unchanged. */
  lemma PagerKeepsRange(p: int, totalPages: int)
    requires 1 <= p <= totalPages
    ensures 1 <= PrevPage(p) <= totalPages && 1 <= NextPageCapped(p, totalPages) <= totalPages
    ensures PrevPage(p) == p <==> p == 1
    ensures NextPageCapped(p, totalPages) == p <==> p == totalPages
  {
  }

  /** The page's state slots. */
  class NotificationsView {
    var items: seq<Notification>
    var page: int
    var total: int

    constructor ()
      ensures items == [] && page == 1 && total == 0
    {
      items, page, total := [], 1, 0;
    }

    /** `fetchNotifications`: on success the page's items and the total
        replace the old ones; on failure nothing changes. */
    method Fetch(response: Option<(seq<Notification>, int)>)
      modifies this`items, this`total
      ensures response.Some? ==> items == response.value.0 && total == response.value.1
      ensures response.None? ==> items == old(items) && total == old(total)
    {
      if response.Some? {
        items, total := response.value.0, response.value.1;
      }
    }

    /** `markAsRead(id)`: the list changes only after the server accepts. */
    method MarkAsRead(id: string, accepted: bool)
      modifies this`items
      ensures items == if accepted then MarkRead(old(items), id) else old(items)
    {
      if accepted {
        items := MarkRead(items, id);
      }
    }

    /** Prev: drawn only with the pager, disabled on page 1. */
    method Prev()
      requires ShowsPager(total) && page != 1
      modifies this`page
      ensures page == PrevPage(old(page))
    {
      page := PrevPage(page);
    }

    /** Next: drawn only with the pager, disabled on the last page. */
    method Next()
      requires ShowsPager(total) && page != TotalPages(total)
      modifies this`page
      ensures page == NextPageCapped(old(page), TotalPages(total))
    {
      page := NextPageCapped(page, TotalPages(total));
    }
  }
}
