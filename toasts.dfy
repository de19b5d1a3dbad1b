/** The `useToasts` hook (src/components/ToastContainer.jsx): a list of
    toasts; `push` appends one whose id is the current time in milliseconds,
    and a timer later removes every toast carrying that id. */
module Toasts {
  import opened Common

  datatype Toast = Toast(id: int, title: string)

  /** `p.filter((t) => t.id !== id)`. */
  function WithoutId(ts: seq<Toast>, id: int): seq<Toast> {
    Filter(ts, (t: Toast) => t.id != id)
  }

  class ToastQueue {
    var toasts: seq<Toast>

    constructor ()
      ensures toasts == []
    {
      toasts := [];
    }

    /** `push(title)`; the clock reading `now` becomes the toast's id. The
        timer it starts is modelled by the caller invoking `Expire(id)`. */
    method Push(now: int, title: string) returns (id: int)
      modifies this
      ensures id == now
      ensures toasts == old(toasts) + [Toast(now, title)]
    {
      id := now;
      toasts := toasts + [Toast(id, title)];
    }

    /** The timer callback: drop every toast with this id. */
    method Expire(id: int)
      modifies this
      ensures toasts == WithoutId(old(toasts), id)
    {
      toasts := WithoutId(toasts, id);
    }
  }

  /** Expiry leaves no toast with the id, keeps every other toast with its
      multiplicity, and keeps their order. */
  lemma ExpireRemovesExactlyId(ts: seq<Toast>, id: int)
    ensures forall t :: t in WithoutId(ts, id) ==> t.id != id
    ensures forall t :: t in ts && t.id != id ==> multiset(WithoutId(ts, id))[t] == multiset(ts)[t]
    ensures Subsequence(WithoutId(ts, id), ts)
  {
    FilterIsSubsequence(ts, (t: Toast) => t.id != id);
    FilterCounts(ts, (t: Toast) => t.id != id);
  }

  /** Expiring an id that no toast carries changes nothing. */
  lemma ExpireAbsentIsNoop(ts: seq<Toast>, id: int)
    requires forall t :: t in ts ==> t.id != id
    ensures WithoutId(ts, id) == ts
  {
    FilterKeepsAll(ts, (t: Toast) => t.id != id);
  }

  /** Two toasts pushed in the same millisecond share the id, so the first
      timer to fire removes both of them, together with every earlier toast
      of that id. */
  lemma SameMillisecondExpiresTogether(ts: seq<Toast>, now: int, a: string, b: string)
    ensures WithoutId(ts + [Toast(now, a)] + [Toast(now, b)], now) == WithoutId(ts, now)
  {
    var p := (t: Toast) => t.id != now;
    FilterAppend(ts + [Toast(now, a)], [Toast(now, b)], p);
    FilterAppend(ts, [Toast(now, a)], p);
  }

  /** When the id is fresh, a push followed by its own expiry restores the
      list as it was before the push. */
  lemma PushThenExpireRestores(ts: seq<Toast>, now: int, title: string)
    requires forall t :: t in ts ==> t.id != now
    ensures WithoutId(ts + [Toast(now, title)], now) == ts
  {
    var p := (t: Toast) => t.id != now;
    FilterAppend(ts, [Toast(now, title)], p);
    ExpireAbsentIsNoop(ts, now);
  }
}
