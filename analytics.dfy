/** The chart data of src/components/Analytics.jsx: the number of events
    starting on each day, for the first seven days in the order they are
    first met in the event list. */
module Analytics {
  import opened Common

  /** One bar of the chart. */
  datatype DayCount = DayCount(date: DayKey, count: nat)

  /** `Object.keys(map).slice(0, 7)`: at most seven bars. */
  const MaxBars: nat := 7

  /** The start day of each event, in list order. */
  function StartDays(events: seq<Event>): (days: seq<DayKey>)
    ensures |days| == |events|
    ensures forall i :: 0 <= i < |events| ==> days[i] == events[i].startDay
  {
    seq(|events|, i requires 0 <= i < |events| => events[i].startDay)
  }

  /** The distinct days in the order they are first met: the insertion
      order of the keys of the counting object. */
  function FirstSeen(days: seq<DayKey>): (keys: seq<DayKey>)
    ensures Distinct(keys)
    ensures forall d :: d in keys <==> d in days
    ensures |keys| <= |days|
  {
    if days == [] then []
    else
      var keys := FirstSeen(days[..|days| - 1]);
      var d := days[|days| - 1];
      assert days == days[..|days| - 1] + [d];
      if d in keys then keys else keys + [d]
  }

  /** The sum of the counts of `keys` among `days`. */
  function TotalCount(keys: seq<DayKey>, days: seq<DayKey>): nat {
    if keys == [] then 0 else multiset(days)[keys[0]] + TotalCount(keys[1..], days)
  }

  /** The counting object after the events behind `seen`: its keys in
      insertion order are `keys`, and each holds the number of its day in
      `seen`. */
  ghost predicate Tallies(seen: seq<DayKey>, keys: seq<DayKey>, counts: map<DayKey, nat>) {
    && keys == FirstSeen(seen)
    && (forall k :: k in counts <==> k in keys)
    && (forall k :: k in counts ==> counts[k] == multiset(seen)[k])
  }

  /** `map[day] = (map[day] || 0) + 1` keeps the tally for one more day; a
      day met for the first time is appended to the keys. */
  lemma TallyStep(seen: seq<DayKey>, keys: seq<DayKey>, counts: map<DayKey, nat>, day: DayKey,
                  keys': seq<DayKey>, counts': map<DayKey, nat>)
    requires Tallies(seen, keys, counts)
    requires keys' == if day in counts then keys else keys + [day]
    requires counts' == counts[day := if day in counts then counts[day] + 1 else 1]
    ensures Tallies(seen + [day], keys', counts')
  {
    FirstSeenSnoc(seen, day);
    var m := multiset(seen + [day]);
    assert m == multiset(seen) + multiset{day};
    forall k | k in counts'
      ensures counts'[k] == m[k]
    {
      if k != day {
        assert m[k] == multiset(seen)[k];
      }
    }
  }

  /** The loop's step, stated on the prefix of the days handled so far. */
  lemma TallyNext(days: seq<DayKey>, i: nat, keys: seq<DayKey>, counts: map<DayKey, nat>,
                  keys': seq<DayKey>, counts': map<DayKey, nat>)
    requires i < |days| && Tallies(days[..i], keys, counts)
    requires keys' == if days[i] in counts then keys else keys + [days[i]]
    requires counts' == counts[days[i] := if days[i] in counts then counts[days[i]] + 1 else 1]
    ensures Tallies(days[..i + 1], keys', counts')
  {
    assert days[..i + 1] == days[..i] + [days[i]];
    TallyStep(days[..i], keys, counts, days[i], keys', counts');
  }

  /** The `forEach` loop of the `useMemo` body: one count per start day,
      in a map whose keys, in insertion order, are `keys`. */
  method CountDays(evs: seq<Event>) returns (keys: seq<DayKey>, counts: map<DayKey, nat>)
    ensures keys == FirstSeen(StartDays(evs))
    ensures forall k :: k in counts <==> k in keys
    ensures forall k :: k in counts ==> counts[k] == multiset(StartDays(evs))[k]
  {
    ghost var days := StartDays(evs);
    counts := map[];
    keys := [];
    var i := 0;
    while i < |evs|
      invariant 0 <= i <= |evs|
      invariant Tallies(days[..i], keys, counts)
    {
      var day := evs[i].startDay;
      var keys', counts';
      if day in counts {
        keys', counts' := keys, counts[day := counts[day] + 1];
      } else {
        keys', counts' := keys + [day], counts[day := 1];
      }
      TallyNext(days, i, keys, counts, keys', counts');
      keys, counts := keys', counts';
      i := i + 1;
    }
    assert days[..i] == days;
  }

  /** The `useMemo` body: count each event's start day, then keep the first
      seven keys with their counts. A missing event list counts as empty. */
  method ChartData(events: Option<seq<Event>>) returns (data: seq<DayCount>)
    ensures var days := StartDays(if events.Some? then events.value else []);
      && |data| == (if |FirstSeen(days)| < MaxBars then |FirstSeen(days)| else MaxBars)
      && forall i :: 0 <= i < |data| ==>
           data[i].date == FirstSeen(days)[i] && data[i].count == multiset(days)[data[i].date]
  {
    var evs := if events.Some? then events.value else [];
    var keys, counts := CountDays(evs);
    var n := if |keys| < MaxBars then |keys| else MaxBars;
    data := seq(n, j requires 0 <= j < n => DayCount(keys[j], counts[keys[j]]));
  }

  /** One more day extends the first-seen keys by that day exactly when it
      is new. */
  lemma FirstSeenSnoc(days: seq<DayKey>, d: DayKey)
    ensures FirstSeen(days + [d]) == if d in FirstSeen(days) then FirstSeen(days) else FirstSeen(days) + [d]
  {
    assert (days + [d])[..|days|] == days;
  }

  /** The position of the first occurrence of `d` in `days`. */
  function IndexOf(days: seq<DayKey>, d: DayKey): (i: nat)
    requires d in days
    ensures i < |days| && days[i] == d
    ensures forall j :: 0 <= j < i ==> days[j] != d
  {
    if days[0] == d then 0 else 1 + IndexOf(days[1..], d)
  }

  /** Appending a day does not move the first occurrence of a day already met. */
  lemma IndexOfSnoc(days: seq<DayKey>, d: DayKey, k: DayKey)
    requires k in days
    ensures IndexOf(days + [d], k) == IndexOf(days, k)
  {
    var i, i' := IndexOf(days + [d], k), IndexOf(days, k);
    assert (days + [d])[i'] == k;
    assert i <= i';
    assert days[i] == (days + [d])[i];
  }

  /** The distinct days come in the order their first events come in the list. */
  lemma {:induction false} FirstSeenInFirstMetOrder(days: seq<DayKey>)
    ensures forall i, j :: 0 <= i < j < |FirstSeen(days)| ==>
      IndexOf(days, FirstSeen(days)[i]) < IndexOf(days, FirstSeen(days)[j])
    decreases |days|
  {
    if days != [] {
      var init, d := days[..|days| - 1], days[|days| - 1];
      FirstSeenInFirstMetOrder(init);
      OrderSnoc(init, d);
      assert days == init + [d];
    }
  }

  /** One more day keeps the first-met order of the distinct days. */
  lemma OrderSnoc(init: seq<DayKey>, d: DayKey)
    requires forall i, j :: 0 <= i < j < |FirstSeen(init)| ==>
      IndexOf(init, FirstSeen(init)[i]) < IndexOf(init, FirstSeen(init)[j])
    ensures forall i, j :: 0 <= i < j < |FirstSeen(init + [d])| ==>
      IndexOf(init + [d], FirstSeen(init + [d])[i]) < IndexOf(init + [d], FirstSeen(init + [d])[j])
  {
    FirstSeenSnoc(init, d);
    var days, keys, keys' := init + [d], FirstSeen(init), FirstSeen(init + [d]);
    forall i, j | 0 <= i < j < |keys'|
      ensures IndexOf(days, keys'[i]) < IndexOf(days, keys'[j])
    {
      assert keys'[i] == keys[i] && keys[i] in init;
      IndexOfSnoc(init, d, keys[i]);
      if j < |keys| {
        assert keys'[j] == keys[j] && keys[j] in init;
        IndexOfSnoc(init, d, keys[j]);
      } else {
        assert keys'[j] == d && d !in init;
        assert IndexOf(days, d) == |init|;
      }
    }
  }

  /** Every key counted is the start day of at least one event. */
  lemma EveryCountPositive(days: seq<DayKey>)
    ensures forall d :: d in FirstSeen(days) ==> multiset(days)[d] >= 1
  {
  }

  /** Over all the distinct days (before the seven-bar cut) the counts add up
      to the number of events: every event is counted once, on its day. */
  lemma {:induction false} CountsSumToEvents(days: seq<DayKey>)
    ensures TotalCount(FirstSeen(days), days) == |days|
    decreases |days|
  {
    if days != [] {
      var init, d := days[..|days| - 1], days[|days| - 1];
      assert days == init + [d];
      CountsSumToEvents(init);
      var keys := FirstSeen(init);
      AddOneDay(keys, init, d);
      if d !in keys {
        TotalCountSnoc(keys, d, days);
        assert multiset(init)[d] == 0;
      }
    }
  }

  /** Adding one more day to the events raises the total over distinct keys
      by one when that day is among the keys, and leaves it when not. */
  lemma {:induction false} AddOneDay(keys: seq<DayKey>, days: seq<DayKey>, d: DayKey)
    requires Distinct(keys)
    ensures TotalCount(keys, days + [d]) == TotalCount(keys, days) + (if d in keys then 1 else 0)
    decreases |keys|
  {
    if keys != [] {
      assert multiset(days + [d]) == multiset(days) + multiset{d};
      assert Distinct(keys[1..]);
      AddOneDay(keys[1..], days, d);
      assert keys == [keys[0]] + keys[1..];
    }
  }

  lemma {:induction false} TotalCountSnoc(keys: seq<DayKey>, d: DayKey, days: seq<DayKey>)
    ensures TotalCount(keys + [d], days) == TotalCount(keys, days) + multiset(days)[d]
    decreases |keys|
  {
    if keys == [] {
      assert keys + [d] == [d];
    } else {
      assert (keys + [d])[1..] == keys[1..] + [d];
      TotalCountSnoc(keys[1..], d, days);
    }
  }

  /** The bars shown never count more events than there are, and count all
      of them when there are at most seven distinct days. */
  lemma ChartCountsBounded(days: seq<DayKey>, n: nat)
    requires n <= |FirstSeen(days)|
    ensures TotalCount(FirstSeen(days)[..n], days) <= |days|
    ensures n == |FirstSeen(days)| ==> TotalCount(FirstSeen(days)[..n], days) == |days|
  {
    var keys := FirstSeen(days);
    CountsSumToEvents(days);
    TotalCountSplit(keys, n, days);
    assert keys[..n] + keys[n..] == keys;
  }

  lemma {:induction false} TotalCountSplit(keys: seq<DayKey>, n: nat, days: seq<DayKey>)
    requires n <= |keys|
    ensures TotalCount(keys, days) == TotalCount(keys[..n], days) + TotalCount(keys[n..], days)
    decreases n
  {
    if n > 0 {
      TotalCountSplit(keys[1..], n - 1, days);
      assert keys[1..][..n - 1] == keys[..n][1..];
      assert keys[1..][n - 1..] == keys[n..];
    }
  }

  /** "Not enough data" is shown exactly when there are no events. */
  lemma NoDataIffNoEvents(days: seq<DayKey>)
    ensures |FirstSeen(days)| == 0 <==> |days| == 0
  {
    if days != [] {
      assert days[0] in FirstSeen(days);
    }
  }
}
