/** Values and helpers shared by every page and component of the client:
    optional values, JavaScript truthiness of strings, roles, the
    order-preserving `filter` the components use for their lists,
    `data.key || data || []` as the pages read list responses, and the
    page arithmetic. */
module Common {

  datatype Option<+T> = None | Some(value: T)

  type UserId = string
  type RoomId = string

  /** The role carried by the signed-in user; any other string is `Unrecognised`. */
  datatype Role = Admin | Organizer | Participant | Unrecognised

  /** The signed-in user as decoded from the session credential. */
  datatype User = User(id: UserId, name: string, role: Role)

  /** A calendar day as the pages compare them (`toDateString`), or the key
      an unparsable timestamp produces ("Invalid Date"). */
  datatype DayKey = Day(ordinal: int) | InvalidDate

  /** An event as the event list endpoints return it. */
  datatype Event = Event(
    id: string,
    title: Option<string>,
    description: Option<string>,
    organizer: UserId,
    participants: Option<seq<UserId>>,
    startDay: DayKey)

  /** A string field is truthy in JavaScript when present and non-empty. */
  predicate Truthy(s: Option<string>) {
    s.Some? && s.value != ""
  }

  /** `s || fallback` for a string field. */
  function OrElse(s: Option<string>, fallback: string): (r: string)
    ensures Truthy(s) ==> r == s.value
    ensures !Truthy(s) ==> r == fallback
  {
    if Truthy(s) then s.value else fallback
  }

  /** `value || ""`: a missing or empty string becomes "". */
  lemma OrEmptyIsValueOrEmpty(s: Option<string>)
    ensures OrElse(s, "") == (if s.Some? then s.value else "")
  {
  }

  /** The one capability test shared by the Create button, the sidebar link
      and the chat page's invite panel: Admin or Organizer. */
  predicate IsManager(role: Role) {
    role == Admin || role == Organizer
  }

  /** A response body (`res.data`) as far as the list reads look into it:
      `undefined` or `null`, a falsy scalar (`0`, `""`, `false`), an
      array, or an object whose property under the list key is `field`
      (`Undefined` when the object has no such key). */
  datatype Json<T> = Undefined | Null | FalsyScalar | Array(items: seq<T>) | Object(field: Json<T>)

  /** JavaScript truthiness: arrays and objects are truthy even when empty. */
  predicate JsTruthy<T>(v: Json<T>) {
    v.Array? || v.Object?
  }

  /** `a || b`. */
  function JsOr<T>(a: Json<T>, b: Json<T>): (r: Json<T>)
    ensures JsTruthy(a) ==> r == a
    ensures !JsTruthy(a) ==> r == b
  {
    if JsTruthy(a) then a else b
  }

  /** `v.key`: reading a property of `null` or `undefined` throws (`None`);
      arrays and scalars have no such property. */
  function Property<T>(v: Json<T>): (r: Option<Json<T>>)
    ensures r.None? <==> v.Undefined? || v.Null?
    ensures v.Object? ==> r == Some(v.field)
    ensures v.Array? || v.FalsyScalar? ==> r == Some(Undefined)
  {
    match v
    case Undefined => None
    case Null => None
    case Object(f) => Some(f)
    case _ => Some(Undefined)
  }

  /** `data.key || data || []`; `None` when the property read throws. */
  function Unwrap<T>(data: Json<T>): (r: Option<Json<T>>)
    ensures r.None? <==> data.Undefined? || data.Null?
    ensures data.Array? ==> r == Some(data)
    ensures data.FalsyScalar? ==> r == Some(Array([]))
    ensures data.Object? && JsTruthy(data.field) ==> r == Some(data.field)
    ensures data.Object? && !JsTruthy(data.field) ==> r == Some(data)
  {
    match Property(data)
    case None => None
    case Some(f) => Some(JsOr(JsOr(f, data), Array([])))
  }

  /** An envelope holding a list wins over the body around it even when the
      list is empty, because an empty array is truthy. */
  lemma EmptyEnvelopeWins<T>()
    ensures Unwrap<T>(Object(Array([]))) == Some(Array([]))
  {
  }

  /** The list a page stores after `data.key || data || []`, or `None` when
      the read throws or picks a value that is not a list. */
  function ListRead<T>(data: Json<T>): (r: Option<seq<T>>)
    ensures r.None? <==> data.Undefined? || data.Null? || (data.Object? && !data.field.Array?)
    ensures data.Array? ==> r == Some(data.items)
    ensures data.Object? && data.field.Array? ==> r == Some(data.field.items)
    ensures data.FalsyScalar? ==> r == Some([])
  {
    match Unwrap(data)
    case Some(Array(xs)) => Some(xs)
    case _ => None
  }

  /** `Math.max(1, p - 1)` and `Math.max(p - 1, 1)`: the Prev button. */
  function PrevPage(p: int): (r: int)
    ensures r >= 1
    ensures p > 1 ==> r == p - 1
    ensures p <= 2 ==> r == 1
  {
    if p - 1 > 1 then p - 1 else 1
  }

  predicate Distinct<T(==)>(s: seq<T>) {
    forall i, j :: 0 <= i < j < |s| ==> s[i] != s[j]
  }

  /** `a` is `b` with some elements deleted, the rest kept in order. */
  predicate Subsequence<T(==)>(a: seq<T>, b: seq<T>)
    decreases |b|
  {
    if a == [] then true
    else if b == [] then false
    else (a[0] == b[0] && Subsequence(a[1..], b[1..])) || Subsequence(a, b[1..])
  }

  /** `Array.prototype.filter`: keep, in order, the elements satisfying `p`. */
  function Filter<T(==,!new)>(s: seq<T>, p: T -> bool): (r: seq<T>)
    ensures |r| <= |s|
    ensures forall x :: x in r <==> x in s && p(x)
  {
    if s == [] then []
    else
      var rest := Filter(s[1..], p);
      assert s == [s[0]] + s[1..];
      if p(s[0]) then [s[0]] + rest else rest
  }

  /** Filtering keeps every element satisfying `p` as often as `s` has it,
      and drops every other one. */
  lemma {:induction false} FilterCounts<T(!new)>(s: seq<T>, p: T -> bool)
    ensures forall x :: multiset(Filter(s, p))[x] == if p(x) then multiset(s)[x] else 0
    decreases |s|
  {
    if s != [] {
      FilterCounts(s[1..], p);
      assert s == [s[0]] + s[1..];
      assert multiset(s) == multiset{s[0]} + multiset(s[1..]);
    }
  }

  lemma {:induction false} FilterIsSubsequence<T(!new)>(s: seq<T>, p: T -> bool)
    ensures Subsequence(Filter(s, p), s)
    decreases |s|
  {
    if s != [] {
      FilterIsSubsequence(s[1..], p);
      if !p(s[0]) {
        SubsequenceOfTail(Filter(s[1..], p), s);
      }
    }
  }

  lemma {:induction false} SubsequenceReflexive<T>(s: seq<T>)
    ensures Subsequence(s, s)
    decreases |s|
  {
    if s != [] {
      SubsequenceReflexive(s[1..]);
    }
  }

  lemma {:induction false} SubsequenceOfTail<T>(a: seq<T>, b: seq<T>)
    requires b != [] && Subsequence(a, b[1..])
    ensures Subsequence(a, b)
  {
  }

  lemma {:induction false} FilterAppend<T(!new)>(a: seq<T>, b: seq<T>, p: T -> bool)
    ensures Filter(a + b, p) == Filter(a, p) + Filter(b, p)
    decreases |a|
  {
    if a == [] {
      assert a + b == b;
    } else {
      assert (a + b)[1..] == a[1..] + b;
      FilterAppend(a[1..], b, p);
    }
  }

  /** Filtering with a predicate every element already satisfies changes nothing. */
  lemma {:induction false} FilterKeepsAll<T(!new)>(s: seq<T>, p: T -> bool)
    requires forall x :: x in s ==> p(x)
    ensures Filter(s, p) == s
    decreases |s|
  {
    if s != [] {
      FilterKeepsAll(s[1..], p);
    }
  }

  /** A subsequence of a duplicate-free sequence is duplicate-free. */
  lemma {:induction false} SubsequenceDistinct<T>(a: seq<T>, b: seq<T>)
    requires Subsequence(a, b) && Distinct(b)
    ensures Distinct(a)
    decreases |b|
  {
    if a != [] && b != [] {
      if a[0] == b[0] && Subsequence(a[1..], b[1..]) {
        SubsequenceDistinct(a[1..], b[1..]);
        SubsequenceMembers(a[1..], b[1..]);
        forall i, j | 0 <= i < j < |a| ensures a[i] != a[j] {
          if i == 0 {
            assert a[j] == a[1..][j - 1];
            assert a[j] in b[1..];
          } else {
            assert a[i] == a[1..][i - 1] && a[j] == a[1..][j - 1];
          }
        }
      } else {
        SubsequenceDistinct(a, b[1..]);
      }
    }
  }

  lemma {:induction false} SubsequenceMembers<T>(a: seq<T>, b: seq<T>)
    requires Subsequence(a, b)
    ensures forall x :: x in a ==> x in b
    decreases |b|
  {
    if a != [] && b != [] {
      if a[0] == b[0] && Subsequence(a[1..], b[1..]) {
        SubsequenceMembers(a[1..], b[1..]);
        assert a == [a[0]] + a[1..];
        assert b == [b[0]] + b[1..];
      } else {
        SubsequenceMembers(a, b[1..]);
        assert b == [b[0]] + b[1..];
      }
    }
  }
}
