/** Pairs and lists of public/scripts/nconc.js: `_cons`, `_list`, `_car`, `_cdr`,
    `_isEmptyList`, `_isPair`, `_first` ... `_fourth`, `_fourthOrFalse`, `_listLength`,
    `_length` and `_listToVector`.

    The reference view of a chain of pairs is its `Spine` (the cars met along the cdr chain)
    and its `Terminator` (the first non-pair met); a proper list is one terminated by the
    empty list. */
module Lists {
  import opened Wrappers
  import opened Values

  // ---- reference view ----

  function Spine(v: Value): seq<Value>
    decreases v
  {
    if v.Pair? then [v.car] + Spine(v.cdr) else []
  }

  function Terminator(v: Value): Value
    decreases v
  {
    if v.Pair? then Terminator(v.cdr) else v
  }

  predicate IsProperList(v: Value) {
    Terminator(v) == EmptyList
  }

  /** The right-nested chain of pairs the reader builds for `( ... )`. */
  function FromSeq(s: seq<Value>): (r: Value)
    ensures IsProperList(r)
    ensures Spine(r) == s
  {
    if |s| == 0 then EmptyList else Pair(s[0], FromSeq(s[1..]))
  }

  /** A proper list is rebuilt from its spine. */
  lemma {:induction false} SpineRebuilds(v: Value)
    requires IsProperList(v)
    ensures FromSeq(Spine(v)) == v
    decreases v
  {
    if v.Pair? {
      SpineRebuilds(v.cdr);
      assert Spine(v)[1..] == Spine(v.cdr);
    }
  }

  // ---- pairs ----

  /** `_isPair` */
  predicate IsPair(v: Value) {
    v.Pair?
  }

  /** `_isEmptyList`: the empty list is a singleton distinct from every pair and from false. */
  predicate IsEmptyList(v: Value) {
    v == EmptyList
  }

  /** `_car`: anything but a pair, the empty list included, is an error. */
  function Car(v: Value): (r: Option<Value>)
    ensures r.Some? <==> IsPair(v)
    ensures r.Some? ==> r.value == Spine(v)[0]
  {
    if v.Pair? then Some(v.car) else None
  }

  /** `_cdr`: anything but a pair, the empty list included, is an error. */
  function Cdr(v: Value): (r: Option<Value>)
    ensures r.Some? <==> IsPair(v)
    ensures r.Some? ==> Spine(v) == [Car(v).value] + Spine(r.value)
    ensures r.Some? ==> Terminator(r.value) == Terminator(v)
  {
    if v.Pair? then Some(v.cdr) else None
  }

  /** `_cons`: the new pair takes `a` apart into `a` and `d` again. */
  function Cons(a: Value, d: Value): (r: Value)
    ensures IsPair(r) && !IsEmptyList(r)
    ensures Car(r) == Some(a) && Cdr(r) == Some(d)
  {
    Pair(a, d)
  }

  /** `_list`: the one-element proper list. */
  function List(x: Value): (r: Value)
    ensures IsProperList(r) && Spine(r) == [x]
  {
    Cons(x, EmptyList)
  }

  // ---- positional access ----

  /** The `_car` of the `i`-th `_cdr`, failing as soon as a non-pair is met. */
  function ListRef(v: Value, i: nat): (r: Option<Value>)
    ensures r.Some? <==> i < |Spine(v)|
    ensures r.Some? ==> r.value == Spine(v)[i]
    decreases i
  {
    if !v.Pair? then None
    else if i == 0 then Some(v.car)
    else ListRef(v.cdr, i - 1)
  }

  /** `_first`, `_second`, `_third`, `_fourth` (i = 0, 1, 2, 3): an array long enough is indexed,
      a pair is walked, anything else is an error. */
  function Nth(v: Value, i: nat): (r: Option<Value>)
    ensures v.Vector? ==> (r.Some? <==> i < |v.elems|) && (r.Some? ==> r.value == v.elems[i])
    ensures v.Pair? ==> (r.Some? <==> i < |Spine(v)|) && (r.Some? ==> r.value == Spine(v)[i])
    ensures !v.Vector? && !v.Pair? ==> r.None?
  {
    if v.Vector? && |v.elems| > i then Some(v.elems[i])
    else if v.Pair? then ListRef(v, i)
    else None
  }

  function First(v: Value): Option<Value> { Nth(v, 0) }
  function Second(v: Value): Option<Value> { Nth(v, 1) }
  function Third(v: Value): Option<Value> { Nth(v, 2) }
  function Fourth(v: Value): Option<Value> { Nth(v, 3) }

  /** `_fourthOrFalse`: `_fourth`, with any failure swallowed into `#f`. */
  function FourthOrFalse(v: Value): (r: Value)
    ensures v.Pair? && |Spine(v)| > 3 ==> r == Spine(v)[3]
    ensures v.Vector? && |v.elems| > 3 ==> r == v.elems[3]
    ensures IsProperList(v) && |Spine(v)| <= 3 ==> r == Bool(false)
  {
    match Fourth(v)
    case Some(x) => x
    case None => Bool(false)
  }

  /** An array and the proper list of the same elements answer every positional access alike. */
  lemma ArrayAndListAgree(s: seq<Value>, i: nat)
    ensures Nth(Vector(s), i) == Nth(FromSeq(s), i)
  {
  }

  // ---- length and conversion ----

  /** The loop of `_listLength`: counts the pairs along the cdr chain, starting from `n`. */
  function CountPairs(v: Value, n: nat): (r: nat)
    ensures r == n + |Spine(v)|
    decreases v
  {
    if v.Pair? then CountPairs(v.cdr, n + 1) else n
  }

  /** `_listLength`: the number of pairs in the chain, whatever terminates it; the argument
      must itself be a pair. */
  function ListLength(v: Value): (r: Option<nat>)
    ensures r.Some? <==> IsPair(v)
    ensures r.Some? ==> r.value == |Spine(v)| && r.value >= 1
  {
    if v.Pair? then Some(CountPairs(v.cdr, 1)) else None
  }

  /** The loop of `_listToVector`: pushes cars onto `acc` while pairs last, then insists on the
      empty list. */
  function CollectFrom(v: Value, acc: seq<Value>): (r: Option<seq<Value>>)
    ensures r.Some? <==> IsProperList(v)
    ensures r.Some? ==> r.value == acc + Spine(v)
    decreases v
  {
    if v.Pair? then CollectFrom(v.cdr, acc + [v.car])
    else if v.EmptyList? then Some(acc)
    else None
  }

  /** `_listToVector`: the elements of a proper list in order; an improper tail is an error. */
  function ListToVector(v: Value): (r: Option<seq<Value>>)
    ensures r.Some? <==> IsProperList(v)
    ensures r.Some? ==> r.value == Spine(v) && FromSeq(r.value) == v
  {
    var r := CollectFrom(v, []);
    if r.Some? then SpineRebuilds(v); r else r
  }

  /** The other half of the round trip: converting the list built from `s` gives `s` back. */
  lemma ListToVectorOfFromSeq(s: seq<Value>)
    ensures ListToVector(FromSeq(s)) == Some(s)
  {
  }

  /** `_length`: arrays and lists by element count, the empty list 0, and, through `_.size`,
      strings by length, hashes by key count and `null`/`undefined` as 0. */
  function Length(v: Value): Option<nat> {
    match v
    case Vector(elems) => Some(|elems|)
    case Pair(_, _) => ListLength(v)
    case EmptyList => Some(0)
    case Str(s) => Some(|s|)
    case Mapping(entries) => Some(|entries.Keys|)
    case Null => Some(0)
    case Undefined => Some(0)
    case _ => None
  }

  /** `_length` counts elements: a proper list has as many as the vector it converts to, any
      chain of pairs as many as `_listLength` counts, an array as many as it holds. */
  lemma LengthCounts(v: Value)
    ensures IsProperList(v) ==> Length(v) == Some(|ListToVector(v).value|)
    ensures v.Pair? ==> Length(v) == ListLength(v)
    ensures v.Vector? ==> Length(v) == Some(|v.elems|)
    ensures v == EmptyList ==> Length(v) == Some(0)
  {
  }
}
