/** Values shared by every module: options, results and a few facts about sequences. */
module Prelude {

  datatype Option<+T> = None | Some(value: T)

  datatype Result<+T, +E> = Ok(value: T) | Err(error: E)

  /** A JavaScript number, with reals standing for the finite ones. */
  datatype Num = NaN | PosInf | NegInf | Fin(r: real)

  /** A JSON-like value: what an `unknown` can be once it has been parsed. */
  datatype Json =
    | JNull
    | JBool(b: bool)
    | JNum(n: real)
    | JStr(s: string)
    | JArr(items: seq<Json>)
    | JObj(fields: map<string, Json>)

  /** Reading a property of an object: None is JavaScript's `undefined`. */
  function Field(fields: map<string, Json>, name: string): Option<Json> {
    if name in fields then Some(fields[name]) else None
  }

  ghost predicate Distinct<T>(s: seq<T>) {
    forall i, j :: 0 <= i < j < |s| ==> s[i] != s[j]
  }

  /** The last `n` elements of `s` (all of it when it is shorter). */
  function LastN<T>(s: seq<T>, n: nat): seq<T> {
    if |s| <= n then s else s[|s| - n..]
  }

  /** The first `n` elements of `s` (all of it when it is shorter). */
  function FirstN<T>(s: seq<T>, n: nat): seq<T> {
    if |s| <= n then s else s[..n]
  }

  function Filter<T>(s: seq<T>, keep: T -> bool): seq<T> {
    if s == [] then []
    else (if keep(s[0]) then [s[0]] else []) + Filter(s[1..], keep)
  }

  /** Places in a sequence of length `n`, in order. */
  ghost predicate Places(at: seq<nat>, n: nat) {
    && (forall i :: 0 <= i < |at| ==> at[i] < n)
    && (forall i, j :: 0 <= i < j < |at| ==> at[i] < at[j])
  }

  function Flatten<T>(ss: seq<seq<T>>): seq<T> {
    if ss == [] then [] else ss[0] + Flatten(ss[1..])
  }

  lemma {:induction false} FilterAppend<T>(a: seq<T>, b: seq<T>, keep: T -> bool)
    ensures Filter(a + b, keep) == Filter(a, keep) + Filter(b, keep)
  {
    if a == [] {
      assert a + b == b;
    } else {
      assert (a + b)[0] == a[0] && (a + b)[1..] == a[1..] + b;
      FilterAppend(a[1..], b, keep);
      var one := if keep(a[0]) then [a[0]] else [];
      assert one + (Filter(a[1..], keep) + Filter(b, keep)) == one + Filter(a[1..], keep) + Filter(b, keep);
    }
  }

  /** What a filter keeps is what stands at the places it accepts, in order. */
  ghost predicate FilteredAt<T>(s: seq<T>, keep: T -> bool, r: seq<T>, at: seq<nat>) {
    && Places(at, |s|) && |r| == |at|
    && (forall i :: 0 <= i < |at| ==> r[i] == s[at[i]])
    && (forall j :: 0 <= j < |s| ==> (j in at <==> keep(s[j])))
  }

  lemma FilteredOneMore<T>(s: seq<T>, keep: T -> bool, r: seq<T>, at: seq<nat>, x: T)
    requires FilteredAt(s, keep, r, at)
    ensures FilteredAt(s + [x], keep, r + (if keep(x) then [x] else []), at + if keep(x) then [|s|] else [])
  {
    var at' := at + if keep(x) then [|s|] else [];
    forall j | 0 <= j < |s + [x]| ensures j in at' <==> keep((s + [x])[j]) {
      assert j < |s| ==> (s + [x])[j] == s[j];
      assert |s| !in at;
    }
  }

  lemma {:induction false} FilterPlaces<T>(s: seq<T>, keep: T -> bool) returns (at: seq<nat>)
    ensures FilteredAt(s, keep, Filter(s, keep), at)
  {
    at := [];
    if s != [] {
      var front, last := s[..|s| - 1], s[|s| - 1];
      var before := FilterPlaces(front, keep);
      FilteredOneMore(front, keep, Filter(front, keep), before, last);
      FilterAppend(front, [last], keep);
      assert s == front + [last] && [last][1..] == [];
      at := before + if keep(last) then [|front|] else [];
    }
  }

  function Members(at: seq<nat>): set<nat> { set j | j in at }

  lemma MembersSnoc(front: seq<nat>, last: nat)
    requires last !in front
    ensures |Members(front + [last])| == |Members(front)| + 1
  {
    assert Members(front + [last]) == Members(front) + {last};
  }

  lemma {:induction false} CountOfPlaces(at: seq<nat>, n: nat)
    requires Places(at, n)
    ensures |Members(at)| == |at|
  {
    if at != [] {
      var front, last := at[..|at| - 1], at[|at| - 1];
      CountOfPlaces(front, n);
      MembersSnoc(front, last);
      assert at == front + [last];
      assert last !in front;
    }
  }

  lemma {:induction false} FlattenAppend<T>(a: seq<seq<T>>, b: seq<seq<T>>)
    ensures Flatten(a + b) == Flatten(a) + Flatten(b)
  {
    if a == [] {
      assert a + b == b;
    } else {
      assert (a + b)[1..] == a[1..] + b;
      FlattenAppend(a[1..], b);
    }
  }
}
