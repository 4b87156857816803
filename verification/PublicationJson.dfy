/**
 The publication checker's two traversals of JSON documents with an explicit
 stack: strict equality, and the limits on nodes and nesting.
 */
module PublicationJson {

  /** A parsed document. An object is its field names and their values, in document order; the
      parser has already rejected duplicate names. */
  datatype Json =
    | Null
    | Bool(b: bool)
    | Int(n: int)
    | Float(r: real)
    | Str(s: string)
    | List(items: seq<Json>)
    | Dict(names: seq<string>, items: seq<Json>)

  predicate Distinct(names: seq<string>) {
    forall i, j :: 0 <= i < j < |names| ==> names[i] != names[j]
  }

  predicate Container(j: Json) {
    j.List? || j.Dict?
  }

  predicate WellFormed(j: Json) {
    && (j.Dict? ==> |j.names| == |j.items| && Distinct(j.names))
    && (Container(j) ==> forall i :: 0 <= i < |j.items| ==> WellFormed(j.items[i]))
  }

  // ---- What a document means

  function IndexOf(names: seq<string>, name: string): (i: nat)
    requires name in names
    ensures i < |names| && names[i] == name
  {
    if names[0] == name then 0 else 1 + IndexOf(names[1..], name)
  }

  /** The meaning of a document: types kept apart, field order forgotten. */
  datatype Meaning =
    | Scalar(j: Json)
    | Sequence(items: seq<Meaning>)
    | Object(fields: map<string, Meaning>)

  function Mean(j: Json): Meaning
    requires WellFormed(j)
  {
    match j
    case List(items) => Sequence(seq(|items|, i requires 0 <= i < |items| => Mean(items[i])))
    case Dict(names, items) => Object(map name | name in names :: Mean(items[IndexOf(names, name)]))
    case _ => Scalar(j)
  }

  // ---- Strict equality

  type Pair = (Json, Json)

  function Size(j: Json): (n: nat)
    ensures n >= 1
  {
    if Container(j) then 1 + SizeAll(j.items) else 1
  }

  function SizeAll(items: seq<Json>): nat {
    if items == [] then 0 else Size(items[0]) + SizeAll(items[1..])
  }

  predicate SameType(l: Json, r: Json) {
    match l
    case Null => r.Null?
    case Bool(_) => r.Bool?
    case Int(_) => r.Int?
    case Float(_) => r.Float?
    case Str(_) => r.Str?
    case List(_) => r.List?
    case Dict(_, _) => r.Dict?
  }

  predicate SameNames(l: seq<string>, r: seq<string>) {
    (forall name :: name in l ==> name in r) && forall name :: name in r ==> name in l
  }

  // The pairs of children a pair of containers puts on the stack.
  function FieldPairs(l: Json, r: Json): (pairs: seq<Pair>)
    requires l.Dict? && r.Dict? && |l.names| == |l.items| && |r.names| == |r.items| && SameNames(l.names, r.names)
  {
    seq(|l.items|, i requires 0 <= i < |l.items| => (l.items[i], r.items[IndexOf(r.names, l.names[i])]))
  }

  function ItemPairs(l: Json, r: Json): (pairs: seq<Pair>)
    requires l.List? && r.List? && |l.items| == |r.items|
  {
    seq(|l.items|, i requires 0 <= i < |l.items| => (l.items[i], r.items[i]))
  }

  ghost predicate Ready(stack: seq<Pair>) {
    forall i :: 0 <= i < |stack| ==> WellFormed(stack[i].0) && WellFormed(stack[i].1)
  }

  ghost predicate Agree(stack: seq<Pair>)
    requires Ready(stack)
  {
    forall i :: 0 <= i < |stack| ==> Mean(stack[i].0) == Mean(stack[i].1)
  }

  function Lefts(stack: seq<Pair>): seq<Json> {
    seq(|stack|, i requires 0 <= i < |stack| => stack[i].0)
  }

  lemma {:induction false} SizeConcat(a: seq<Json>, b: seq<Json>)
    ensures SizeAll(a + b) == SizeAll(a) + SizeAll(b)
  {
    if a == [] {
      assert a + b == b;
    } else {
      SizeConcat(a[1..], b);
      assert (a + b)[0] == a[0] && (a + b)[1..] == a[1..] + b;
    }
  }

  // A pair of fields agrees exactly when the two meanings agree on its name.
  lemma FieldAgrees(l: Json, r: Json, i: nat)
    requires WellFormed(l) && WellFormed(r) && l.Dict? && r.Dict? && SameNames(l.names, r.names)
    requires i < |l.items|
    ensures var pair := FieldPairs(l, r)[i];
            && l.names[i] in l.names && l.names[i] in r.names
            && WellFormed(pair.0) && Mean(pair.0) == Mean(l).fields[l.names[i]]
            && WellFormed(pair.1) && Mean(pair.1) == Mean(r).fields[l.names[i]]
  {
    assert IndexOf(l.names, l.names[i]) == i;
  }

  lemma FieldsAgree(l: Json, r: Json)
    requires WellFormed(l) && WellFormed(r) && l.Dict? && r.Dict? && SameNames(l.names, r.names)
    ensures Ready(FieldPairs(l, r))
    ensures Agree(FieldPairs(l, r)) <==> Mean(l) == Mean(r)
  {
    var ml, mr, pairs := Mean(l).fields, Mean(r).fields, FieldPairs(l, r);
    assert ml.Keys == mr.Keys;
    hide Mean;
    forall i | 0 <= i < |pairs|
      ensures WellFormed(pairs[i].0) && WellFormed(pairs[i].1)
      ensures Mean(l) == Mean(r) ==> Mean(pairs[i].0) == Mean(pairs[i].1)
    {
      FieldAgrees(l, r, i);
    }
    if Agree(pairs) {
      forall name | name in ml
        ensures ml[name] == mr[name]
      {
        FieldAgrees(l, r, IndexOf(l.names, name));
      }
    }
  }

  lemma NamesDiffer(l: Json, r: Json)
    requires WellFormed(l) && WellFormed(r) && l.Dict? && r.Dict? && !SameNames(l.names, r.names)
    ensures Mean(l) != Mean(r)
  {
    var ml, mr := Mean(l).fields, Mean(r).fields;
    if name :| name in l.names && name !in r.names {
      assert name in ml && name !in mr;
    } else {
      var name :| name in r.names && name !in l.names;
      assert name in mr && name !in ml;
    }
  }

  lemma ItemsAgree(l: Json, r: Json)
    requires WellFormed(l) && WellFormed(r) && l.List? && r.List? && |l.items| == |r.items|
    ensures Ready(ItemPairs(l, r))
    ensures Agree(ItemPairs(l, r)) <==> Mean(l) == Mean(r)
  {
    var ml, mr, pairs := Mean(l).items, Mean(r).items, ItemPairs(l, r);
    assert forall i :: 0 <= i < |pairs| ==> ml[i] == Mean(pairs[i].0) && mr[i] == Mean(pairs[i].1);
  }

  lemma AgreeConcat(a: seq<Pair>, b: seq<Pair>)
    requires Ready(a) && Ready(b)
    ensures Ready(a + b) && (Agree(a + b) <==> Agree(a) && Agree(b))
  {
    assert forall i :: 0 <= i < |a| ==> (a + b)[i] == a[i];
    assert forall i :: 0 <= i < |b| ==> (a + b)[|a| + i] == b[i];
  }

  // One popped pair: unequal, or equal as far as its children are.
  method Unfold(l: Json, r: Json) returns (same: bool, pairs: seq<Pair>)
    requires WellFormed(l) && WellFormed(r)
    ensures !same ==> Mean(l) != Mean(r)
    ensures same ==> Ready(pairs) && (Agree(pairs) <==> Mean(l) == Mean(r)) && SizeAll(Lefts(pairs)) < Size(l)
  {
    pairs := [];
    if !SameType(l, r) { return false, []; }
    if l.Dict? {
      if !SameNames(l.names, r.names) {
        NamesDiffer(l, r);
        return false, [];
      }
      pairs := FieldPairs(l, r);
      FieldsAgree(l, r);
      assert Lefts(pairs) == l.items;
    } else if l.List? {
      if |l.items| != |r.items| {
        assert |Mean(l).items| != |Mean(r).items|;
        return false, [];
      }
      pairs := ItemPairs(l, r);
      ItemsAgree(l, r);
      assert Lefts(pairs) == l.items;
    } else if l != r {
      return false, [];
    }
    same := true;
  }

  /** json_equal_strict: true exactly when the two documents mean the same, with identical types
      at every node and regardless of field order. */
  method EqualStrict(left: Json, right: Json) returns (equal: bool)
    requires WellFormed(left) && WellFormed(right)
    ensures equal <==> Mean(left) == Mean(right)
  {
    hide Mean, WellFormed;
    var stack := [(left, right)];
    while stack != []
      invariant Ready(stack) && (Agree(stack) <==> Mean(left) == Mean(right))
      decreases SizeAll(Lefts(stack))
    {
      var rest, top := stack[..|stack| - 1], stack[|stack| - 1];
      assert stack == rest + [top];
      AgreeConcat(rest, [top]);
      var same, pairs := Unfold(top.0, top.1);
      if !same {
        assert !Agree([top]) by { assert [top][0] == top; }
        return false;
      }
      AgreeConcat(rest, pairs);
      SizeConcat(Lefts(rest), [top.0]);
      SizeConcat(Lefts(rest), Lefts(pairs));
      assert Lefts(stack) == Lefts(rest) + [top.0];
      assert Lefts(rest + pairs) == Lefts(rest) + Lefts(pairs);
      assert Agree([top]) <==> Agree(pairs) by { assert [top][0] == top; }
      stack := rest + pairs;
    }
    equal := true;
  }

  // ---- Node and depth limits

  const MAX_NODES := 250_000
  const MAX_DEPTH := 64

  function Max(a: int, b: int): int {
    if a < b then b else a
  }

  /** How deep containers nest: 0 for a scalar, 1 for an empty container. */
  function Nesting(j: Json): (n: nat) {
    if Container(j) then 1 + NestingAll(j.items) else 0
  }

  function NestingAll(items: seq<Json>): nat {
    if items == [] then 0 else Max(Nesting(items[0]), NestingAll(items[1..]))
  }

  type Level = (Json, nat)

  function Values(stack: seq<Level>): seq<Json> {
    seq(|stack|, i requires 0 <= i < |stack| => stack[i].0)
  }

  // A container on the stack at depth d sits below d - 1 others.
  ghost predicate Fits(stack: seq<Level>) {
    forall i :: 0 <= i < |stack| ==> Nesting(stack[i].0) == 0 || Nesting(stack[i].0) + stack[i].1 - 1 <= MAX_DEPTH
  }

  function Children(items: seq<Json>, depth: nat): (levels: seq<Level>)
  {
    seq(|items|, i requires 0 <= i < |items| => (items[i], depth))
  }

  lemma {:induction false} NestingIsMax(items: seq<Json>, bound: nat)
    ensures NestingAll(items) <= bound <==> forall i :: 0 <= i < |items| ==> Nesting(items[i]) <= bound
  {
    if items != [] {
      NestingIsMax(items[1..], bound);
      assert forall i :: 1 <= i < |items| ==> items[i] == items[1..][i - 1];
      assert forall i :: 0 <= i < |items| - 1 ==> items[1..][i] == items[i + 1];
    }
  }

  lemma FitsConcat(a: seq<Level>, b: seq<Level>)
    ensures Fits(a + b) <==> Fits(a) && Fits(b)
  {
    assert forall i :: 0 <= i < |a| ==> (a + b)[i] == a[i];
    assert forall i :: 0 <= i < |b| ==> (a + b)[|a| + i] == b[i];
  }

  lemma ChildrenFit(j: Json, depth: nat)
    requires Container(j) && 1 <= depth <= MAX_DEPTH
    ensures Fits([(j, depth)]) <==> Fits(Children(j.items, depth + 1))
  {
    var kids := Children(j.items, depth + 1);
    NestingIsMax(j.items, MAX_DEPTH - depth);
    assert [(j, depth)][0] == (j, depth);
    assert Fits([(j, depth)]) <==> NestingAll(j.items) <= MAX_DEPTH - depth;
    assert forall i :: 0 <= i < |kids| ==> kids[i] == (j.items[i], depth + 1);
    if Fits(kids) {
      forall i | 0 <= i < |j.items|
        ensures Nesting(j.items[i]) <= MAX_DEPTH - depth
      {
        assert kids[i] == (j.items[i], depth + 1);
      }
    }
  }

  // What a stack still has to show of a document of which `nodes` were counted.
  ghost predicate Remaining(value: Json, stack: seq<Level>, nodes: nat) {
    && (forall i :: 0 <= i < |stack| ==> stack[i].1 >= 1)
    && nodes + SizeAll(Values(stack)) == Size(value)
    && (Fits(stack) <==> Nesting(value) <= MAX_DEPTH)
  }

  lemma StartRemaining(value: Json)
    ensures Remaining(value, [(value, 1)], 0)
  {
    assert Values([(value, 1)]) == [value];
    assert [(value, 1)][0] == (value, 1);
  }

  function Below(top: Level): seq<Level> {
    if Container(top.0) then Children(top.0.items, top.1 + 1) else []
  }

  lemma PopSizes(rest: seq<Level>, top: Level)
    ensures SizeAll(Values(rest + [top])) == SizeAll(Values(rest + Below(top))) + 1
  {
    var kids := Below(top);
    assert Values(rest + [top]) == Values(rest) + [top.0] && Values(rest + kids) == Values(rest) + Values(kids);
    SizeConcat(Values(rest), [top.0]);
    SizeConcat(Values(rest), Values(kids));
    assert Values(kids) == if Container(top.0) then top.0.items else [];
  }

  lemma PopFits(rest: seq<Level>, top: Level)
    requires top.1 >= 1
    ensures if Container(top.0) && top.1 > MAX_DEPTH then !Fits(rest + [top])
            else Fits(rest + [top]) <==> Fits(rest + Below(top))
  {
    hide Fits;
    FitsConcat(rest, [top]);
    FitsConcat(rest, Below(top));
    if !Container(top.0) {
      ScalarFits(top);
      EmptyFits();
    } else if top.1 > MAX_DEPTH {
      TooDeep(top);
    } else {
      ChildrenFit(top.0, top.1);
    }
  }

  // The top of the stack is counted and replaced by its children.
  lemma PopRemaining(value: Json, rest: seq<Level>, top: Level, nodes: nat)
    requires Remaining(value, rest + [top], nodes)
    ensures nodes + 1 <= Size(value)
    ensures if Container(top.0) && top.1 > MAX_DEPTH then Nesting(value) > MAX_DEPTH
            else Remaining(value, rest + Below(top), nodes + 1)
    ensures SizeAll(Values(rest + Below(top))) < SizeAll(Values(rest + [top]))
  {
    hide Nesting, Fits, SizeAll, Size, Values;
    var stack := rest + [top];
    assert stack[|rest|] == top && forall i :: 0 <= i < |rest| ==> stack[i] == rest[i];
    PopSizes(rest, top);
    PopFits(rest, top);
  }

  /** validate_json_limits: a document passes exactly when it has at most 250000 nodes and no
      container sits below 64 others. */
  method WithinLimits(value: Json) returns (ok: bool)
    ensures ok <==> Size(value) <= MAX_NODES && Nesting(value) <= MAX_DEPTH
  {
    var stack: seq<Level>, nodes: nat := [(value, 1)], 0;
    StartRemaining(value);
    while stack != []
      invariant nodes <= MAX_NODES && Remaining(value, stack, nodes)
      decreases SizeAll(Values(stack))
    {
      hide Remaining, Nesting, Size, SizeAll;
      var rest: seq<Level>, top: Level := stack[..|stack| - 1], stack[|stack| - 1];
      assert stack == rest + [top];
      PopRemaining(value, rest, top, nodes);
      nodes := nodes + 1;
      if nodes > MAX_NODES { return false; }
      if Container(top.0) && top.1 > MAX_DEPTH { return false; }
      stack := rest + Below(top);
    }
    ok := true;
  }

  lemma EmptyFits()
    ensures Fits([])
  {
  }

  lemma TooDeep(level: Level)
    requires Container(level.0) && level.1 > MAX_DEPTH
    ensures !Fits([level])
  {
    assert [level][0] == level;
  }

  lemma ScalarFits(level: Level)
    requires !Container(level.0)
    ensures Fits([level])
  {
  }
}
