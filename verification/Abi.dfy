/** Go's stack-based calling convention for 64-bit machines: where every argument and result
    lies. */
module Abi {
  import opened Modular

  const WORD_SIZE := 8

  datatype Type = Type(size: nat, float: bool, signed: bool)

  datatype Param = Param(name: string, ty: Type, offset: int)

  datatype Signature = Signature(args: seq<Param>, rets: seq<Param>, argsSize: int)

  datatype Field = Field(name: string, ty: Type)

  /** Fields is nil for a scalar, and for a struct declared without fields. */
  datatype Fields = Nil | List(fields: seq<Field>)

  datatype Arg = Arg(name: string, ty: Type, fields: Fields)

  function Scalar(name: string, t: Type): Arg {
    Arg(name, t, Nil)
  }

  /** A struct argument: without fields its list is nil, and its type the zero Type. */
  function Struct(name: string, fields: seq<Field>): Arg {
    Arg(name, Type(0, false, false), if fields == [] then Nil else List(fields))
  }

  /** (n + to - 1) &^ (to - 1): to is a power of two, or 0, whose mask clears every bit. */
  function Align(n: int, to: nat): int {
    if to == 0 then 0 else (n + to - 1) - (n + to - 1) % to
  }

  lemma AlignIsLeast(n: int, to: nat)
    requires to > 0
    ensures Align(n, to) % to == 0 && n <= Align(n, to) < n + to
    ensures forall m :: n <= m && m % to == 0 ==> Align(n, to) <= m
  {
    var x := n + to - 1;
    var q := x / to;
    assert x == x % to + to * q;
    DivModUnique(to, 0, q);
    forall m | n <= m && m % to == 0 ensures Align(n, to) <= m {
      NoMultipleBetween(to, q, m / to, n);
    }
  }

  lemma NoMultipleBetween(to: nat, q: int, p: int, n: int)
    requires to > 0 && n <= to * p && to * q < n + to
    ensures to * q <= to * p
  {
    MulSub(to, q, p);
    MulLower(to, q - p);
  }

  // ------------------------------------------------------------ one argument

  /** The alignment of the widest field, at least 1. */
  function WidestOf(fields: seq<Field>): (a: nat)
    ensures a >= 1
    ensures forall i :: 0 <= i < |fields| ==> fields[i].ty.size <= a
    ensures a == 1 || exists i :: 0 <= i < |fields| && fields[i].ty.size == a
  {
    if fields == [] then 1
    else
      var a := WidestOf(fields[..|fields| - 1]);
      var s := fields[|fields| - 1].ty.size;
      assert s > a ==> fields[|fields| - 1].ty.size == s;
      if s > a then s else a
  }

  method AggregateAlign(fields: seq<Field>) returns (a: nat)
    ensures a == WidestOf(fields)
  {
    a := 1;
    for i := 0 to |fields|
      invariant a == WidestOf(fields[..i])
    {
      assert fields[..i + 1][..i] == fields[..i];
      if fields[i].ty.size > a {
        a := fields[i].ty.size;
      }
    }
    assert fields[..|fields|] == fields;
  }

  /** The slots of the fields of an aggregate that starts at base, from field offset `at` on,
      and the offset after the last. */
  function PlaceFields(name: string, base: int, fields: seq<Field>, at: int): (seq<Param>, int) {
    if fields == [] then ([], at)
    else
      var f := fields[0];
      var o := Align(at, f.ty.size);
      var rest := PlaceFields(name, base, fields[1..], o + f.ty.size);
      ([Param(name + "_" + f.name, f.ty, base + o)] + rest.0, rest.1)
  }

  /** The slots of an argument after offset off, and the offset after it. */
  function PlaceArg(a: Arg, off: int): (seq<Param>, int) {
    match a.fields
    case Nil =>
      var o := Align(off, a.ty.size);
      ([Param(a.name, a.ty, o)], o + a.ty.size)
    case List(fields) =>
      var al := WidestOf(fields);
      var base := Align(off, al);
      var placed := PlaceFields(a.name, base, fields, 0);
      (placed.0, base + Align(placed.1, al))
  }

  function Place(args: seq<Arg>, off: int): (seq<Param>, int) {
    if args == [] then ([], off)
    else
      var h := PlaceArg(args[0], off);
      var rest := Place(args[1..], h.1);
      (h.0 + rest.0, rest.1)
  }

  function Layout(args: seq<Arg>, rets: seq<Arg>): Signature {
    var a := Place(args, 0);
    var r := Place(rets, Align(a.1, WORD_SIZE));
    Signature(a.0, r.0, r.1)
  }

  /** ps and off are the slots of the first i arguments and the offset after them. */
  ghost predicate Placed(list: seq<Arg>, from: int, i: nat, ps: seq<Param>, off: int) {
    i <= |list| && Place(list, from) == (ps + Place(list[i..], off).0, Place(list[i..], off).1)
  }

  lemma PlacedNext(list: seq<Arg>, from: int, i: nat, ps: seq<Param>, off: int)
    requires i < |list| && Placed(list, from, i, ps, off)
    ensures var h := PlaceArg(list[i], off); Placed(list, from, i + 1, ps + h.0, h.1)
  {
    hide PlaceArg;
    var h := PlaceArg(list[i], off);
    assert list[i..][0] == list[i] && list[i..][1..] == list[i + 1..];
    assert Place(list[i..], off) == (h.0 + Place(list[i + 1..], h.1).0, Place(list[i + 1..], h.1).1);
    assert ps + (h.0 + Place(list[i + 1..], h.1).0) == (ps + h.0) + Place(list[i + 1..], h.1).0;
  }

  lemma PlacedAll(list: seq<Arg>, from: int, ps: seq<Param>, off: int)
    ensures Placed(list, from, 0, [], from)
    ensures Placed(list, from, |list|, ps, off) ==> Place(list, from) == (ps, off)
  {
    assert list[0..] == list && list[|list|..] == [];
    assert [] + Place(list, from).0 == Place(list, from).0 && ps + [] == ps;
  }

  /** The closure place: slots of `list` from offset off on. */
  method PlaceAll(list: seq<Arg>, from: int) returns (ps: seq<Param>, off: int)
    ensures (ps, off) == Place(list, from)
  {
    ps, off := [], from;
    PlacedAll(list, from, ps, off);
    hide Placed, Place, PlaceArg;
    for i := 0 to |list|
      invariant Placed(list, from, i, ps, off)
    {
      PlacedNext(list, from, i, ps, off);
      var slots, next := PlaceOne(list[i], off);
      ps, off := ps + slots, next;
    }
    PlacedAll(list, from, ps, off);
  }

  /** One argument, a scalar or an aggregate. */
  method PlaceOne(a: Arg, from: int) returns (ps: seq<Param>, off: int)
    ensures (ps, off) == PlaceArg(a, from)
  {
    hide PlaceFields, Align, WidestOf;
    if a.fields.Nil? {
      off := Align(from, a.ty.size);
      ps := [Param(a.name, a.ty, off)];
      off := off + a.ty.size;
    } else {
      var al := AggregateAlign(a.fields.fields);
      off := Align(from, al);
      var fieldOff;
      ps, fieldOff := PlaceEach(a.name, off, a.fields.fields);
      off := off + Align(fieldOff, al);
    }
  }

  ghost predicate FieldsPlaced(name: string, base: int, fields: seq<Field>, i: nat, ps: seq<Param>, at: int) {
    && i <= |fields|
    && PlaceFields(name, base, fields, 0) ==
       (ps + PlaceFields(name, base, fields[i..], at).0, PlaceFields(name, base, fields[i..], at).1)
  }

  lemma FieldPlacedNext(name: string, base: int, fields: seq<Field>, i: nat, ps: seq<Param>, at: int)
    requires i < |fields| && FieldsPlaced(name, base, fields, i, ps, at)
    ensures var o := Align(at, fields[i].ty.size);
      FieldsPlaced(name, base, fields, i + 1, ps + [Param(name + "_" + fields[i].name, fields[i].ty, base + o)], o + fields[i].ty.size)
  {
    var o := Align(at, fields[i].ty.size);
    var h := [Param(name + "_" + fields[i].name, fields[i].ty, base + o)];
    assert fields[i..][0] == fields[i] && fields[i..][1..] == fields[i + 1..];
    var rest := PlaceFields(name, base, fields[i + 1..], o + fields[i].ty.size);
    assert PlaceFields(name, base, fields[i..], at) == (h + rest.0, rest.1);
    assert ps + (h + rest.0) == (ps + h) + rest.0;
  }

  lemma FieldsPlacedAll(name: string, base: int, fields: seq<Field>, ps: seq<Param>, at: int)
    ensures FieldsPlaced(name, base, fields, 0, [], 0)
    ensures FieldsPlaced(name, base, fields, |fields|, ps, at) ==> PlaceFields(name, base, fields, 0) == (ps, at)
  {
    assert fields[0..] == fields && fields[|fields|..] == [];
    var all := PlaceFields(name, base, fields, 0).0;
    assert [] + all == all && ps + [] == ps;
  }

  method PlaceEach(name: string, base: int, fields: seq<Field>) returns (ps: seq<Param>, fieldOff: int)
    ensures (ps, fieldOff) == PlaceFields(name, base, fields, 0)
  {
    ps, fieldOff := [], 0;
    FieldsPlacedAll(name, base, fields, ps, fieldOff);
    hide FieldsPlaced, PlaceFields, Align;
    for i := 0 to |fields|
      invariant FieldsPlaced(name, base, fields, i, ps, fieldOff)
    {
      FieldPlacedNext(name, base, fields, i, ps, fieldOff);
      fieldOff := Align(fieldOff, fields[i].ty.size);
      ps := ps + [Param(name + "_" + fields[i].name, fields[i].ty, base + fieldOff)];
      fieldOff := fieldOff + fields[i].ty.size;
    }
    FieldsPlacedAll(name, base, fields, ps, fieldOff);
  }

  method LayoutArgs(args: seq<Arg>, rets: seq<Arg>) returns (sig: Signature)
    ensures sig == Layout(args, rets)
  {
    var a, off := PlaceAll(args, 0);
    off := Align(off, WORD_SIZE);
    var r, end := PlaceAll(rets, off);
    sig := Signature(a, r, end);
  }

  // ------------------------------------------------------------ what a layout keeps

  predicate IsScalarSize(n: nat) {
    n in {1, 2, 4, 8}
  }

  /** A scalar, or an aggregate whose field list is not nil, of scalar sizes. */
  predicate Sound(a: Arg) {
    match a.fields
    case Nil => IsScalarSize(a.ty.size)
    case List(fields) => forall i :: 0 <= i < |fields| ==> IsScalarSize(fields[i].ty.size)
  }

  predicate AllSound(args: seq<Arg>) {
    forall i :: 0 <= i < |args| ==> Sound(args[i])
  }

  predicate Aligned(p: Param) {
    p.ty.size > 0 && p.offset % p.ty.size == 0
  }

  /** The slots lie in [low, high), in order, apart and aligned. */
  predicate Ordered(ps: seq<Param>, low: int, high: int)
    decreases |ps|
  {
    if ps == [] then low <= high
    else Aligned(ps[0]) && low <= ps[0].offset && Ordered(ps[1..], ps[0].offset + ps[0].ty.size, high)
  }

  lemma {:induction false} OrderedConcat(ps: seq<Param>, qs: seq<Param>, low: int, mid: int, high: int)
    requires Ordered(ps, low, mid) && Ordered(qs, mid, high)
    ensures Ordered(ps + qs, low, high)
    decreases |ps|
  {
    if ps == [] {
      assert ps + qs == qs;
      OrderedFrom(qs, low, mid, high);
    } else {
      assert (ps + qs)[1..] == ps[1..] + qs;
      OrderedConcat(ps[1..], qs, ps[0].offset + ps[0].ty.size, mid, high);
    }
  }

  lemma {:induction false} OrderedFrom(ps: seq<Param>, low: int, mid: int, high: int)
    requires Ordered(ps, mid, high) && low <= mid
    ensures Ordered(ps, low, high)
  {
  }

  lemma {:induction false} OrderedTo(ps: seq<Param>, low: int, mid: int, high: int)
    requires Ordered(ps, low, mid) && mid <= high
    ensures Ordered(ps, low, high)
    decreases |ps|
  {
    if ps != [] {
      OrderedTo(ps[1..], ps[0].offset + ps[0].ty.size, mid, high);
    }
  }

  /** Slots in order are disjoint and inside. */
  lemma {:induction false} OrderedApart(ps: seq<Param>, low: int, high: int, i: int, j: int)
    requires Ordered(ps, low, high) && 0 <= i <= j < |ps|
    ensures low <= ps[i].offset && ps[j].offset + ps[j].ty.size <= high && Aligned(ps[i])
    ensures i < j ==> ps[i].offset + ps[i].ty.size <= ps[j].offset
    decreases |ps|
  {
    var next := ps[0].offset + ps[0].ty.size;
    if j == 0 {
      EndOf(ps[1..], next, high);
    } else if i == 0 {
      OrderedApart(ps[1..], next, high, j - 1, j - 1);
    } else {
      OrderedApart(ps[1..], next, high, i - 1, j - 1);
    }
  }

  lemma {:induction false} EndOf(ps: seq<Param>, low: int, high: int)
    requires Ordered(ps, low, high)
    ensures low <= high
    decreases |ps|
  {
    if ps != [] {
      EndOf(ps[1..], ps[0].offset + ps[0].ty.size, high);
    }
  }

  /** A scalar size divides every wider one. */
  lemma SizeDivides(base: int, o: int, size: nat, al: nat)
    requires IsScalarSize(size) && IsScalarSize(al) && size <= al && base % al == 0 && o % size == 0
    ensures (base + o) % size == 0
  {
    var r, q, p := al / size, base / al, o / size;
    assert al == size * r;
    assert base == al * q && o == size * p;
    MulRegroup(size, r, q);
    MulAdd(size, r * q, p);
    DivModUnique(size, 0, r * q + p);
  }

  lemma {:induction false} FieldsOrdered(name: string, base: int, fields: seq<Field>, at: int, al: nat)
    requires IsScalarSize(al) && base % al == 0
    requires forall i :: 0 <= i < |fields| ==> IsScalarSize(fields[i].ty.size) && fields[i].ty.size <= al
    ensures var p := PlaceFields(name, base, fields, at);
      at <= p.1 && Ordered(p.0, base + at, base + p.1) && |p.0| == |fields|
    decreases |fields|
  {
    if fields == [] {
    } else {
      var f := fields[0];
      var o := Align(at, f.ty.size);
      AlignIsLeast(at, f.ty.size);
      SizeDivides(base, o, f.ty.size, al);
      FieldsOrdered(name, base, fields[1..], o + f.ty.size, al);
      var rest := PlaceFields(name, base, fields[1..], o + f.ty.size);
      var p := PlaceFields(name, base, fields, at);
      assert p.0[1..] == rest.0;
    }
  }

  lemma ArgOrdered(a: Arg, off: int)
    requires Sound(a)
    ensures var p := PlaceArg(a, off); off <= p.1 && Ordered(p.0, off, p.1)
  {
    match a.fields
    case Nil =>
      AlignIsLeast(off, a.ty.size);
    case List(fields) =>
      FieldListOrdered(a.name, fields, off);
      hide Align, PlaceFields;
  }

  lemma WidestIsScalar(fields: seq<Field>)
    requires forall i :: 0 <= i < |fields| ==> IsScalarSize(fields[i].ty.size)
    ensures IsScalarSize(WidestOf(fields)) && WidestOf(fields) > 0
  {
  }

  lemma FieldListOrdered(name: string, fields: seq<Field>, off: int)
    requires forall i :: 0 <= i < |fields| ==> IsScalarSize(fields[i].ty.size)
    ensures var al := WidestOf(fields);
      var base := Align(off, al);
      var p := PlaceFields(name, base, fields, 0);
      off <= base + Align(p.1, al) && Ordered(p.0, off, base + Align(p.1, al))
  {
    hide Align, PlaceFields, Ordered, IsScalarSize, WidestOf;
    var al := WidestOf(fields);
    WidestIsScalar(fields);
    var base := Align(off, al);
    var p := PlaceFields(name, base, fields, 0);
    AlignIsLeast(off, al);
    FieldsOrdered(name, base, fields, 0, al);
    AlignIsLeast(p.1, al);
    OrderedFrom(p.0, off, base, base + p.1);
    OrderedTo(p.0, off, base + p.1, base + Align(p.1, al));
  }

  lemma {:induction false} PlaceOrdered(args: seq<Arg>, off: int)
    requires AllSound(args)
    ensures var p := Place(args, off); off <= p.1 && Ordered(p.0, off, p.1)
    decreases |args|
  {
    if args == [] {
    } else {
      ArgOrdered(args[0], off);
      var h := PlaceArg(args[0], off);
      PlaceOrdered(args[1..], h.1);
      OrderedConcat(h.0, Place(args[1..], h.1).0, off, h.1, Place(args[1..], h.1).1);
    }
  }

  /** Every slot is naturally aligned, they are apart and in order, arguments before results,
      inside the frame, and the results start on a word. */
  lemma LayoutOrdered(args: seq<Arg>, rets: seq<Arg>)
    requires AllSound(args) && AllSound(rets)
    ensures var sig := Layout(args, rets); Ordered(sig.args + sig.rets, 0, sig.argsSize)
    ensures var sig, results := Layout(args, rets), Align(Place(args, 0).1, WORD_SIZE);
      results % 8 == 0 && Ordered(sig.args, 0, results) && Ordered(sig.rets, results, sig.argsSize)
  {
    var a := Place(args, 0);
    PlaceOrdered(args, 0);
    AlignIsLeast(a.1, WORD_SIZE);
    PlaceOrdered(rets, Align(a.1, WORD_SIZE));
    OrderedTo(a.0, 0, a.1, Align(a.1, WORD_SIZE));
    OrderedConcat(a.0, Place(rets, Align(a.1, WORD_SIZE)).0, 0, Align(a.1, WORD_SIZE), Layout(args, rets).argsSize);
  }

  // ------------------------------------------------------------ Go's struct rules

  function AlignOf(a: Arg): nat {
    match a.fields
    case Nil => a.ty.size
    case List(fields) => WidestOf(fields)
  }

  /** Offsets for the fields of a struct: in order from `from` on, each a multiple of its
      field's size, none over another, the last field ending by `end`. */
  ghost predicate LegalFields(fields: seq<Field>, offs: seq<int>, from: int, end: int)
    decreases |fields|
  {
    |offs| == |fields| &&
    (if fields == [] then from <= end
     else
       var size := fields[0].ty.size;
       from <= offs[0] && size > 0 && offs[0] % size == 0 && LegalFields(fields[1..], offs[1..], offs[0] + size, end))
  }

  /** Where an argument may go: its base, the offsets of its fields, and its size. */
  datatype Spot = Spot(base: int, offs: seq<int>, size: int)

  /** A scalar at a multiple of its size; a struct at a multiple of its widest field, its own
      size a multiple of that too. */
  ghost predicate LegalSpot(a: Arg, s: Spot) {
    && AlignOf(a) > 0 && s.base % AlignOf(a) == 0
    && match a.fields
       case Nil => s.offs == [] && s.size == a.ty.size
       case List(fields) => LegalFields(fields, s.offs, 0, s.size) && s.size % WidestOf(fields) == 0
  }

  /** Arguments in order from off on, none over another, the last ending by `end`. */
  ghost predicate LegalList(args: seq<Arg>, spots: seq<Spot>, off: int, end: int)
    decreases |args|
  {
    |spots| == |args| &&
    (if args == [] then off <= end
     else off <= spots[0].base && LegalSpot(args[0], spots[0]) && LegalList(args[1..], spots[1..], spots[0].base + spots[0].size, end))
  }

  /** A frame: the arguments, then the results from a word boundary on. */
  ghost predicate LegalFrame(args: seq<Arg>, rets: seq<Arg>, a: seq<Spot>, r: seq<Spot>, word: int, end: int) {
    LegalList(args, a, 0, word) && word % 8 == 0 && LegalList(rets, r, word, end)
  }

  function FieldSlots(name: string, base: int, fields: seq<Field>, offs: seq<int>): (ps: seq<Param>)
    requires |offs| == |fields|
    ensures |ps| == |fields|
  {
    seq(|fields|, i requires 0 <= i < |fields| => Param(name + "_" + fields[i].name, fields[i].ty, base + offs[i]))
  }

  /** The slots of an argument put at a spot: none when the spot is another struct's. */
  function ArgSlots(a: Arg, s: Spot): seq<Param> {
    match a.fields
    case Nil => [Param(a.name, a.ty, s.base)]
    case List(fields) => if |s.offs| == |fields| then FieldSlots(a.name, s.base, fields, s.offs) else []
  }

  /** The flattened slots of arguments put at spots. */
  function Slots(args: seq<Arg>, spots: seq<Spot>): seq<Param>
    requires |spots| == |args|
  {
    if args == [] then [] else ArgSlots(args[0], spots[0]) + Slots(args[1..], spots[1..])
  }

  // ------------------------------------------------------------ the computed layout obeys them

  /** The offsets the computed layout gives the fields, and the end of the last. */
  function FieldOffsets(fields: seq<Field>, at: int): (r: (seq<int>, int))
    ensures |r.0| == |fields|
  {
    if fields == [] then ([], at)
    else
      var o := Align(at, fields[0].ty.size);
      var rest := FieldOffsets(fields[1..], o + fields[0].ty.size);
      ([o] + rest.0, rest.1)
  }

  lemma {:induction false} FieldsPlacedAt(name: string, base: int, fields: seq<Field>, at: int)
    ensures var r := FieldOffsets(fields, at); PlaceFields(name, base, fields, at) == (FieldSlots(name, base, fields, r.0), r.1)
    decreases |fields|
  {
    hide Align;
    if fields != [] {
      var o := Align(at, fields[0].ty.size);
        FieldsPlacedAt(name, base, fields[1..], o + fields[0].ty.size);
      var r, rest := FieldOffsets(fields, at), FieldOffsets(fields[1..], o + fields[0].ty.size);
      assert FieldSlots(name, base, fields, r.0) ==
             [Param(name + "_" + fields[0].name, fields[0].ty, base + o)] + FieldSlots(name, base, fields[1..], rest.0);
    }
  }

  lemma {:induction false} FieldsLegal(fields: seq<Field>, at: int, end: int)
    requires forall i :: 0 <= i < |fields| ==> IsScalarSize(fields[i].ty.size)
    requires FieldOffsets(fields, at).1 <= end
    ensures LegalFields(fields, FieldOffsets(fields, at).0, at, end)
    decreases |fields|
  {
    if fields != [] {
      var size := fields[0].ty.size;
      assert IsScalarSize(size);
      AlignIsLeast(at, size);
      hide Align, IsScalarSize;
      FieldsLegal(fields[1..], Align(at, size) + size, end);
      assert FieldOffsets(fields, at).0[1..] == FieldOffsets(fields[1..], Align(at, size) + size).0;
    }
  }

  /** Where the computed layout puts an argument. */
  function ChosenSpot(a: Arg, off: int): Spot {
    match a.fields
    case Nil => Spot(Align(off, a.ty.size), [], a.ty.size)
    case List(fields) =>
      var r := FieldOffsets(fields, 0);
      Spot(Align(off, WidestOf(fields)), r.0, Align(r.1, WidestOf(fields)))
  }

  lemma ArgChosen(a: Arg, off: int)
    requires Sound(a)
    ensures var s := ChosenSpot(a, off);
      off <= s.base && LegalSpot(a, s) && PlaceArg(a, off) == (ArgSlots(a, s), s.base + s.size)
  {
    hide Align, PlaceFields, FieldOffsets, FieldSlots;
    match a.fields
    case Nil =>
      AlignIsLeast(off, a.ty.size);
    case List(fields) =>
      var w, r := WidestOf(fields), FieldOffsets(fields, 0);
      assert forall i :: 0 <= i < |fields| ==> IsScalarSize(fields[i].ty.size);
        AlignIsLeast(off, w);
      AlignIsLeast(r.1, w);
      FieldsLegal(fields, 0, Align(r.1, w));
      FieldsPlacedAt(a.name, Align(off, w), fields, 0);
  }

  /** The spots of the computed layout. */
  function Chosen(args: seq<Arg>, off: int): (spots: seq<Spot>)
    ensures |spots| == |args|
  {
    if args == [] then []
    else
      var s := ChosenSpot(args[0], off);
      [s] + Chosen(args[1..], s.base + s.size)
  }

  lemma ChosenRest(args: seq<Arg>, off: int)
    requires args != []
    ensures var s := ChosenSpot(args[0], off); Chosen(args, off) == [s] + Chosen(args[1..], s.base + s.size)
  {
    hide ChosenSpot;
  }

  /** One argument of a list, computed and legal, and the rest. */
  lemma PlaceStep(args: seq<Arg>, off: int)
    requires AllSound(args) && args != []
    ensures var s := ChosenSpot(args[0], off);
      var next := s.base + s.size;
      && AllSound(args[1..]) && off <= s.base && LegalSpot(args[0], s)
      && Place(args, off) == (ArgSlots(args[0], s) + Place(args[1..], next).0, Place(args[1..], next).1)
  {
    hide ChosenSpot, PlaceArg, ArgSlots, LegalSpot, Sound;
    assert Sound(args[0]);
    ArgChosen(args[0], off);
  }

  lemma ListStep(args: seq<Arg>, spots: seq<Spot>, s: Spot, rest: seq<Spot>, off: int, end: int)
    requires args != [] && spots == [s] + rest && off <= s.base && LegalSpot(args[0], s)
    requires LegalList(args[1..], rest, s.base + s.size, end)
    ensures LegalList(args, spots, off, end) && |spots| == |args| && |rest| == |args[1..]|
    ensures Slots(args, spots) == ArgSlots(args[0], s) + Slots(args[1..], rest)
  {
    assert spots[1..] == rest;
    hide LegalSpot, ArgSlots;
  }

  /** The computed slots are those of a legal list. */
  lemma {:induction false} PlaceIsLegal(args: seq<Arg>, off: int)
    requires AllSound(args)
    ensures LegalList(args, Chosen(args, off), off, Place(args, off).1)
    ensures Place(args, off).0 == Slots(args, Chosen(args, off))
    decreases |args|
  {
    hide *;
    if args != [] {
      var s := ChosenSpot(args[0], off);
      PlaceStep(args, off);
      PlaceIsLegal(args[1..], s.base + s.size);
      ChosenRest(args, off);
      ListStep(args, Chosen(args, off), s, Chosen(args[1..], s.base + s.size), off, Place(args, off).1);
    } else {
      assert args == [];
      PlaceNothing(off);
    }
  }

  lemma PlaceNothing(off: int)
    ensures LegalList([], Chosen([], off), off, Place([], off).1) && Place([], off).0 == Slots([], Chosen([], off))
  {
  }

  /** The frame obeys Go's struct rules: it is the flattening of a legal one. */
  lemma LayoutIsLegal(args: seq<Arg>, rets: seq<Arg>)
    requires AllSound(args) && AllSound(rets)
    ensures var word := Align(Place(args, 0).1, WORD_SIZE);
      var a, r, sig := Chosen(args, 0), Chosen(rets, word), Layout(args, rets);
      && LegalFrame(args, rets, a, r, word, sig.argsSize)
      && sig.args == Slots(args, a) && sig.rets == Slots(rets, r)
  {
    var end := Place(args, 0).1;
    hide Align, Chosen, Place, Slots, AllSound, LegalList;
    AlignIsLeast(end, WORD_SIZE);
    PlaceIsLegal(args, 0);
    PlaceIsLegal(rets, Align(end, WORD_SIZE));
    LegalListTo(args, Chosen(args, 0), 0, end, Align(end, WORD_SIZE));
  }

  lemma {:induction false} LegalListTo(args: seq<Arg>, spots: seq<Spot>, off: int, end: int, further: int)
    requires LegalList(args, spots, off, end) && end <= further
    ensures LegalList(args, spots, off, further)
    decreases |args|
  {
    if args != [] {
      hide LegalSpot;
      LegalListTo(args[1..], spots[1..], spots[0].base + spots[0].size, end, further);
    }
  }

  // ------------------------------------------------------------ and no legal layout is lower

  lemma AlignIsMonotone(at: int, o: int, to: nat)
    requires to > 0 && at <= o && o % to == 0
    ensures Align(at, to) <= o
  {
    AlignIsLeast(at, to);
    hide Align;
  }

  /** Offset by offset, and in their end, the computed field offsets are the least. */
  lemma {:induction false} FieldsLeast(fields: seq<Field>, at: int, offs: seq<int>, from: int, end: int)
    requires at <= from && LegalFields(fields, offs, from, end)
    ensures var r := FieldOffsets(fields, at); r.1 <= end && forall i :: 0 <= i < |fields| ==> r.0[i] <= offs[i]
    decreases |fields|
  {
    if fields != [] {
      var size := fields[0].ty.size;
      AlignIsMonotone(at, offs[0], size);
      hide Align;
      var next := Align(at, size) + size;
      FieldsLeast(fields[1..], next, offs[1..], offs[0] + size, end);
      var r, rest := FieldOffsets(fields, at), FieldOffsets(fields[1..], next);
      assert r == ([Align(at, size)] + rest.0, rest.1);
      hide LegalFields, FieldOffsets;
      forall i | 0 <= i < |fields| ensures r.0[i] <= offs[i] {
        assert i > 0 ==> r.0[i] == rest.0[i - 1] && offs[i] == offs[1..][i - 1];
      }
    }
  }

  /** The same slots, none of ps behind its counterpart of qs. */
  ghost predicate NoHigher(ps: seq<Param>, qs: seq<Param>) {
    |ps| == |qs| && forall i :: 0 <= i < |ps| ==> ps[i].name == qs[i].name && ps[i].ty == qs[i].ty && ps[i].offset <= qs[i].offset
  }

  lemma NoHigherConcat(ps: seq<Param>, qs: seq<Param>, us: seq<Param>, vs: seq<Param>)
    requires NoHigher(ps, qs) && NoHigher(us, vs)
    ensures NoHigher(ps + us, qs + vs)
  {
  }

  lemma ArgLeast(a: Arg, off: int, s: Spot, from: int)
    requires Sound(a) && off <= from <= s.base && LegalSpot(a, s)
    ensures NoHigher(PlaceArg(a, off).0, ArgSlots(a, s)) && PlaceArg(a, off).1 <= s.base + s.size
  {
    ArgChosen(a, off);
    AlignIsMonotone(off, s.base, AlignOf(a));
    if a.fields.List? {
      var fields := a.fields.fields;
      FieldsLeast(fields, 0, s.offs, 0, s.size);
      AlignIsMonotone(FieldOffsets(fields, 0).1, s.size, WidestOf(fields));
      hide FieldOffsets, LegalFields, LegalSpot, PlaceArg, Align;
    }
  }

  lemma {:induction false} PlaceIsLeast(args: seq<Arg>, off: int, spots: seq<Spot>, from: int, end: int)
    requires AllSound(args) && off <= from && LegalList(args, spots, from, end)
    ensures NoHigher(Place(args, off).0, Slots(args, spots)) && Place(args, off).1 <= end
    decreases |args|
  {
    if args != [] {
      hide Sound, PlaceArg, ArgSlots, LegalSpot, NoHigher;
      assert Sound(args[0]);
      ArgLeast(args[0], off, spots[0], from);
      var h := PlaceArg(args[0], off);
      PlaceIsLeast(args[1..], h.1, spots[1..], spots[0].base + spots[0].size, end);
      NoHigherConcat(h.0, ArgSlots(args[0], spots[0]), Place(args[1..], h.1).0, Slots(args[1..], spots[1..]));
    }
  }

  /** No frame that obeys Go's struct rules puts any slot, a field's included, lower than the
      computed one, or ends lower. */
  lemma LayoutIsLeast(args: seq<Arg>, rets: seq<Arg>, a: seq<Spot>, r: seq<Spot>, word: int, end: int)
    requires AllSound(args) && AllSound(rets) && LegalFrame(args, rets, a, r, word, end)
    ensures NoHigher(Layout(args, rets).args, Slots(args, a)) && NoHigher(Layout(args, rets).rets, Slots(rets, r))
    ensures Layout(args, rets).argsSize <= end
  {
    PlaceIsLeast(args, 0, a, 0, word);
    AlignIsMonotone(Place(args, 0).1, word, WORD_SIZE);
    PlaceIsLeast(rets, Align(Place(args, 0).1, WORD_SIZE), r, word, end);
    hide Align, Slots, Place, NoHigher, LegalList;
  }

  // ------------------------------------------------------------ arguments of eight bytes

  predicate AllEight(args: seq<Arg>) {
    forall i :: 0 <= i < |args| ==> args[i].fields.Nil? && args[i].ty.size == 8
  }

  /** When every argument is eight bytes wide, argument i is at 8·i. */
  lemma {:induction false} EightByEight(args: seq<Arg>, k: nat)
    requires AllEight(args)
    ensures var p := Place(args, 8 * k);
      |p.0| == |args| && p.1 == 8 * (k + |args|)
      && forall i :: 0 <= i < |args| ==> p.0[i].offset == 8 * (k + i) && p.0[i].name == args[i].name
    decreases |args|
  {
    if args == [] {
    } else {
      AlignedAlready(k);
      hide Align;
      EightByEight(args[1..], k + 1);
      var p, rest := Place(args, 8 * k), Place(args[1..], 8 * (k + 1));
      assert p.0 == [Param(args[0].name, args[0].ty, 8 * k)] + rest.0;
    }
  }

  lemma AlignedAlready(k: nat)
    ensures Align(8 * k, 8) == 8 * k
  {
  }

  // ------------------------------------------------------------ structs without fields

  /** A struct declared without fields is a scalar of size 0, whose alignment takes the offset
      back to 0: the next argument then lies over the one before. */
  lemma EmptyStructOverlaps(t: Type)
    requires t.size == 8
    ensures var ps := Place([Scalar("a", t), Struct("s", []), Scalar("b", t)], 0).0;
      |ps| == 3 && ps[0].offset == 0 && ps[2].offset == 0
  {
    var a, s, b := Scalar("a", t), Struct("s", []), Scalar("b", t);
    var args := [a, s, b];
    assert args[1..] == [s, b] && [s, b][1..] == [b] && [b][1..] == [];
    assert PlaceArg(a, 0) == ([Param("a", t, 0)], 8);
    assert PlaceArg(s, 8) == ([Param("s", Type(0, false, false), 0)], 0);
    assert PlaceArg(b, 0) == ([Param("b", t, 0)], 8);
    assert Place([b], 0).0 == [Param("b", t, 0)];
    assert Place([s, b], 8).0 == [Param("s", Type(0, false, false), 0)] + Place([b], 0).0;
  }

  /** Exactly then does an argument move the offset back: arguments never do when every
      scalar has a size. */
  lemma NeverBack(a: Arg, off: int)
    requires off > 0 && (a.fields.List? ==> Sound(a))
    ensures PlaceArg(a, off).1 < off <==> a.fields.Nil? && a.ty.size == 0
  {
    match a.fields
    case Nil =>
      if a.ty.size > 0 {
        AlignIsLeast(off, a.ty.size);
      }
    case List(fields) =>
      ArgOrdered(a, off);
  }

  /** Every slot starts where the one before it ends, or later. */
  predicate InOrder(ps: seq<Param>, low: int)
    decreases |ps|
  {
    ps != [] ==> low <= ps[0].offset && InOrder(ps[1..], ps[0].offset + ps[0].ty.size)
  }

  predicate IsEmpty(a: Arg) {
    a.fields.Nil? && a.ty.size == 0
  }

  /** Something before an empty scalar takes room: the offset it starts from, or an argument. */
  ghost predicate EmptyAfter(args: seq<Arg>, off: int) {
    exists j :: 0 <= j < |args| && IsEmpty(args[j]) && TakesRoom(args[..j], off)
  }

  ghost predicate TakesRoom(args: seq<Arg>, off: int) {
    off > 0 || exists i :: 0 <= i < |args| && HasSlots(args[i])
  }

  /** The argument has a slot that takes room. */
  predicate HasSlots(a: Arg) {
    match a.fields
    case Nil => a.ty.size > 0
    case List(fields) => fields != []
  }

  /** Scalars of no size are allowed too. */
  predicate AllAllowed(args: seq<Arg>) {
    forall i :: 0 <= i < |args| ==> IsEmpty(args[i]) || Sound(args[i])
  }

  /** The end of the last slot. */
  function LastEnd(ps: seq<Param>, low: int): int
    decreases |ps|
  {
    if ps == [] then low else LastEnd(ps[1..], ps[0].offset + ps[0].ty.size)
  }

  lemma {:induction false} InOrderConcat(ps: seq<Param>, qs: seq<Param>, low: int)
    ensures InOrder(ps + qs, low) <==> InOrder(ps, low) && InOrder(qs, LastEnd(ps, low))
    ensures LastEnd(ps + qs, low) == LastEnd(qs, LastEnd(ps, low))
    decreases |ps|
  {
    if ps == [] {
      assert ps + qs == qs;
    } else {
      assert (ps + qs)[1..] == ps[1..] + qs;
      InOrderConcat(ps[1..], qs, ps[0].offset + ps[0].ty.size);
    }
  }

  lemma {:induction false} OrderedInOrder(ps: seq<Param>, low: int, from: int, end: int)
    requires Ordered(ps, from, end) && 0 <= low <= from
    ensures InOrder(ps, low) && LastEnd(ps, low) <= end && (ps == [] ==> LastEnd(ps, low) == low) && (ps != [] ==> LastEnd(ps, low) > 0)
    decreases |ps|
  {
    if ps != [] {
      var next := ps[0].offset + ps[0].ty.size;
      OrderedInOrder(ps[1..], next, next, end);
    }
  }

  /** What one argument that is not empty does to the order. */
  lemma ArgInOrder(a: Arg, off: int, low: int)
    requires Sound(a) && 0 <= low <= off && (off > 0 ==> low > 0)
    ensures var p := PlaceArg(a, off);
      && InOrder(p.0, low) && 0 <= LastEnd(p.0, low) <= p.1 && (p.1 > 0 ==> LastEnd(p.0, low) > 0)
      && (p.1 > 0 <==> off > 0 || HasSlots(a))
  {
    var p := PlaceArg(a, off);
    ArgOrdered(a, off);
    OrderedInOrder(p.0, low, off, p.1);
    if a.fields.List? && a.fields.fields == [] {
      assert WidestOf([]) == 1 && Align(off, 1) == off && Align(0, 1) == 0;
    } else {
      assert HasSlots(a) && p.0 != [];
    }
    hide Ordered, InOrder, LastEnd;
  }

  /** Past its first argument, a list has an empty scalar after something that takes room just
      when its rest does. */
  lemma EmptyAfterRest(args: seq<Arg>, off: int, next: int)
    requires args != [] && (IsEmpty(args[0]) ==> off <= 0) && (next > 0 <==> off > 0 || HasSlots(args[0]))
    ensures EmptyAfter(args, off) <==> EmptyAfter(args[1..], next)
    ensures TakesRoom(args, off) <==> TakesRoom(args[1..], next)
  {
    hide IsEmpty, HasSlots;
    RoomOfRest(args, off, next);
    forall j | 1 <= j < |args| ensures TakesRoom(args[..j], off) <==> TakesRoom(args[1..][..j - 1], next) {
      assert args[..j][1..] == args[1..][..j - 1] && args[..j][0] == args[0];
      RoomOfRest(args[..j], off, next);
    }
    hide TakesRoom;
    NoRoom(off);
    assert args[..0] == [];
    if j :| 0 <= j < |args| && IsEmpty(args[j]) && TakesRoom(args[..j], off) {
      assert j > 0;
      assert args[1..][j - 1] == args[j];
    }
    if j :| 0 <= j < |args[1..]| && IsEmpty(args[1..][j]) && TakesRoom(args[1..][..j], next) {
      assert args[j + 1] == args[1..][j];
    }
  }

  lemma NoRoom(off: int)
    ensures TakesRoom([], off) <==> off > 0
  {
  }

  lemma RoomOfRest(args: seq<Arg>, off: int, next: int)
    requires args != [] && (next > 0 <==> off > 0 || HasSlots(args[0]))
    ensures TakesRoom(args, off) <==> TakesRoom(args[1..], next)
  {
    hide HasSlots;
    if i :| 0 <= i < |args| && HasSlots(args[i]) {
      assert i > 0 ==> args[1..][i - 1] == args[i];
    }
    if i :| 0 <= i < |args[1..]| && HasSlots(args[1..][i]) {
      assert args[i + 1] == args[1..][i];
    }
  }

  /** From offset off on, the computed slots are in order if and only if no scalar of no size
      comes after something that takes room. */
  lemma {:induction false} PlaceInOrder(args: seq<Arg>, off: int, low: int)
    requires AllAllowed(args) && 0 <= low <= off && (off > 0 ==> low > 0)
    ensures var p := Place(args, off);
      && (InOrder(p.0, low) <==> !EmptyAfter(args, off))
      && (!EmptyAfter(args, off) ==>
            0 <= LastEnd(p.0, low) <= p.1 && (p.1 > 0 ==> LastEnd(p.0, low) > 0) && (p.1 > 0 <==> TakesRoom(args, off)))
    decreases |args|
  {
    hide EmptyAfter, TakesRoom, PlaceArg, HasSlots, AllAllowed;
    if args == [] {
      NothingEmpty(off);
    } else {
      FirstAllowed(args);
      var h := PlaceArg(args[0], off);
      if IsEmpty(args[0]) {
        EmptySlot(args, off);
        if off == 0 {
          PlaceInOrder(args[1..], 0, 0);
          EmptyAfterRest(args, off, 0);
        }
      } else {
        ArgInOrder(args[0], off, low);
        InOrderConcat(h.0, Place(args[1..], h.1).0, low);
        PlaceInOrder(args[1..], h.1, LastEnd(h.0, low));
        EmptyAfterRest(args, off, h.1);
      }
    }
  }

  lemma NothingEmpty(off: int)
    ensures !EmptyAfter([], off) && (TakesRoom([], off) <==> off > 0)
  {
  }

  lemma FirstAllowed(args: seq<Arg>)
    requires AllAllowed(args) && args != []
    ensures (IsEmpty(args[0]) || Sound(args[0])) && AllAllowed(args[1..])
  {
  }

  /** A scalar of no size goes to offset 0, and so does what comes after it. */
  lemma EmptySlot(args: seq<Arg>, off: int)
    requires args != [] && IsEmpty(args[0])
    ensures var p, rest := Place(args, off), Place(args[1..], 0);
      !HasSlots(args[0]) && p.1 == rest.1 && p.0 != [] && p.0[0].offset == 0 && p.0[0].ty.size == 0 && p.0[1..] == rest.0
    ensures off > 0 ==> EmptyAfter(args, off)
  {
    if off > 0 {
      assert TakesRoom(args[..0], off);
    }
  }

  /** The slots of a frame are in order if and only if no scalar of no size, argument or result,
      comes after something that takes room. */
  lemma LayoutInOrder(args: seq<Arg>, rets: seq<Arg>)
    requires AllAllowed(args) && AllAllowed(rets)
    ensures InOrder(Layout(args, rets).args + Layout(args, rets).rets, 0) <==> !EmptyAfter(args + rets, 0)
  {
    var a := Place(args, 0);
    var word := Align(a.1, WORD_SIZE);
    AlignIsLeast(a.1, WORD_SIZE);
    hide Align, Place, InOrder, EmptyAfter, AllAllowed, LastEnd, TakesRoom;
    PlaceInOrder(args, 0, 0);
    InOrderConcat(a.0, Place(rets, word).0, 0);
    if EmptyAfter(args, 0) {
      EmptyInFirst(args, rets, 0);
    } else {
      PlaceInOrder(rets, word, LastEnd(a.0, 0));
      EmptyInSecond(args, rets, word);
    }
  }

  lemma EmptyInFirst(args: seq<Arg>, rets: seq<Arg>, off: int)
    requires EmptyAfter(args, off)
    ensures EmptyAfter(args + rets, off)
  {
    var j :| 0 <= j < |args| && IsEmpty(args[j]) && TakesRoom(args[..j], off);
    assert (args + rets)[j] == args[j] && (args + rets)[..j] == args[..j];
    hide IsEmpty, TakesRoom;
  }

  lemma {:induction false} EmptyInSecond(args: seq<Arg>, rets: seq<Arg>, next: int)
    requires !EmptyAfter(args, 0) && (next > 0 <==> TakesRoom(args, 0))
    ensures EmptyAfter(args + rets, 0) <==> EmptyAfter(rets, next)
  {
    hide IsEmpty, HasSlots;
    forall j | 0 <= j < |rets| ensures TakesRoom((args + rets)[..|args| + j], 0) <==> TakesRoom(rets[..j], next) {
      assert (args + rets)[..|args| + j] == args + rets[..j];
      RoomOfBoth(args, rets[..j], next);
    }
    forall j | 0 <= j < |args| ensures (args + rets)[j] == args[j] && (args + rets)[..j] == args[..j] {
    }
    hide TakesRoom;
    if j :| 0 <= j < |args + rets| && IsEmpty((args + rets)[j]) && TakesRoom((args + rets)[..j], 0) {
      assert j >= |args|;
      assert rets[j - |args|] == (args + rets)[|args| + (j - |args|)];
    }
    if j :| 0 <= j < |rets| && IsEmpty(rets[j]) && TakesRoom(rets[..j], next) {
      assert (args + rets)[|args| + j] == rets[j];
    }
  }

  lemma RoomOfBoth(args: seq<Arg>, rest: seq<Arg>, next: int)
    requires next > 0 <==> TakesRoom(args, 0)
    ensures TakesRoom(args + rest, 0) <==> TakesRoom(rest, next)
  {
    hide HasSlots;
    if i :| 0 <= i < |args| && HasSlots(args[i]) {
      assert (args + rest)[i] == args[i];
    }
    if i :| 0 <= i < |rest| && HasSlots(rest[i]) {
      assert (args + rest)[|args| + i] == rest[i];
    }
    if i :| 0 <= i < |args + rest| && HasSlots((args + rest)[i]) {
      assert (args + rest)[i] == if i < |args| then args[i] else rest[i - |args|];
    }
  }
}
