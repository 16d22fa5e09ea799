/** Strided calls over several blocks: each block is a call of its own, with its own slices and its
    own table, so a cascade of blocks computes each block's own pass. */
module StridedBlocks {
  import opened Modular
  import opened PassWalk
  import opened Strided

  /** The strides of a call on one block alone. */
  function Alone(s: Strides, kept: bool): Strides {
    Strides(s.r, s.cnt, 1, s.sin, s.sout, 0, 0, 0, kept, kept)
  }

  lemma AlonePlaces(s: Strides, kept: bool, b: int, i: int, j: int)
    ensures From(s, b, i, j) == b * s.bin + From(Alone(s, kept), 0, i, j)
    ensures To(s, b, i, j) == b * s.bout + To(Alone(s, kept), 0, i, j)
    ensures TwiddleAt(s, b, i, j) == b * s.bt + TwiddleAt(Alone(s, kept), 0, i, j)
  {
  }

  /** A block of a call fits on its own. */
  lemma AloneFits(s: Strides, kept: bool, cc: int, from: int, ch: int, to: int, tw: int, at: int, b: int)
    requires Fits(s, cc, from, ch, to, tw, at) && 0 <= b < s.nb
    ensures Fits(Alone(s, kept), cc, from + b * s.bin, ch, to + b * s.bout, tw, at + b * s.bt)
  {
    var o := Alone(s, kept);
    hide From, To, TwiddleAt;
    forall c, i, j | IsOutput(o, c, i, j) ensures InsideAll(o, cc, from + b * s.bin, ch, to + b * s.bout, tw, at + b * s.bt, c, i, j) {
      assert IsOutput(s, b, i, j);
      assert InsideAll(s, cc, from, ch, to, tw, at, b, i, j);
      AlonePlaces(s, kept, b, i, j);
    }
    forall c, i, j, c', i', j' | IsOutput(o, c, i, j) && IsOutput(o, c', i', j') && To(o, c, i, j) == To(o, c', i', j')
      ensures c == c' && i == i' && j == j'
    {
      assert IsOutput(s, b, i, j) && IsOutput(s, b, i', j');
      AlonePlaces(s, kept, b, i, j);
      AlonePlaces(s, kept, b, i', j');
    }
  }

  /** Output j of point i of block b is that of a one-block call whose slices start b block strides
      on and whose table starts b table strides on; its first point is kept as bf says for block 0
      and as br says for the others. */
  lemma BlockIsCall<C>(body: Body<C>, cc: seq<C>, from: int, ch: int, to: int, tw: seq<C>, at: int, s: Strides, b: int, i: int, j: int)
    requires Fits(s, |cc|, from, ch, to, |tw|, at) && IsOutput(s, b, i, j)
    ensures var o := Alone(s, if b == 0 then s.bf else s.br);
      && Fits(o, |cc|, from + b * s.bin, ch, to + b * s.bout, |tw|, at + b * s.bt) && IsOutput(o, 0, i, j)
      && to + To(s, b, i, j) == (to + b * s.bout) + To(o, 0, i, j)
      && Value(body, cc, from, ch, to, tw, at, s, b, i, j) ==
         Value(body, cc, from + b * s.bin, ch, to + b * s.bout, tw, at + b * s.bt, o, 0, i, j)
  {
    var kept := if b == 0 then s.bf else s.br;
    var o := Alone(s, kept);
    AloneFits(s, kept, |cc|, from, ch, to, |tw|, at, b);
    AlonePlaces(s, kept, b, i, j);
    InputsInside(s, |cc|, from, ch, to, |tw|, at, b, i);
    InputsInside(o, |cc|, from + b * s.bin, ch, to + b * s.bout, |tw|, at + b * s.bt, 0, i);
    hide Fits, To, TwiddleAt;
    forall t | 0 <= t < s.r ensures Inputs(cc, from, s, b, i)[t] == Inputs(cc, from + b * s.bin, o, 0, i)[t] {
      AlonePlaces(s, kept, b, i, t);
    }
    assert Inputs(cc, from, s, b, i) == Inputs(cc, from + b * s.bin, o, 0, i);
    hide Inputs, From;
  }

  // ------------------------------------------------------------ a cascade of passes

  /** nb passes of r·ido points each, block b of them from cell b·bin, to cell b·bout, with the table
      from cell b·bt. */
  function Cascade(r: int, ido: int, nb: int, bin: int, bout: int, bt: int): Strides {
    Strides(r, ido, nb, ido, ido, bin, bout, bt, true, true)
  }

  /** The passes' slices lie in their arrays, those of the output apart. */
  ghost predicate CascadeFits(r: int, ido: int, nb: int, bin: int, bout: int, bt: int, cc: int, from: int, ch: int, to: int, tw: int, at: int) {
    && r in {4, 8} && ido > 0 && ido % 4 == 0 && nb >= 0 && bout >= r * ido
    && forall b :: 0 <= b < nb ==> SliceFits(r, ido, b, bin, bout, bt, cc, from, ch, to, tw, at)
  }

  ghost predicate SliceFits(r: int, ido: int, b: int, bin: int, bout: int, bt: int, cc: int, from: int, ch: int, to: int, tw: int, at: int) {
    && 0 <= from + b * bin && from + b * bin + r * ido <= cc && 0 <= to + b * bout && to + b * bout + r * ido <= ch
    && 0 <= at + b * bt && at + b * bt + (r - 1) * ido <= tw
  }

  /** Inside a block, the places are those of a one-block pass. */
  lemma CascadePlaces(r: int, ido: int, i: int, j: int)
    requires r in {4, 8} && ido > 0 && ido % 4 == 0 && 0 <= i < ido && 0 <= j < r
    ensures 0 <= i + j * ido < r * ido && i + j * ido == InputCell(r, ido, i, 0, j) == Cell(ido, 1, i, 0, j)
    ensures j > 0 ==> (r - 1) * (i - i % 4) + 4 * (j - 1) + i % 4 == TwiddleIndex(ido, r, i, j) && 0 <= TwiddleIndex(ido, r, i, j) < (r - 1) * ido
  {
    InputInRange(r, ido, 1, i, 0, j);
    if j > 0 {
      TwiddleInTable(ido, r, i, j);
      assert GroupStart(ido, i) == i - i % 4 && GroupSize(ido, i) == 4;
    }
  }

  lemma CascadeInside(r: int, ido: int, nb: int, bin: int, bout: int, bt: int, cc: int, from: int, ch: int, to: int, tw: int, at: int)
    requires CascadeFits(r, ido, nb, bin, bout, bt, cc, from, ch, to, tw, at)
    ensures Fits(Cascade(r, ido, nb, bin, bout, bt), cc, from, ch, to, tw, at)
  {
    var s := Cascade(r, ido, nb, bin, bout, bt);
    forall b, i, j | IsOutput(s, b, i, j) ensures InsideAll(s, cc, from, ch, to, tw, at, b, i, j) {
      assert SliceFits(r, ido, b, bin, bout, bt, cc, from, ch, to, tw, at);
      CascadePlaces(r, ido, i, j);
      hide TwiddleIndex;
    }
    forall b, i, j, b', i', j' | IsOutput(s, b, i, j) && IsOutput(s, b', i', j') && To(s, b, i, j) == To(s, b', i', j')
      ensures b == b' && i == i' && j == j'
    {
      ApartBlocks(r, ido, bout, b, i, j, b', i', j');
    }
  }

  /** A number has one quotient and one remainder. */
  lemma OnePlace(n: int, q: int, x: int, q': int, x': int)
    requires 0 <= x < n && 0 <= x' < n && q * n + x == q' * n + x'
    ensures q == q' && x == x'
  {
    DivModUnique(n, x, q);
    DivModUnique(n, x', q');
  }

  lemma ApartBlocks(r: int, ido: int, bout: int, b: int, i: int, j: int, b': int, i': int, j': int)
    requires r in {4, 8} && ido > 0 && ido % 4 == 0 && bout >= r * ido && 0 <= i < ido && 0 <= j < r && 0 <= i' < ido && 0 <= j' < r
    requires b * bout + i + j * ido == b' * bout + i' + j' * ido
    ensures b == b' && i == i' && j == j'
  {
    CellInside(r, ido, i, j);
    CellInside(r, ido, i', j');
    OnePlace(bout, b, i + j * ido, b', i' + j' * ido);
    OnePlace(ido, j, i, j', i');
  }

  lemma CellInside(r: int, ido: int, i: int, j: int)
    requires 0 <= i < ido && 0 <= j < r
    ensures 0 <= i + j * ido < r * ido
  {
    CellBounds(ido, r, i, j);
  }

  /** What block b's pass makes of its slice. */
  ghost function BlockPass<C>(body: Body<C>, cc: seq<C>, tw: seq<C>, r: int, ido: int, p: int, q: int): (y: seq<C>)
    requires r in {4, 8} && ido > 0 && 0 <= p && p + r * ido <= |cc| && 0 <= q && q + (r - 1) * ido <= |tw|
    ensures |y| == r * ido
  {
    assert Size(r, ido, 1) == r * ido;
    PassResult(body, cc[p..p + r * ido], tw[q..q + (r - 1) * ido], r, ido, 1)
  }

  /** The inputs of a one-block call that runs a whole pass. */
  lemma CascadeInputs<C>(cc: seq<C>, from: int, ch: int, to: int, tw: int, at: int, r: int, ido: int, i: int)
    requires r in {4, 8} && ido > 0 && ido % 4 == 0 && 0 <= i < ido && 0 <= from && from + r * ido <= |cc|
    requires Fits(Alone(Cascade(r, ido, 1, 0, 0, 0), true), |cc|, from, ch, to, tw, at)
    ensures var s := Alone(Cascade(r, ido, 1, 0, 0, 0), true);
      && Size(r, ido, 1) == r * ido && (forall j :: 0 <= j < r ==> 0 <= from + From(s, 0, i, j) < |cc|)
      && Inputs(cc, from, s, 0, i) == PassInput(cc[from..from + r * ido], r, ido, 1, i, 0)
  {
    var s := Alone(Cascade(r, ido, 1, 0, 0, 0), true);
    InputsInside(s, |cc|, from, ch, to, tw, at, 0, i);
    hide Fits, TwiddleIndex, Cell;
    forall u | 0 <= u < r ensures Inputs(cc, from, s, 0, i)[u] == PassInput(cc[from..from + r * ido], r, ido, 1, i, 0)[u] {
      CascadePlaces(r, ido, i, u);
      InputInRange(r, ido, 1, i, 0, u);
    }
  }

  lemma CellIs<C>(body: Body<C>, cc: seq<C>, tw: seq<C>, r: int, ido: int, p: int, q: int, i: int, j: int)
    requires r in {4, 8} && ido > 0 && ido % 4 == 0 && 0 <= p && p + r * ido <= |cc| && 0 <= q && q + (r - 1) * ido <= |tw|
    requires 0 <= i < ido && 0 <= j < r
    ensures 0 <= i + j * ido < r * ido && Size(r, ido, 1) == r * ido
    ensures BlockPass(body, cc, tw, r, ido, p, q)[i + j * ido] ==
            PassOutput(body, cc[p..p + r * ido], tw[q..q + (r - 1) * ido], r, ido, 1, i, 0, j)
  {
    CascadePlaces(r, ido, i, j);
    CellEncodes(ido, 1, r, i, 0, j);
    assert Size(r, ido, 1) == r * ido;
    hide PassOutput, TwiddleIndex, InputCell, PointOf, BlockOf, OutputOf;
  }

  /** Output j of point i of a one-block call that runs a whole pass. */
  lemma CascadeValue<C>(body: Body<C>, cc: seq<C>, from: int, ch: int, to: int, tw: seq<C>, at: int, r: int, ido: int, i: int, j: int)
    requires r in {4, 8} && ido > 0 && ido % 4 == 0 && 0 <= i < ido && 0 <= j < r
    requires 0 <= from && from + r * ido <= |cc| && 0 <= at && at + (r - 1) * ido <= |tw|
    requires Fits(Alone(Cascade(r, ido, 1, 0, 0, 0), true), |cc|, from, ch, to, |tw|, at)
    ensures 0 <= i + j * ido < r * ido
    ensures Value(body, cc, from, ch, to, tw, at, Alone(Cascade(r, ido, 1, 0, 0, 0), true), 0, i, j) == BlockPass(body, cc, tw, r, ido, from, at)[i + j * ido]
  {
    CascadeInputs(cc, from, ch, to, |tw|, at, r, ido, i);
    CellIs(body, cc, tw, r, ido, from, at, i, j);
    CascadePlaces(r, ido, i, j);
    hide Fits, Inputs, PassInput, InputCell, Cell, TwiddleIndex, Size, BlockPass, From, To;
  }

  /** Cell u of block b's slice after a run. */
  lemma CascadeCell<C(!new)>(k: Kernel<C>, r: int, ido: int, nb: int, bin: int, bout: int, bt: int, b: int, u: int)
    requires CascadeFits(r, ido, nb, bin, bout, bt, k.cc.Length, k.from, k.ch.Length, k.to, |k.tw|, k.at) && k.s == Cascade(r, ido, nb, bin, bout, bt)
    requires k.Valid() && (forall b, i, j :: IsOutput(k.s, b, i, j) ==> k.Have(b, i, j)) && 0 <= b < nb && 0 <= u < r * ido
    ensures SliceFits(r, ido, b, bin, bout, bt, k.cc.Length, k.from, k.ch.Length, k.to, |k.tw|, k.at)
    ensures k.ch[k.to + b * bout + u] == BlockPass(k.body, k.input, k.tw, r, ido, k.from + b * bin, k.at + b * bt)[u]
  {
    CellOf(ido, r, u);
    var i, j := u % ido, u / ido;
    assert u == i + j * ido;
    assert IsOutput(k.s, b, i, j) && k.Have(b, i, j);
    assert SliceFits(r, ido, b, bin, bout, bt, k.cc.Length, k.from, k.ch.Length, k.to, |k.tw|, k.at);
    BlockIsCall(k.body, k.input, k.from, |k.before|, k.to, k.tw, k.at, k.s, b, i, j);
    assert Alone(k.s, true) == Alone(Cascade(r, ido, 1, 0, 0, 0), true);
    CascadeValue(k.body, k.input, k.from + b * bin, |k.before|, k.to + b * bout, k.tw, k.at + b * bt, r, ido, i, j);
    hide Fits, CascadeFits, BlockPass, Value;
  }

  lemma OutsideSlices<C(!new)>(k: Kernel<C>, r: int, ido: int, nb: int, bin: int, bout: int, bt: int, a: int)
    requires r in {4, 8} && ido > 0 && k.s == Cascade(r, ido, nb, bin, bout, bt)
    requires forall b :: 0 <= b < nb ==> !InSlice(k.to, b, bout, r * ido, a)
    ensures k.Outside(a)
  {
    forall b, i, j | IsOutput(k.s, b, i, j) ensures k.to + To(k.s, b, i, j) != a {
      assert !InSlice(k.to, b, bout, r * ido, a);
      CellInside(r, ido, i, j);
    }
  }

  /** Cell a is one of block b's n outputs. */
  predicate InSlice(to: int, b: int, bout: int, n: int, a: int) {
    to + b * bout <= a < to + b * bout + n
  }

  /** The output slice at q holds the pass of the input slice at p, with the table at t. */
  ghost predicate SliceHolds<C(!new)>(body: Body<C>, cc: seq<C>, tw: seq<C>, ch: seq<C>, r: int, ido: int, p: int, q: int, t: int) {
    && r in {4, 8} && ido > 0 && 0 <= p && p + r * ido <= |cc| && 0 <= q && q + r * ido <= |ch| && 0 <= t && t + (r - 1) * ido <= |tw|
    && Size(r, ido, 1) == r * ido
    && ch[q..q + r * ido] == PassResult(body, cc[p..p + r * ido], tw[t..t + (r - 1) * ido], r, ido, 1)
  }

  lemma HoldsSlice<C(!new)>(k: Kernel<C>, r: int, ido: int, nb: int, bin: int, bout: int, bt: int, b: int)
    requires CascadeFits(r, ido, nb, bin, bout, bt, k.cc.Length, k.from, k.ch.Length, k.to, |k.tw|, k.at) && k.s == Cascade(r, ido, nb, bin, bout, bt)
    requires k.Valid() && (forall b, i, j :: IsOutput(k.s, b, i, j) ==> k.Have(b, i, j)) && 0 <= b < nb
    ensures SliceHolds(k.body, k.input, k.tw, k.ch[..], r, ido, k.from + b * bin, k.to + b * bout, k.at + b * bt)
  {
    assert r in {4, 8} && ido > 0 && SliceFits(r, ido, b, bin, bout, bt, k.cc.Length, k.from, k.ch.Length, k.to, |k.tw|, k.at);
    var p, q, t := k.from + b * bin, k.to + b * bout, k.at + b * bt;
    var y := BlockPass(k.body, k.input, k.tw, r, ido, p, t);
    hide Fits, CascadeFits, PassResult;
    forall u | 0 <= u < r * ido ensures k.ch[q + u] == y[u] {
      CascadeCell(k, r, ido, nb, bin, bout, bt, b, u);
    }
    assert k.ch[..][q..q + r * ido] == y;
  }

  /** A call over nb blocks, each with its own slices and its own table, leaves in each block's output
      slice that block's own pass, and nothing else changed. */
  method RunCascade<C(!new)>(cc: array<C>, from: int, ch: array<C>, to: int, tw: seq<C>, at: int, r: int, ido: int, nb: int,
                             bin: int, bout: int, bt: int, body: Body<C>, wide: bool)
    requires CascadeFits(r, ido, nb, bin, bout, bt, cc.Length, from, ch.Length, to, |tw|, at) && cc != ch
    modifies ch
    ensures forall b :: 0 <= b < nb ==> SliceHolds(body, cc[..], tw, ch[..], r, ido, from + b * bin, to + b * bout, at + b * bt)
    ensures forall a :: 0 <= a < ch.Length && (forall b :: 0 <= b < nb ==> !InSlice(to, b, bout, r * ido, a)) ==> ch[a] == old(ch[a])
  {
    CascadeInside(r, ido, nb, bin, bout, bt, cc.Length, from, ch.Length, to, |tw|, at);
    hide Fits;
    var k := new Kernel(cc, from, ch, to, tw, at, Cascade(r, ido, nb, bin, bout, bt), body);
    assert k.Kept();
    k.Run(wide, 16 * (bin - ido), 16 * (bout - ido), 16 * bt);
    hide CascadeFits, BlockPass;
    forall b | 0 <= b < nb ensures SliceHolds(body, cc[..], tw, ch[..], r, ido, from + b * bin, to + b * bout, at + b * bt) {
      HoldsSlice(k, r, ido, nb, bin, bout, bt, b);
    }
    forall a | 0 <= a < ch.Length && (forall b :: 0 <= b < nb ==> !InSlice(to, b, bout, r * ido, a)) ensures ch[a] == k.before[a] {
      OutsideSlices(k, r, ido, nb, bin, bout, bt, a);
    }
  }
}
