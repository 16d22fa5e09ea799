/** The two- and three-pass trampolines compute the transform: they run a plan of two or three
    stages, the buffers of the frame between them. */
module FrameDft {
  import opened Rings
  import opened Dft
  import opened PassWalk
  import opened KernelDft
  import opened Frames

  /** With these arguments, the kernel turns words that stand for points into the words of the
      stage's pass. */
  ghost predicate RunsStage<F(!new), C(!new)>(p: Kernel<F>, tw: int, k: int, i: int, l: int, dec: seq<Word<F>> -> seq<C>,
                                     s: Stage<C>, ido: nat, l1: nat)
  {
    s.r > 0 && ido > 0 && l1 > 0 &&
    forall w :: |dec(w)| == Size(s.r, ido, l1) && |s.tw| >= TwiddleCells(s.r) * ((s.r - 1) * ido) ==>
      dec(p(w, tw, k, i, l)) == PassResult(s.body, dec(w), s.tw, s.r, ido, l1)
  }

  /** One kernel call is the first stage of the plan. */
  lemma StageRuns<F(!new), C(!new)>(R: Ring<C>, w: C, p: Kernel<F>, tw: int, k: int, i: int, l: int, dec: seq<Word<F>> -> seq<C>,
                           plan: seq<Stage<C>>, l1: nat, v: seq<Word<F>>)
    requires plan != [] && l1 > 0 && Sound(R, w, l1, plan) && |dec(v)| == l1 * Length(plan)
    requires RunsStage(p, tw, k, i, l, dec, plan[0], Length(plan[1..]), l1)
    ensures l1 * plan[0].r > 0 && |dec(p(v, tw, k, i, l))| == l1 * plan[0].r * Length(plan[1..])
    ensures Sound(R, w, l1 * plan[0].r, plan[1..])
    ensures RunPlan(R, w, l1, plan, dec(v)) == RunPlan(R, w, l1 * plan[0].r, plan[1..], dec(p(v, tw, k, i, l)))
  {
    PlanSize(l1, plan[0].r, Length(plan[1..]));
    hide IsRing, IsButterfly, Pow, PassResult;
  }

  /** What TwoPass leaves at ch is the transform of what was at cc. */
  lemma TwoPassIsDft<F(!new), C(!new)>(R: Ring<C>, w: C, dec: seq<Word<F>> -> seq<C>, pass: Kernel<F>, last: Kernel<F>, plan: seq<Stage<C>>,
                              tw: int, k0: int, k1: int, ido: int, l1: int, input: seq<Word<F>>, k: nat)
    requires IsRing(R) && |plan| == 2 && Sound(R, w, 1, plan) && |dec(input)| == Length(plan) && k < |dec(input)|
    requires Pow(R, w, |dec(input)|) == R.one
    requires RunsStage(pass, tw, k0, ido, 1, dec, plan[0], Length(plan[1..]), 1)
    requires RunsStage(last, 0, k1, 1, l1, dec, plan[1], Length(plan[2..]), plan[0].r)
    ensures var out := dec(last(pass(input, tw, k0, ido, 1), 0, k1, 1, l1));
      |out| == |dec(input)| && out[k] == Transform(R, w, |dec(input)|, Mem(R, dec(input)), k)
  {
    var y := pass(input, tw, k0, ido, 1);
    assert plan[1..][1..] == plan[2..] == [] && plan[1..][0] == plan[1];
    hide IsRing, Sound, RunsStage, Pow, Transform;
    StageRuns(R, w, pass, tw, k0, ido, 1, dec, plan, 1, input);
    StageRuns(R, w, last, 0, k1, 1, l1, dec, plan[1..], plan[0].r, y);
    PlanIsDft(R, w, plan, dec(input), k);
  }

  /** What ThreePass leaves at ch is the transform of what was at cc. */
  lemma ThreePassIsDft<F(!new), C(!new)>(R: Ring<C>, w: C, dec: seq<Word<F>> -> seq<C>, p0: Kernel<F>, p1: Kernel<F>, p2: Kernel<F>, plan: seq<Stage<C>>,
                                tw0: int, tw1: int, k0: int, k1: int, k2: int, ido0: int, ido1: int, l1b: int, l1c: int,
                                input: seq<Word<F>>, k: nat)
    requires IsRing(R) && |plan| == 3 && Sound(R, w, 1, plan) && |dec(input)| == Length(plan) && k < |dec(input)|
    requires Pow(R, w, |dec(input)|) == R.one
    requires RunsStage(p0, tw0, k0, ido0, 1, dec, plan[0], Length(plan[1..]), 1)
    requires RunsStage(p1, tw1, k1, ido1, l1b, dec, plan[1], Length(plan[2..]), plan[0].r)
    requires RunsStage(p2, 0, k2, 1, l1c, dec, plan[2], Length(plan[3..]), plan[0].r * plan[1].r)
    ensures var out := dec(p2(p1(p0(input, tw0, k0, ido0, 1), tw1, k1, ido1, l1b), 0, k2, 1, l1c));
      |out| == |dec(input)| && out[k] == Transform(R, w, |dec(input)|, Mem(R, dec(input)), k)
  {
    var y := p0(input, tw0, k0, ido0, 1);
    var z := p1(y, tw1, k1, ido1, l1b);
    assert plan[1..][1..] == plan[2..] && plan[1..][0] == plan[1] && plan[2..][0] == plan[2] && plan[2..][1..] == plan[3..] == [];
    hide IsRing, Sound, RunsStage, Pow, Transform;
    StageRuns(R, w, p0, tw0, k0, ido0, 1, dec, plan, 1, input);
    StageRuns(R, w, p1, tw1, k1, ido1, l1b, dec, plan[1..], plan[0].r, y);
    StageRuns(R, w, p2, 0, k2, 1, l1c, dec, plan[2..], plan[0].r * plan[1].r, z);
    PlanIsDft(R, w, plan, dec(input), k);
  }
}
