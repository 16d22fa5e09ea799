/** The final-pass kernels (ido = 1): a register holds neighbouring blocks instead of
    neighbouring points, and no output is multiplied. */
module LastKernel {
  import opened Modular

  class Last<C> {
    const cc: array<C>
    const ch: array<C>
    const r: int
    /** Output j sits os cells after output j - 1. */
    const os: int
    /** The blocks of cc. */
    const n: int
    const bfly: (seq<C>, int) -> C
    ghost const input: seq<C>

    var AX: int     // the next block's inputs
    var BX: int     // its output 0
    var DX: int     // one output stream
    var steps: int  // steps left
    var runs: int   // runs left

    constructor (cc: array<C>, ch: array<C>, r: int, os: int, n: int, bfly: (seq<C>, int) -> C)
      requires r > 0 && os > 0 && n >= 0 && cc.Length == r * n && ch.Length == os * r && cc != ch
      ensures Valid() && this.cc == cc && this.ch == ch && this.r == r && this.os == os && this.n == n && this.bfly == bfly
      ensures input == cc[..]
    {
      this.cc, this.ch, this.r, this.os, this.n, this.bfly := cc, ch, r, os, n, bfly;
      input := cc[..];
    }

    ghost predicate Valid()
      reads cc
    {
      r > 0 && os > 0 && n >= 0 && cc.Length == r * n && ch.Length == os * r && cc != ch && cc[..] == input
    }

    /** Output j of the butterfly of block b, for b < n. */
    ghost function Output(b: int, j: int): C
      requires r > 0 && |input| == r * n
    {
      if 0 <= b < n then BlockBounds(r, n, b); bfly(input[r * b..r * b + r], j) else bfly([], j)
    }

    /** The next step reads block b and writes its outputs from cell o on. */
    ghost predicate At(b: int, o: int)
      reads `AX, `BX, `DX
    {
      DX == 16 * os && AX == 16 * (r * b) && BX == 16 * o
    }

    /** Lane q of every input: 16·(q·r + j) bytes into the blocks. */
    method Load(q: int, ghost b: int, ghost o: int) returns (xs: seq<C>)
      requires Valid() && At(b, o) && 0 <= b && 0 <= q && b + q < n
      ensures r * (b + q) >= 0 && r * (b + q) + r <= |input| && xs == input[r * (b + q)..r * (b + q) + r]
    {
      xs := [];
      BlockBounds(r, n, b + q);
      MulAdd(r, b, q);
      for j := 0 to r
        invariant |xs| == j && xs == input[r * (b + q)..r * (b + q) + j]
      {
        xs := xs + [cc[(AX + 16 * (q * r + j)) / 16]];
      }
    }

    /** Store y to lane q of output stream j. */
    method Store(j: int, q: int, y: C, ghost b: int, ghost o: int)
      requires Valid() && At(b, o) && 0 <= j < r && 0 <= q && 0 <= o && o + q < os
      modifies ch
      ensures forall a :: 0 <= a < ch.Length ==> ch[a] == if a % os == o + q && a / os == j then y else old(ch[a])
    {
      ghost var c := o + q + os * j;
      CellBounds(os, r, o + q, j);
      DivModUnique(os, o + q, j);
      MulRegroup(j, 16, os);
      assert (BX + j * DX + 16 * q) / 16 == c;
      ch[(BX + j * DX + 16 * q) / 16] := y;
      CellsAreDistinct(os, c);
    }

    /** Cell a belongs to one of `lanes` columns from column o on. */
    ghost predicate Reached(a: int, o: int, lanes: int) requires os > 0 {
      o <= a % os < o + lanes
    }

    /** Every output of one lane. */
    method StoreLane(xs: seq<C>, q: int, ghost b: int, ghost o: int)
      requires Valid() && At(b, o) && 0 <= b && 0 <= q && b + q < n && 0 <= o && o + q < os
      requires r * (b + q) >= 0 && r * (b + q) + r <= |input| && xs == input[r * (b + q)..r * (b + q) + r]
      modifies ch
      ensures Valid()
      ensures forall a :: 0 <= a < ch.Length ==> ch[a] == if a % os == o + q then Output(b + q, a / os) else old(ch[a])
    {
      for j := 0 to r
        invariant Valid()
        invariant forall a :: 0 <= a < ch.Length ==>
          ch[a] == if a % os == o + q && a / os < j then Output(b + q, a / os) else old(ch[a])
      {
        Store(j, q, bfly(xs, j), b, o);
      }
      forall a | 0 <= a < ch.Length ensures a / os < r {
        CellOf(os, r, a);
      }
    }

    /** One butterfly on the blocks b, …, b + lanes - 1, and the step past them. */
    method Step(lanes: int, ghost b: int, ghost o: int)
      requires Valid() && At(b, o) && 0 <= b && 0 <= o && 0 <= lanes && o + lanes <= os && b + lanes <= n
      modifies ch, `AX, `BX
      ensures Valid() && At(b + lanes, o + lanes)
      ensures forall a :: 0 <= a < ch.Length ==>
        ch[a] == if Reached(a, o, lanes) then Output(b + (a % os - o), a / os) else old(ch[a])
    {
      hide Output;
      for q := 0 to lanes
        invariant Valid() && At(b, o)
        invariant forall a :: 0 <= a < ch.Length ==>
          ch[a] == if Reached(a, o, q) then Output(b + (a % os - o), a / os) else old(ch[a])
      {
        var xs := Load(q, b, o);
        StoreLane(xs, q, b, o);
      }
      AX := AX + 16 * lanes * r;
      BX := BX + 16 * lanes;
      MulAdd(r, b, lanes);
      MulRegroup(16, lanes, r);
    }

    /** The columns before column o hold the outputs of the blocks of the same number. */
    ghost predicate Done(o: int)
      requires Valid()
      reads cc, ch
    {
      forall a :: 0 <= a < ch.Length && a % os < o ==> ch[a] == Output(a % os, a / os)
    }

    method StepDone(lanes: int, ghost b: int)
      requires Valid() && At(b, b) && 0 <= b && 0 <= lanes && b + lanes <= os && os == n && Done(b)
      modifies ch, `AX, `BX
      ensures Valid() && At(b + lanes, b + lanes) && Done(b + lanes)
    {
      hide Output;
      Step(lanes, b, b);
    }

    /** The block pairs (256 bits) or quads (512 bits). */
    method Blocks(wide: bool) returns (ghost b: int)
      requires Valid() && os == n && Done(0)
      modifies this, ch
      ensures Valid() && DX == 16 * n && At(b, b) && b == (if wide then n - n % 4 else n - n % 2) && Done(b)
    {
      AX, BX := 0, 0;
      steps := if wide then n / 4 else n / 2;
      DX := n * 16;
      b := 0;
      assert r * 0 == 0;
      hide Done, Output;
      while steps != 0
        invariant Valid() && At(b, b) && 0 <= b && 0 <= steps && Done(b)
        invariant b == (if wide then n - n % 4 - 4 * steps else n - n % 2 - 2 * steps)
        decreases steps
      {
        StepDone(if wide then 4 else 2, b);
        b := b + if wide then 4 else 2;
        steps := steps - 1;
      }
    }

    /** The last block of an odd number. */
    method Tail(ghost b: int)
      requires Valid() && os == n && DX == 16 * n && At(b, b) && Done(b) && 0 <= b == n - n % 2
      modifies ch, `AX, `BX
      ensures Valid() && Done(n)
    {
      BitOfOne(n);
      hide Done, Output, At;
      if (DX / 16) % 2 != 0 {
        StepDone(1, b);
      }
    }

    method PairAndTail(ghost b: int)
      requires Valid() && os == n && DX == 16 * n && At(b, b) && Done(b) && 0 <= b == n - n % 4
      modifies ch, `AX, `BX
      ensures Valid() && Done(n)
    {
      BitOfTwo(n);
      hide Done, Output, At;
      if (DX / 32) % 2 != 0 {
        StepDone(2, b);
        Tail(b + 2);
      } else {
        Tail(b);
      }
    }

    /** The final pass: then a pair (when wide), then one block alone. */
    method Run(wide: bool)
      requires Valid() && os == n
      modifies this, ch
      ensures Valid()
      ensures forall a :: 0 <= a < ch.Length ==> ch[a] == Output(a % n, a / n)
    {
      assert Done(0) by { NothingDone(); }
      hide Done, Output, At;
      ghost var b := Blocks(wide);
      if wide {
        PairAndTail(b);
      } else {
        Tail(b);
      }
      AllDone();
    }

    lemma NothingDone()
      requires Valid()
      ensures Done(0)
    {
    }

    lemma AllDone()
      requires Valid() && Done(os)
      ensures forall a :: 0 <= a < ch.Length ==> ch[a] == Output(a % os, a / os)
    {
    }

    // -------------------------------------------------------- the blocked schedule's runs

    /** The run a column lies in, when the runs of `run` columns start `gap` columns apart. */
    ghost predicate InRun(c: int, done: int, part: int, run: int, gap: int)
      requires gap > 0
    {
      c % gap < run && (c / gap < done || (c / gap == done && c % gap < part))
    }

    /** What the first `done` runs, and `part` columns of the next, leave in cell a. */
    ghost predicate RunsDone(before: seq<C>, done: int, part: int, run: int, gap: int)
      requires Valid() && gap > 0 && |before| == ch.Length
      reads cc, ch
    {
      forall a :: 0 <= a < ch.Length ==>
        var c := a % os;
        ch[a] == if InRun(c, done, part, run, gap) then Output(c / gap * run + c % gap, a / os) else before[a]
    }

    /** The columns a step over part of a run reaches, by their place in the run. */
    lemma RunColumns(done: int, part: int, lanes: int, run: int, gap: int)
      requires os > 0 && 0 <= done && 0 <= part && 0 <= lanes && part + lanes <= run <= gap && 0 < gap
      ensures forall a :: Reached(a, done * gap + part, lanes) ==>
        (a % os) / gap == done && part <= (a % os) % gap < part + lanes && (a % os) % gap == a % os - done * gap
      ensures forall a :: 0 <= a % os && InRun(a % os, done, part + lanes, run, gap) ==>
        InRun(a % os, done, part, run, gap) || Reached(a, done * gap + part, lanes)
    {
      forall a | Reached(a, done * gap + part, lanes)
        ensures (a % os) / gap == done && (a % os) % gap == a % os - done * gap
      {
        DivModUnique(gap, a % os - done * gap, done);
      }
      forall a | 0 <= a % os && InRun(a % os, done, part + lanes, run, gap) && !InRun(a % os, done, part, run, gap)
        ensures Reached(a, done * gap + part, lanes)
      {
        assert a % os == gap * done + (a % os) % gap;
      }
    }

    method StepInRun(lanes: int, ghost done: int, ghost part: int, ghost run: int, ghost gap: int, ghost before: seq<C>)
      requires Valid() && 0 <= done && 0 <= part && 0 <= lanes && part + lanes <= run <= gap && 0 < gap
      requires At(done * run + part, done * gap + part) && |before| == ch.Length
      requires done * run + part + lanes <= n && done * gap + part + lanes <= os
      requires RunsDone(before, done, part, run, gap)
      modifies ch, `AX, `BX
      ensures Valid() && At(done * run + part + lanes, done * gap + part + lanes)
      ensures RunsDone(before, done, part + lanes, run, gap)
    {
      assert done * run >= 0 && done * gap >= 0;
      hide Output;
      Step(lanes, done * run + part, done * gap + part);
      hide At;
      RunColumns(done, part, lanes, run, gap);
    }

    /** One run. */
    method OneRun(lanes: int, ghost done: int, ghost count: int, run: int, ghost gap: int, ghost before: seq<C>)
      requires Valid() && 0 <= done < count && 0 < run <= gap && (count - 1) * gap + run <= os
      requires n == count * run && (lanes == 2 || lanes == 4) && run % lanes == 0
      requires At(done * run, done * gap) && |before| == ch.Length && RunsDone(before, done, 0, run, gap)
      modifies ch, `AX, `BX, `steps
      ensures Valid() && At(done * run + run, done * gap + run) && RunsDone(before, done, run, run, gap)
    {
      hide RunsDone, At, Output;
      steps := if lanes == 2 then run / 2 else run / 4;
      ghost var part := 0;
      RunFits(done, count, run);
      RunFits(done, count - 1, gap);
      while steps != 0
        invariant Valid() && 0 <= part && 0 <= steps
        invariant part + (if lanes == 2 then 2 * steps else 4 * steps) == run
        invariant At(done * run + part, done * gap + part) && RunsDone(before, done, part, run, gap)
        decreases steps
      {
        StepInRun(lanes, done, part, run, gap, before);
        part, steps := part + lanes, steps - 1;
      }
    }

    /** LastRun and LastRun512: runs·run blocks, their outputs in runs. */
    method RunInRuns(wide: bool, count: int, run: int, gap: int)
      requires Valid() && count >= 0 && 0 < run <= gap && (count - 1) * gap + run <= os
      requires n == count * run && run % (if wide then 4 else 2) == 0
      modifies this, ch
      ensures Valid()
      ensures forall a :: 0 <= a < ch.Length ==>
        var c := a % os;
        ch[a] == if c / gap < count && c % gap < run then Output(c / gap * run + c % gap, a / os) else old(ch[a])
    {
      AX, BX := 0, 0;
      DX := os * 16;
      var lanes := if wide then 4 else 2;
      runs := count;
      var jump := (gap - run) * 16;
      ghost var done := 0;
      ghost var before := ch[..];
      assert r * (0 * run) == 0 && 0 * gap == 0;
      NothingRun(before, run, gap);
      hide RunsDone, Output;
      while runs != 0
        invariant Valid() && 0 <= done && 0 <= runs && done + runs == count && At(done * run, done * gap)
        invariant RunsDone(before, done, 0, run, gap)
        decreases runs
      {
        OneRun(lanes, done, count, run, gap, before);
        BX := BX + jump;
        RunEnds(before, done, run, gap);
        done, runs := done + 1, runs - 1;
        assert done * run == (done - 1) * run + run && done * gap == (done - 1) * gap + gap;
      }
      RunsAreDone(before, count, run, gap);
    }

    lemma NothingRun(before: seq<C>, run: int, gap: int)
      requires Valid() && 0 < gap && before == ch[..]
      ensures RunsDone(before, 0, 0, run, gap)
    {
      assert forall c :: 0 <= c ==> c / gap >= 0;
    }

    lemma RunEnds(before: seq<C>, done: int, run: int, gap: int)
      requires Valid() && 0 < run <= gap && |before| == ch.Length && RunsDone(before, done, run, run, gap)
      ensures RunsDone(before, done + 1, 0, run, gap)
    {
    }

    lemma RunsAreDone(before: seq<C>, count: int, run: int, gap: int)
      requires Valid() && 0 < gap && |before| == ch.Length && RunsDone(before, count, 0, run, gap)
      ensures forall a :: 0 <= a < ch.Length ==>
        var c := a % os;
        ch[a] == if c / gap < count && c % gap < run then Output(c / gap * run + c % gap, a / os) else before[a]
    {
      hide Output;
    }
  }

  /** What the final kernel makes of n blocks. */
  function LastResult<C>(bfly: (seq<C>, int) -> C, cc: seq<C>, r: int, n: int): (ch: seq<C>)
    requires r > 0 && n > 0 && |cc| == r * n
    ensures |ch| == r * n
  {
    seq(r * n, a requires 0 <= a < r * n => (BlockBounds(r, n, a % n); bfly(cc[r * (a % n)..r * (a % n) + r], a / n)))
  }

  lemma RunFits(done: int, count: int, run: int)
    requires done <= count && 0 <= run
    ensures done * run <= count * run
    ensures done < count ==> done * run + run <= count * run
  {
    MulLower(run, count - done);
    MulSub(run, count, done);
  }

  lemma BlockBounds(r: int, n: int, b: int)
    requires r > 0 && 0 <= b < n
    ensures 0 <= r * b && r * b + r <= r * n
  {
    CellBounds(r, n, r - 1, b);
    CellBounds(r, n, 0, b);
  }

  lemma CellsAreDistinct(os: int, c: int)
    requires os > 0
    ensures forall a :: a % os == c % os && a / os == c / os ==> a == c
  {
    forall a | a % os == c % os && a / os == c / os ensures a == c {
      assert a == os * (a / os) + a % os;
    }
  }
}
