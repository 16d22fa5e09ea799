# What the emitted kernels compute

go-asmgen emits assembly text. This project models the programs it emits for its fast Fourier
transforms (amd64, and the split layout of arm64) and for its WebAssembly byte kernels, and the
address arithmetic they rest on, and proves that each computes the much simpler function it is
documented to equal. `dafny verify dfyconfig.toml` checks the whole project.

## How it is modelled

- **Two arithmetics.** "This is the discrete Fourier transform" is proved in exact arithmetic: over
  any commutative ring with a root of unity (`Rings`, `Dft`), and over complex numbers with real
  parts (`Complexes`), the stored constants known only by the trigonometric identities they satisfy.
  "These are the same bits" is proved over floats whose operations are uninterpreted (`Floats`): the
  operands of + and · exchange, x − y is x + (−y), a sign flip undoes itself and moves between the
  factors of a fused product; nothing is ever reassociated or distributed.
- **The walk and the arithmetic apart.** A pass kernel is a class whose fields are the machine
  registers and whose methods are the emitted loops (`PassKernel`, `LastKernel`, `LastRadix32`,
  `Radix32Kernel`, `SplitKernel`, `Strided`, `Batch`, `Untangle`, `Arm64Pass`, `Arm64Last`). The
  butterfly is a parameter of most of these classes, so the loop's theorem holds for exact and for
  float arithmetic alike; the bodies are proved separately, register by register, in place
  (`Bodies`, `StageRegisters`, `PfaRegisters`, `R32Registers`, `FloatTurns`, `UntangleBins`,
  `Arm64Bodies`). `FloatPasses` puts the two together for whole passes, and chains of them, with the
  same bits at every width and in every layout; `RegisterPass` runs the instructions of every radix
  from 2 to 20 inside the loop, and `ExactKernels` shows that over numbers that round nothing all
  these bodies are transforms, so the one kernel has both the right bits and the right meaning.
- **Arrays.** One array cell is one 16-byte complex value, and registers hold byte offsets, divided
  back to cells at every access. In the split layout a cell is one group of points.
- **The chain of results.** A kernel's `Run` leaves `PassResult` (or an equivalent) of its input;
  `KernelDft` turns that into one Stockham pass; `Stockham` turns any sequence of passes into the
  transform; `Plans` puts in the kernels' own radices, constants and tables; `Frames` runs two or
  three passes in a stack frame, `FrameKernels` shows that the pass loops are the kernels it calls,
  and with `FrameDft` the trampolines leave the transform. `Trampolines` says so of the plans of
  `Plans`, over words that hold real numbers, and over words that hold floats it gives the bits of
  the scalar passes.
- **Layouts.** Which cell holds what is said apart from the functions the loops are proved against:
  the order of every twiddle table (`Plans`, `TableOrders`), points in split and paired memory
  (`SplitLayout`, `Arm64Last`), the blocks of a strided call (`StridedBlocks`), the bins of the real
  transform (`RealKernels`), the words of a trampoline (`Trampolines`), characters in memory (`TextCodes`).
- **WebAssembly.** Memory is an array of bytes, `v128` sixteen of them, and every lane operation
  the function section 4.3 of the WebAssembly Core Specification 2.0 defines, 32-bit wrap-around and
  signed loop comparisons included (`Simd`). Each kernel is a method with the same loop.

Where the code and its comments disagree the code is followed: one comment inside the Base64
encoder (line 220) gives −16 (240) as the last step towards `/`; the code, like the other comments,
adds 244 (−12), which is what makes index 63 a `/`. The second buffer of the three-pass frame is 64-byte aligned exactly when 4 divides `max`
(`Frames.ThreePlacement`). A struct declared without fields is laid out as a scalar of size 0, whose
alignment takes the offset back to 0 (`Abi.EmptyStructOverlaps`, `Abi.NeverBack`, `Abi.LayoutInOrder`).
matchlen16 compares its counters as signed numbers: from a limit of 2^31 − 16 on, two buffers that
agree that far take the chunk counter past 2^31, and the call traps, never ends or returns a negative
count unless the chunk at the edge stops it (`Scans.MatchesExactly`, `Scans.MissesAtEdge`).
memchr and indexany4 promise "no less than 0" for a match; past 2^31 bytes an offset is negative as an
i32, though never −1 (`Scans.SignExactly`, `Scans.FarMatch`).

## Model

| member | source | states |
|---|---|---|
| Dft.CooleyTukey | fft/amd64/pass.go:13-17 | decimation in frequency: one r-point butterfly per i over inputs m apart, output j multiplied by w^(i·j), leaves r transforms of length m whose bin q is bin j + r·q of the whole |
| Stockham.StockhamIsDft | fft/amd64/pass.go:13-17 | for every factorisation of n and every w with w^n = 1, the passes with l1 the product of the radices before and ido of those after turn any signal into its n-point transform, bin k in cell k |
| PassWalk.CellDecodes | fft/amd64/pass.go:15-17 | every cell of the output belongs to one point, block and output of a pass |
| PassWalk.CellEncodes | fft/amd64/pass.go:15-17 | and to only one: point, block and output are read back from the cell number |
| PassWalk.TwiddleInTable | fft/amd64/pass.go:124-149 | every twiddle of the grouped stream, and for radix 16 the cell of its imaginary part, lies in the table |
| Plans.TwiddlesApart | fft/amd64/pass.go:124-149 | no two twiddles of the grouped stream share a cell, for every ido and radix, the pre-duplicated pairs of radix 16 included |
| Plans.TwiddleOrder | fft/amd64/pass.go:124-149 | and they stand group by group, in a group output by output, of an output (for radix 16) the real parts before the imaginary ones, so the place of each is fixed |
| TableOrders.PowerCell | fft/amd64/pass.go:144-149 | the cell of a twiddle holds w^(i·j), and for radix 16 its real part twice and its imaginary part twice |
| PassKernel.Pass.LoadTwiddle | fft/amd64/pass.go:124-149 | the address the body computes from the group cursor, the half and the lane holds twiddle j of that point |
| PassKernel.Pass.Step | fft/amd64/pass.go:215-300 | one body on neighbouring points writes exactly their r outputs, each the pass's value, point 0 unmultiplied although it was multiplied and blended back |
| PassKernel.Pass.NextBlock | fft/amd64/pass.go:559-574 | the jump each radix emits lands on the next block's input and output |
| PassKernel.Pass.Run | fft/amd64/pass.go:444-517 | for every radix, ido ≥ 2 and l1, at 256 or (ido ≥ 4) 512 bits, the pointer loop with its groups, pair, single point and first-pair path leaves in every cell of ch what the Stockham pass defines |
| KernelDft.ResultIsPass | fft/amd64/pass.go:13-31 | a pass kernel whose body transforms and whose table holds w^(i·j) does one pass of the Stockham recursion |
| KernelDft.LastIsPass | fft/amd64/pass.go:519-557 | the final kernels' outputs are those of a pass with ido = 1 |
| KernelDft.PlanIsDft | fft/amd64/pass.go:13-31 | kernels run one after the other, one's result the next one's input, leave the transform of the input in natural order, for any number of stages |
| Plans.KernelBodyIsDft | fft/amd64/pass.go:918-941 | the body of each of the twelve radices 2 to 32 is the transform of its length, given what its constants mean |
| Plans.RootOfRadix | fft/amd64/kernels.go:41-66 | which root that is, radix by radix: the cosine and sine its constants stand for, the sine negative forward and positive inverse |
| Plans.PowerTableServes | fft/amd64/pass.go:124-149 | a table with every twiddle w^(i·j) where the kernel reads it exists for every radix and ido |
| Plans.KernelPlansAreDft | fft/amd64/pass.go:13-31 | any plan of n points over those radices, in any order and number, with such tables and, for each radix r in it, the constants of w^(n/r), leaves the transform of every input in natural order |
| LastKernel.Last.Run | fft/amd64/pass.go:519-557 | the final pass at 256 and 512 bits, for every number of blocks: output j of block k in cell k + l1·j, every cell written |
| LastKernel.Last.RunInRuns | fft/amd64/pass.go:687-740 | over runs·run blocks, block ρ·run + s is scattered to ρ·gap + s + j·os, and every cell of no run is as it was |
| Strided.Kernel.Run | fft/amd64/pass.go:742-829 | with every stride a parameter, each output of each point of each block lands in its place, made with its block's own table, kept points unmultiplied, and every other cell is untouched |
| StridedBlocks.BlockIsCall | fft/amd64/pass.go:742-760 | block b of a call is a one-block call on the slices b·bin and b·bout on, with the table that starts b·bt further, its first point kept as the flag of block 0 or of the others says |
| StridedBlocks.RunCascade | fft/amd64/pass.go:742-829 | so a call over nb blocks with their own slices and tables leaves in each output slice that block's own pass, and nothing else changes |
| Strided.PieceValue | fft/amd64/pass.go:742-760 | a piece that starts at a point divisible by four computes the whole pass's output for each of its points |
| Strided.RunPiece | fft/amd64/pass.go:742-829 | one piece replaces exactly the cells of its points by the pass's values |
| Strided.RunPieces | fft/amd64/pass.go:742-829 | however a pass's points are cut at multiples of four, at either width, the pieces leave the very array the whole pass leaves |
| Batch.Strip.Run | fft/amd64/pass.go:831-916 | for every number w of lines, odd or even, every line of the strip holds what the one-dimensional pass makes of that line alone, and the cells between rows are untouched |
| TableOrders.LineOfStrip | fft/amd64/pass.go:831-860 | point p of line q is the point in column q of row p |
| TableOrders.BatchOrder | fft/amd64/pass.go:831-860 | the batch table serves if and only if its cell t holds w^(i·j) for point i = t/(r−1) + 1 and output j = t mod (r−1) + 1 |
| Butterflies.Bfly2IsDft | fft/amd64/pass.go:307-435 | the radix-2 operations are the 2-point transform |
| Butterflies.Bfly3IsDft | fft/amd64/pass.go:307-435 | the radix-3 operations, from 1/2 and sin(2π/3), are the 3-point transform in both directions |
| Butterflies.Bfly4IsDft | fft/amd64/pass.go:307-435 | the radix-4 operations, a swap and a sign flip for ±i, are the 4-point transform in both directions |
| Butterflies.Bfly5IsDft | fft/amd64/pass.go:307-435 | the radix-5 operations, from two cosines and two sines, are the 5-point transform in both directions |
| Radices.Basic8 | fft/amd64/pass.go:183-194 | the radix-8 operations, one √2/2 per pair, are the 8-point transform given h² = 1/2 |
| Circle.CirclePowers | fft/amd64/radix32.go:44-55 | the sign and index choices made from one quarter circle of cosines give every power of the root for three quarters of the circle |
| Composite.SplitIsDft | fft/amd64/radix16.go:100-153 | two stages of butterflies with the internal turns between them are the r·m-point transform |
| LargeRadices.Radix9IsDft | fft/amd64/radix9.go:26-75 | the 3×3 body is the 9-point transform, from three cosine and sine pairs related by angle sums |
| LargeRadices.Turn16IsPower | fft/amd64/radix16.go:55-83 | each of the seven turns of radix 16 is the product with its power of the 16th root |
| LargeRadices.Radix16IsDft | fft/amd64/radix16.go:100-153 | the 4×4 body is the 16-point transform |
| LargeRadices.Turn32IsPower | fft/amd64/radix32.go:286-313 | the fused turns of radix 32, with the rows and signs chosen per exponent, are the products with the powers of the 32nd root |
| LargeRadices.Turn32IsLast | fft/amd64/radix32.go:568-612 | in exact arithmetic the interleaved final kernel's turns are the split kernels'; `FloatTurns` has the bits |
| FloatTurns.RotC | fft/amd64/radix16.go:67-83 | the turn of the radix-9, 16 and 32 bodies, a swap, a signed row and a sum or one fused sum, is the bits of the reference product with c + i·d |
| FloatTurns.Turn32 | fft/amd64/radix32.go:286-313 | the fused instruction chosen from the signs of cosine, sine and direction gives, for each of the 24 exponents, the bits of the fused product with ±C_p ± i·C_q |
| FloatTurns.Turn32Last | fft/amd64/radix32.go:568-584 | and so does the final kernel with the signs in its rows, so the two agree bit for bit |
| LargeRadices.Radix32IsDft | fft/amd64/radix32.go:368-417 | the 8×4 body is the 32-point transform |
| StageRegisters.Body16 | fft/amd64/radix16.go:34-153 | on sixteen registers and eight frame slots, whatever the scratch registers of turns and products are left holding, each stage-1 value is where stage 2 reads it and all sixteen outputs are the two-stage values |
| StageRegisters.Body9 | fft/amd64/radix9.go:27-75 | so are the nine outputs of radix 9, kept in Y0 to Y8 with Y9 to Y15 as scratch |
| PfaRegisters.Body5q | fft/amd64/pfa.go:91-161 | radix 10, 15 and 20 on sixteen registers and 5·q frame slots: stage 2 finds every value stage 1 stored, and each mapped output is the prime-factor value, whatever scratch registers are left holding |
| PfaRegisters.Body12 | fft/amd64/radix12.go:41-85 | so with radix 12, whose outputs 0 of stage 1 wait in registers 8 to 11 and the others in slots |
| R32Registers.Bfly8r | fft/amd64/radix32.go:201-284 | the split radix-8 butterfly, its odd half spilled and its parts in renamed registers, hands out each turned output of stage 1 |
| R32Registers.Body32 | fft/amd64/radix32.go:368-417 | the 8×4 body on sixteen split registers produces every output of the two stages |
| PrimeFactor.PfaInputsPermute | fft/amd64/pfa.go:54-84 | the input map q·n1 + p·n2 mod p·q is a permutation, its inverse given, for any coprime pair |
| PrimeFactor.PfaOutputsPermute | fft/amd64/pfa.go:54-84 | so is the output map, whose place is determined by its remainders mod p and mod q |
| PrimeFactor.StagesAreDft | fft/amd64/pfa.go:126-161 | with no twiddle between them, the two stages leave each bin of the p·q-point transform at its mapped place, for any coprime pair |
| PrimeFactor.MultipliersExist | fft/amd64/pfa.go:54-84 | every coprime pair has the two multipliers the output map needs |
| Composite.PfaIsDft | fft/amd64/pfa.go:126-161 | the bodies built from any right butterflies of lengths p and q are the p·q-point transform |
| StageBodies.FindMultipliers | fft/amd64/pfa.go:61-84 | the search loop finds the multipliers for 5·q, q = 2, 3, 4 |
| StageBodies.NewMap | fft/amd64/pfa.go:61-84 | the filled index tables are the maps |
| StageBodies.Map12 | fft/amd64/radix12.go:31-35 | the constant tables of radix 12 are the maps for 3 and 4 |
| StageBodies.PfaThroughSlots | fft/amd64/pfa.go:126-161 | the body that stores stage 1 and reads it back fills every output once with its prime-factor value |
| LargeRadices.RadixPfaIsDft | fft/amd64/pfa.go:126-161 | radices 10, 12, 15 and 20 are the transforms of their lengths |
| Radix32Kernel.R32.Stage1 | fft/amd64/radix32.go:368-385 | after stage 1 every one of the 32 slots, in the output or in the frame, holds its value, and no other group's cell changes |
| Radix32Kernel.R32.Stage2 | fft/amd64/radix32.go:386-417 | rewriting the four slots just read, no slot is overwritten before its last read: every output gets its result |
| Radix32Kernel.R32.Run | fft/amd64/radix32.go:446-515 | over the whole pass, groups loaded, kept between the stages and stored each in its form, with slots in its own output or in the frame, every cell ends as the out-of-place butterflies make it and the input is untouched |
| LastRadix32.Final.StageOne | fft/amd64/radix32.go:570-587 | for every number of blocks in a register, stage 1 of each block is parked, turned, in the 32 output cells of that block, and no other cell changes |
| LastRadix32.Final.StageTwo | fft/amd64/radix32.go:588-601 | each stage-2 butterfly reads its four cells before it stores over them, so every output is made of the parked values |
| LastRadix32.Final.Run | fft/amd64/radix32.go:603-660 | at 256 and 512 bits, whatever the number of blocks, cell b + l1·j holds output j of the two-stage butterfly of block b |
| LastRadix32.Bits | fft/amd64/radix32.go:568-601 | over floats the final radix-32 pass has the bits of the split pass kernel's body |
| LastRadix32.Exactly | fft/amd64/radix32.go:568-601 | in exact arithmetic it is the final pass of the radix-32 butterfly of `LargeRadices.Radix32IsDft` |
| Radix32Points.StagesKept | fft/amd64/radix32.go:368-417 | values kept split between the stages come back as they were, at every even group size |
| Radix32Points.RunIsSplitStep | fft/amd64/radix32.go:18-28 | so the run is one split pass of radix 32 in any pair of layouts, and may stand anywhere in the chains of `SplitLayout.ChainsAgree` |
| Floats.InterleavedIsReference | fft/amd64/pass.go:204-305 | the twiddle product at 128, 256 and 512 bits, fused or not, is the reference product bit for bit |
| Floats.TwSplit | fft/amd64/split.go:92-125 | so is the split layout's product, in place in its registers |
| Bodies.Interleaved2 | fft/amd64/pass.go:307-435 | the interleaved radix-2 body produces the scalar butterfly's bits |
| Bodies.Interleaved3 | fft/amd64/pass.go:307-435 | so does radix 3 |
| Bodies.Interleaved4 | fft/amd64/pass.go:307-435 | so does radix 4, both directions |
| Bodies.Interleaved5 | fft/amd64/pass.go:307-435 | so does radix 5 |
| Bodies.Interleaved8 | fft/amd64/pass.go:307-435 | so does radix 8, with and without fused products |
| Bodies.Hpm | fft/amd64/pass.go:180-194 | a ± √2/2·s computed in place, rounded or fused, is the reference's pair |
| Bodies.RotAdd | fft/amd64/split.go:126-143 | the split rotation, a choice of which sums and differences to take, is the reference's a ± rot(b) |
| Bodies.Split3 | fft/amd64/split.go:188-212 | the split radix-3 body produces the scalar butterfly's bits |
| Bodies.Split4 | fft/amd64/split.go:145-178 | so does split radix 4 |
| Bodies.Split5 | fft/amd64/split.go:215-275 | so does split radix 5 |
| Bodies.Split8 | fft/amd64/split.go:294-398 | so does split radix 8, at 256 and 512 bits |
| Bodies.SplitHpm | fft/amd64/split512.go:121-134 | the fused ± of the 512-bit split body is the reference's |
| SplitKernel.SplitPass.Run | fft/amd64/split.go:409-467 | the block and group loop stores in every output group the butterfly of its inputs times its twiddles, the first group blended |
| SplitLayout.UnpackTwice | fft/amd64/split.go:59-87 | unpacking low and high twice is the identity on every lane |
| SplitLayout.LoadStore | fft/amd64/split512.go:54-79 | loading what was stored, in either layout, gives every lane back, at every even group size |
| SplitLayout.StoreLoad | fft/amd64/split.go:59-87 | storing what was loaded gives the memory back |
| SplitLayout.Orders | fft/amd64/split512.go:12-19 | the lanes of the points are 0,1 for two, 0,2,1,3 for four and 0,4,1,5,2,6,3,7 for eight |
| SplitLayout.InterleavedPoint | fft/amd64/split.go:13-37 | in the interleaved layout point p's parts lie side by side at 2p |
| SplitLayout.SplitPoint | fft/amd64/split.go:13-37 | in the split layout they are g apart, the points of the first half in the even lanes, of the second in the odd ones |
| TableOrders.SplitOrder | fft/amd64/split.go:92-125 | lane l of register t of the split table holds w^(p·j), p the point the layout puts in that lane of group t/(r−1), j the output t mod (r−1) + 1 |
| SplitLayout.KernelDoesStep | fft/amd64/split.go:409-467 | the kernel's run is one split pass, layouts of both sides included |
| SplitLayout.SplitPassIsPass | fft/amd64/split.go:13-37 | whatever the layouts of the two sides, a split pass leaves the points the pass on points leaves |
| SplitLayout.ChainsAgree | fft/amd64/split.go:13-37 | for any number of passes, a chain through split memory ends with the points of the all-interleaved chain |
| SplitLayout.SameMemory | fft/amd64/split.go:13-37 | and when it ends interleaved, with the very same memory |
| FloatPasses.Interleaved | fft/amd64/pass.go:307-435 | for each radix every output of the interleaved body is the scalar butterfly's |
| FloatPasses.Split | fft/amd64/split.go:145-398 | so is every output of the split body |
| FloatPasses.WidthIsScalar | fft/amd64/pass.go:19-35 | whatever the butterfly, a whole pass with the 256-bit, the 512-bit or the fused instructions has the bits of the scalar pass, point 0 included |
| FloatPasses.RunWidth | fft/amd64/pass.go:444-517 | the pointer loop at either width leaves the scalar pass of its input, bit for bit |
| RegisterPass.Butterfly | fft/amd64/pass.go:918-941 | for each of the eleven radices 2 to 20 the instructions on numbered registers produce the scalar butterfly's outputs |
| RegisterPass.Run | fft/amd64/pass.go:444-517 | with those instructions run on every lane of every step of the loop, the kernel of each of these radices leaves the scalar pass of its input, bit for bit, at either width |
| ExactKernels.BodyIsDft | fft/amd64/pass.go:918-941 | over numbers that round nothing, the body each radix's instructions compute, its turns from tables of the powers of the roots of 9 and 16, is the transform of its length, both directions |
| ExactKernels.RunIsPass | fft/amd64/pass.go:444-517 | so the kernel of each radix 2 to 20, its instructions run inside the loop, does one Stockham pass |
| ExactKernels.Body32IsDft | fft/amd64/radix32.go:368-417 | and the split body of radix 32 is the 32-point transform |
| ExactKernels.ScalarIsDft | fft/amd64/pass.go:307-435 | the scalar butterflies that the register bodies equal bit for bit are the transforms of 2, 3, 4 and 5 points |
| FloatPasses.RunSplit | fft/amd64/split.go:409-467 | the split loop leaves the same points in the layout of its output |
| FloatPasses.ChainsBitForBit | fft/amd64/split.go:13-37 | any chain of split passes that ends interleaved leaves the memory of the interleaved chain at 256 or at 512 bits |
| Arm64Bodies.RotSums | fft/arm64/pass.go:128-145 | exchanging the part registers and choosing add or subtract is the ±i rotation's sum and difference |
| Arm64Bodies.ArmBfly3 | fft/arm64/pass.go:155-176 | the radix-3 registers produce the bits of the compiled scalar pass, 1/2·t1 fused |
| Arm64Bodies.ArmBfly4 | fft/arm64/pass.go:178-204 | so do radix 4's, which are the common scalar butterfly's |
| Arm64Bodies.ArmBfly5 | fft/arm64/pass.go:206-245 | so do radix 5's, one product of each sum fused |
| Arm64Bodies.ArmBfly8 | fft/arm64/pass.go:247-320 | radix 8 with every √2/2 fused into the final sum, negated operands included, is the fused scalar butterfly |
| Arm64Bodies.ArmProduct | fft/arm64/pass.go:331-340 | the twiddle product on part registers has the bits of the compiled scalar product, whichever of its terms the compiler fuses for the radix |
| Arm64Bodies.CompiledMulIsScalar | fft/arm64/pass.go:34-38 | where fused products lose nothing, that product is the scalar one |
| Arm64Bodies.Compiled3IsScalar | fft/arm64/pass.go:34-38 | where fused products lose nothing, the compiled radix 3 is the scalar butterfly |
| Arm64Bodies.Compiled5IsScalar | fft/arm64/pass.go:34-38 | so is the compiled radix 5 |
| ExactKernels.ArmIsBasic | fft/arm64/pass.go:34-38 | over numbers that round nothing, every arm64 body is the basic butterfly of its radix |
| Arm64Pass.Streams.Run | fft/arm64/pass.go:322-402 | for radix 2, 3, 4, 5 and 8, every ido ≥ 2, odd or even, and every l1, the post-incremented streams, pair loop and lone last point leave in ch what the pass defines |
| TableOrders.PairOrder | fft/arm64/pass.go:42-50 | the arm64 table holds, for every pair of points, r − 1 pairs of powers, the even point's first |
| Arm64Split.LoadBlocks | fft/arm64/pass.go:741-782 | for radix 2 and 4 the zips of split pairs put point j of both blocks in the registers the interleaved kernel uses |
| Arm64Split.LoadBlocks8 | fft/arm64/pass.go:801-825 | so do radix 8's, whose last pairs reuse registers the first half has freed |
| Arm64Split.LoadTail | fft/arm64/pass.go:827-852 | the lone last block's points stand in lane 0 of the same registers |
| Arm64Last.LoadPoints8 | fft/arm64/pass.go:458-477 | the interleaved radix-8 blocks, zipped in halves through the same registers, stand where the split ones do |
| Arm64Last.LaidPoints | fft/arm64/pass.go:643-659 | a memory laid in either layout holds the points it was laid from |
| Arm64Last.LaidPairs | fft/arm64/pass.go:643-659 | four cells of the split layout are two real parts and then two imaginary ones |
| Arm64Last.Last.Run | fft/arm64/pass.go:404-512 | for radix 2, 3, 4, 5 and 8 (split: 2, 4 and 8) and every l1, odd or even, the pair loop and the lone last block leave in ch the final pass of the points of cc |
| Arm64Last.SplitIsInterleaved | fft/arm64/pass.go:741-852 | LastSplit on pairs of points stored split leaves the array Last leaves on the same points interleaved |
| Frames.TwoPlacement | fft/amd64/frames.go:27-58 | for every stack pointer and max the buffer is 64-byte aligned, above the arguments and inside the frame |
| Frames.ThreePlacement | fft/amd64/frames.go:104-151 | so is the first of two buffers; the second fits, and is aligned if and only if 4 divides max |
| Frames.Machine.TwoPass | fft/amd64/frames.go:27-58 | what is left at ch is the final pass of the first pass of the original cc, also when ch is cc, and nothing but ch and the stack changes |
| Frames.Machine.ThreePass | fft/amd64/frames.go:89-151 | the same for three passes, through x or through the second buffer when x is nil; every pass writes a buffer apart from the one it reads |
| FrameDft.TwoPassIsDft | fft/amd64/frames.go:13-22 | two kernels that run the stages of a two-stage plan, one after the other, leave the transform |
| FrameDft.ThreePassIsDft | fft/amd64/frames.go:89-103 | the same for three |
| FrameKernels.CallPass | fft/amd64/pass.go:444-517 | run on the points of some words, the pass loop is the kernel `FrameKernels.PassFunction`, at either width |
| FrameKernels.CallLast | fft/amd64/pass.go:519-557 | and the final loop is `FrameKernels.LastFunction` |
| FrameKernels.PassRunsStage | fft/amd64/pass.go:13-31 | that kernel runs the stage whose arithmetic and table its pointers name, the two words of a point being its parts |
| FrameKernels.LastRunsStage | fft/amd64/pass.go:519-557 | the final kernel, which reads no table, runs the stage with one point to a block |
| FrameKernels.TwoPassTransforms | fft/amd64/frames.go:13-58 | so the two-pass trampoline over those kernels leaves at ch, which may be cc, every bin of the transform of the points at cc |
| FrameKernels.ThreePassTransforms | fft/amd64/frames.go:89-151 | and so does the three-pass one, through x or its own second buffer |
| Trampolines.TwoPassDft | fft/amd64/frames.go:13-58 | with the kernels, constants and tables of any plan of two of the twelve radices, from words that hold the real part of point n at cc + 16·n and the imaginary part 8 further, the two-pass trampoline leaves at ch + 16·k and 8 further the parts of bin k of the transform |
| Trampolines.ThreePassDft | fft/amd64/frames.go:89-151 | the same, word for word, for any plan of three |
| Trampolines.TwoPassBits | fft/amd64/frames.go:13-58 | over floats, whatever the butterflies, from the parts of the points at cc the two-pass trampoline over the 256-bit or the 512-bit kernels leaves at ch, word for word, the bits of the scalar passes |
| Trampolines.ThreePassBits | fft/amd64/frames.go:89-151 | and so does the three-pass one |
| Untangle.Cursors.Untangle | fft/amd64/untangle.go:131-183 | the three-step loop and the one-step tail make of input bin k and its mirror m − k the output bin k and its mirror, for k from 1 to 2·pairs, each once, in place or not, and nothing else |
| Untangle.Cursors.Untangle512 | fft/amd64/untangle.go:252-349 | four bins at a time and then the tail jump with rewritten arguments leave the same array as the 256-bit kernel alone, for every split into quads and pairs |
| Untangle.RoundTrip | fft/amd64/untangle.go:21-36 | if one combination undoes the other for each bin's twiddle, running both restores every bin and mirror and touches nothing else, whatever the slices |
| Untangle.RoundTripInPlace | fft/amd64/untangle.go:21-36 | in place, the whole array is restored |
| UntangleBins.UntangleStep | fft/amd64/untangle.go:67-94 | the untangle instructions, with VADDSUBPD or with the 512-bit flip and add, produce the reference's bits |
| UntangleBins.RetangleStep | fft/amd64/untangle.go:95-116 | so do the retangle instructions |
| RealTransform.ExactBins | fft/amd64/untangle.go:15-45 | the reference formulas with exact operations are the ones the next results are about |
| RealTransform.RetangleUndoesUntangle | fft/amd64/untangle.go:21-45 | for a twiddle on the unit circle, retangle after untangle is 2h times the points, so the identity at h = 1/2 |
| RealTransform.UntangleUndoesRetangle | fft/amd64/untangle.go:21-45 | and untangle undoes retangle |
| RealTransform.ArraysRestored | fft/amd64/untangle.go:21-45 | whole arrays: every bin and mirror restored, everything else kept |
| RealTransform.UntangledIsTransform | fft/amd64/untangle.go:15-30 | untangling bins k and m − k of the transform of m paired reals gives bins k and m − k of the transform of the 2m reals |
| RealKernels.UntangleReals | fft/amd64/untangle.go:131-183 | given the transform of m paired reals in its bins and mirrors, the kernel at 256 or 512 bits leaves in cell d + k bin k of the transform of the 2m reals, k up to 2·pairs and from m − 2·pairs, and every other cell as it was |
| RealKernels.RetangleReals | fft/amd64/untangle.go:131-183 | and retangle leaves, from the bins of the 2m reals, 2h times those of the m paired reals |
| RealKernels.RetangledIsTransform | fft/amd64/untangle.go:31-45 | the combination retangle makes of two bins of the transform of 2m reals is 2h times the same bins of the paired transform |
| Simd.FirstLane | wasm/emit.go:158-165 | the trailing zeros of a lane bitmask are the number of the first lane set |
| Simd.ProductHalves | examples/wasm/base64_encode/main.go:152-230 | lane for lane, widening products, shifts and saturating narrows together are the high half of the 16-bit product, and the plain multiply its low half |
| Scans.MatchLen16 | examples/wasm/matchlen/main.go:56-133 | whenever its chunk loop stops in time, the result is the length of the longest common prefix bounded by limit, byte for byte, and it is what the instructions return |
| Scans.MatchesExactly | examples/wasm/matchlen/main.go:56-133 | for every limit and all buffers, the call returns that prefix if and only if the limit is below 2^31 − 16, or the buffers differ before it, or the chunk there can be loaded and differs; else any value returned is negative |
| Scans.MissesAtEdge | examples/wasm/matchlen/main.go:56-133 | 2^31 equal bytes and a limit of 2^31 − 16: the right count is never returned |
| Scans.MemChr | examples/wasm/memchr/main.go:79-139 | as an i32 the result is −1 if and only if no byte of the blocks is the needle, and otherwise it is the least offset of one, positive as it stands over up to 2^31 bytes |
| Scans.IndexAny4 | examples/wasm/indexany4/main.go:87-171 | the same for any of four bytes |
| Scans.SignExactly | examples/wasm/memchr/main.go:28-35 | what is found is no less than 0 for all contents of n bytes if and only if n is at most 2^31 |
| Scans.FarMatch | examples/wasm/memchr/main.go:28-35 | with more bytes, the only needle at 2^31, the answer is that offset, which is negative as an i32 |
| Utf8Len.Run | examples/wasm/utf8len/main.go:91-143 | the result is the number of bytes that are not continuations |
| Utf8Len.LeadersAreRunes | examples/wasm/utf8len/main.go:3-40 | which, for every text encoded as section 3 of RFC 3629 says, is its number of characters |
| TextCodes.LeadersAreCounted | examples/wasm/utf8len/main.go:3-40 | the count is the number of places in the text whose byte is not one of 128 to 191 |
| TextCodes.RuneIsCarried | examples/wasm/utf8len/main.go:3-40 | the bytes of an encoded character carry its number, six bits to a continuation, in as few bytes as section 3 of RFC 3629 allows |
| Adler32.Telescoped | examples/wasm/adler32/main.go:5-54 | sixteen steps of the byte recurrence are one block update: a plus the sum, b plus 16·a plus the weighted sum |
| Adler32.WeightedIsSum | examples/wasm/adler32/main.go:115-200 | the widening products and pairwise sums give the weighted sum, no lane overflowing |
| Adler32.SumsFit | examples/wasm/adler32/main.go:5-54 | with 347 blocks and reduced starts neither sum reaches 2^32 |
| Adler32.Run | examples/wasm/adler32/main.go:115-215 | the two words stored are the unreduced sums of all the input bytes, and no other byte changes |
| Adler32.ReduceOnce | examples/wasm/adler32/main.go:5-54 | reducing mod 65521 once at the end of a segment equals reducing at every byte |
| Adler32.SegmentsCheck | examples/wasm/adler32/main.go:5-54 | however the input is cut into segments, the result is the checksum of sections 2.2 and 9 of RFC 1950 |
| AdlerSums.BaseIsLargestPrime | examples/wasm/adler32/main.go:5-12 | the modulus is the largest prime below 2^16 |
| AdlerSums.ReduceOncePrime | examples/wasm/adler32/main.go:5-54 | reducing at every byte by the largest prime q below 2^16 gives the sum of the bytes and the sum weighted by their distance from the end, each mod q |
| AdlerSums.ChecksumIsSums | examples/wasm/adler32/main.go:5-12 | the checksum holds those two sums, started from 1 and 0, the weighted one in the high half |
| AdlerSums.LittleEndian | examples/wasm/adler32/main.go:201-215 | a stored word has its least significant byte first |
| Adler32Driver.Check | examples/wasm/adler32/main.go:15-54 | the caller's loop, at most 347 blocks to a call, both words reduced between calls and the last bytes added one at a time, returns the checksum of the whole input and changes nothing but the two words |
| Base64.BlockIsEncoded | examples/wasm/base64_encode/main.go:152-277 | the two masked multiply rounds and the range adds turn each triplet into its four characters, whatever the four bytes read past the block |
| Base64.Encode | examples/wasm/base64_encode/main.go:152-277 | 16·n bytes equal to section 4 of RFC 4648 applied to the 12·n input bytes, and nothing else written |
| TextCodes.EncodedMemory | examples/wasm/base64_encode/main.go:152-277 | cell by cell, the letter of table 1 of RFC 4648 of each base-64 digit of each triplet, the first byte the highest, and every other cell as it was |
| Base64Decode.Decode | examples/wasm/base64_decode/main.go:136-283 | with 16-byte stores 12 apart, each block's junk is overwritten by the next: 12·n bytes are the decoded input and only 4 bytes past them change |
| TextCodes.DecodedMemory | examples/wasm/base64_decode/main.go:136-283 | from the letters of a text, its bytes, and no cell but four past them changed |
| Base64Decode.DecodeEncode | examples/wasm/base64_decode/main.go:104-112 | decoding undoes encoding for every input of whole triplets |
| Base64Decode.EncodeDecode | examples/wasm/base64_decode/main.go:104-112 | encoding undoes decoding for every string over the alphabet |
| Hex.Encode | examples/wasm/hex/main.go:97-174 | 32·n characters spell the 16·n input bytes, and nothing else is written |
| Hex.Decode | examples/wasm/hex_decode/main.go:109-213 | 8·n bytes are the decoded characters, and nothing else is written |
| TextCodes.HexMemory | examples/wasm/hex/main.go:97-174 | cell by cell, the two digits of each byte, the high one first, from 0-9 and a-f |
| TextCodes.UnhexedMemory | examples/wasm/hex_decode/main.go:109-213 | from two digits to a byte, each in either case, the bytes, and every other cell as it was |
| Hex.DecodeEncode | examples/wasm/hex_decode/main.go:109-213 | decoding undoes encoding, the letters in either case |
| Hex.EncodeDecode | examples/wasm/hex/main.go:97-174 | encoding undoes decoding up to the case of letters |
| Abi.AlignIsLeast | abi/abi.go:53-54 | the rounded offset is the least multiple of the alignment that is not smaller |
| Abi.AggregateAlign | abi/abi.go:138-148 | the loop finds the widest field |
| Abi.LayoutArgs | abi/abi.go:153-185 | the closure and loops compute the layout the following rows are about |
| Abi.LayoutOrdered | abi/abi.go:153-185 | for scalars and aggregates of sizes 1, 2, 4 and 8, all slots are aligned, in order, apart and inside the frame, and results start on a word |
| Abi.OrderedApart | abi/abi.go:153-185 | slots in order do not overlap, pairwise |
| Abi.LayoutIsLegal | abi/abi.go:138-185 | the slots of the frame are those of a legal choice: every argument at a multiple of its alignment after the one before, every field at a multiple of its size after the one before, an aggregate's size a multiple of its widest field, results from a word on |
| Abi.FieldsLeast | abi/abi.go:138-148 | no legal choice puts a field of an aggregate lower, or makes it end lower, than the layout does |
| Abi.LayoutIsLeast | abi/abi.go:149-185 | no legal choice puts any slot of the frame lower, or ends the arguments or the frame lower |
| Abi.LayoutInOrder | abi/abi.go:153-185 | the slots of the frame are in order if and only if, arguments then results, no scalar of size 0 comes after something that takes room |
| Abi.EightByEight | fft/amd64/kernels.go:108-116 | when every argument is eight bytes wide, argument i is at 8·i |
| Abi.EmptyStructOverlaps | abi/abi.go:102-104 | with a struct declared without fields between them, two arguments share offset 0 |
| Abi.NeverBack | abi/abi.go:153-185 | an argument moves the offset back if and only if it is such a scalar of size 0 |

## Left out

- Text rendering, instruction encodings, file writing and the command-line tools: the programs are modelled, not the strings that spell them.
- The float32 families, the complex-product kernels, `fft/arm64/untangle.go` and the SSE2 kernels repeat the shapes above at another width.
- The arm64 batched pass and the stream registers of the split pass: the interleaved pass loop, both final passes, and the pair layout (`SplitLayout`, group size 2) are modelled.
- toupper, isascii, json_clean and popcount: weaker forms of the scan kernels.
- IEEE rounding, NaN payloads and the digits of constants: `Floats.IsArith` treats sums and products as commutative, which IEEE 754 leaves open for the payload of a NaN result.
- The multi-pass driver and `StockhamTwiddles` are not part of this model; the tables are defined by what the kernels read, and `Plans.PowerTableServes` shows that such tables exist.
- The registers and slots of the class `Radix32Kernel.R32`: the loop takes the two stages as functions, and `R32Registers.Body32` proves the body of one point on numbered registers; the two are not run in one method as `RegisterPass` and `LastRadix32` do.
- Plans.KernelPlansAreDft: asks of each radix r in the plan that its constants be the parts of w^(n/r); that the stored digits approximate them is rounding and not modelled.
- Trampolines.TwoPassDft: a constants pointer and a table pointer stand for the arithmetic and the table they address; the words of a real-number memory hold real numbers, and floating-point words get the bits of the scalar passes instead (`Trampolines.TwoPassBits`).
- Trampolines.ThreePassDft: likewise.
- Trampolines.TwoPassBits: the scalar passes are those of the butterflies the caller names; that a radix's instructions compute its butterfly is `RegisterPass.Butterfly`.
- Trampolines.ThreePassBits: likewise.
- RegisterPass.Run: the tables of the turns inside radix 9 and 16 are parameters, and a turn is one product whose own instructions are `FloatTurns.RotC`.
- FloatTurns.RotC: a sign flip of a factor is taken to flip the product, NaN payloads aside.
- Untangle.Cursors.Untangle: input and output are the same slice or lie in different arrays; the duplicating load's read of one more real part past the last twiddle, which the wrappers' bound check covers, is not modelled.
- SplitKernel.SplitPass.Run: the last group's layout (split or interleaved) is the body's load and store; alignment of the arrays is not modelled.
- Frames.Machine.TwoPass: memory is a function of word addresses without wrap-around at 2^64, a kernel is a function of the words it reads and its counts, and it may clobber registers and the stack below its frame.
- Frames.Machine.ThreePass: as for the two-pass trampoline; the address table and FUNCDATA strings are left out.
- Scans.MatchLen16: a method that must end cannot have the runs that never do; `Scans.MatchesExactly` speaks of all runs through the instructions one at a time.
- Adler32.Run: requires the documented bounds, at most 347 blocks and reduced starts; `Adler32Driver.Check` meets them on every call.
- Base64.Encode: input and output regions are disjoint; with overlap the emitted loop's result is unspecified.
- Base64Decode.Decode: characters outside the alphabet are decoded to something the model computes but promises nothing about.
