# StreamIt: verified model

StreamIt compiles and runs stream programs. This project models the algorithms its C and cluster
runtimes rest on, and two libraries its compiler uses, and proves what they are for. Methods on
classes and arrays follow the code's loops and branches; each is proved against functions on values,
and the claims that span many calls, runs or nodes are lemmas about those functions.

| file | what it models |
|---|---|
| Bits.dfy, Ring.dfy, Seq.dfy | powers of two and bitwise "and"; commutative rings with powers and finite sums; what several modules need of sequences |
| Fourier.dfy, Fft.dfy | the radix-2 transform over any ring with roots of unity; the in-place code in exact complex arithmetic |
| Eta.dfy, EtaFile.dfy, BasisInverse.dfy | lp_solve's product form of the inverse: eta columns, the eta arrays, the basis through pivots |
| BranchBound.dfy | lp_solve's branch-and-bound over a relaxation oracle |
| Partitioner.dfy | the greedy cut of a stream graph into machines |
| Getopt.dfy, GetoptEnd.dfy, GetoptForms.dfy, GetoptReports.dfy | GNU getopt: long and short options, the three orderings, permutation in place, what a call reports in each case (IEEE Std 1003.1, Base Definitions section 12.2) |
| Rollback.dfy, Network.dfy | speculation and rollback: a node on values; acyclic networks of nodes |
| FrameBuffer.dfy, StreamNode.dfy, SyncNode.dfy | what stands in a consumer's two buffers; the consumer, the producer and the run loop between one of each; the run loop with any number of inputs and outputs |
| Firings.dfy, SyncFirings.dfy | what a node computes and sends, firing by firing, over the streams that have come to it |
| Checkpoint.dfy, StaleReports.dfy, Epochs.dfy, CheckpointCode.dfy | saving, reporting, collecting and recovering checkpoints as a state machine; what reports from before a recovery do; one recovery after another; the code of each part |
| Channel.dfy, MemSocket.dfy, RingSocket.dfy | a FIFO channel; the two in-memory sockets as interleaved steps with locks and condition variables |
| BlockStream.dfy, StreamRun.dfy, ByteStream.dfy | items over blocks and bytes over buffers, end to end; the first with the socket between in one run |
| Tape.dfy, SplitJoin.dfy, SplitJoinRun.dfy | tapes, the four-way block copy, weighted round-robin splitters and joiners, and both over a schedule |
| DynTape.dfy | the growing ring buffer |
| Sdep.dfy, Random.dfy | the periodic dependency table and its lookups; the 48-bit linear congruential generator |

Where a property does not hold of the code as written, the model keeps the code, and a lemma gives the
exact condition under which the property holds; an example lemma or the failing half of the proof gives
an input on which it does not:

- restoring a repeated frame after pseudo-frames: `FrameBuffers.RestoredExactly`, with `LostExample`
- outputs after an empty last version: `Rollback.SentLatest`, with `StaleExample`; in a network, `Networks.NetworkExact`
- ids that disagree between the inputs of a node: `SyncNodes.SyncNode.RunSync`, with `Networks.SilentExample`
- recovering from a file that has not been written to its end, now or in an epoch before: `Checkpoint.RecoveryWhole`, with `Epochs.TornRecovery` and `TornLater`
- deletion bounds from reports before a recovery: `StaleReports.SafeIffHarmless` and `SafeIffReportedLow`, with `StaleReportUnsafe`
- the first -1 of getopt as the end: `GetoptEnds.MinusOneEnds`, with `EarlyExample`
- going on without blocks: `MemSockets.StuckWithoutBlocks`
- the dependency lookups at phase 0: `Sdeps.AnswerConnects`
- buffer sizes for estimates above 2^30: `DynTapes.P2CeilFits`

Many predicates come in pairs such as `Clean` and `CleanAt`: the first says `forall u :: CleanAt(u, ..)`
of a parameter that the second does not use. The two mean the same, but the verifier sees the definition
only where a proof names an instance, `assert CleanAt(0, ..)`. This keeps quantifiers, products and
recursive functions out of the proofs of methods that merely hand such a fact on.

Real arithmetic is exact. Sines and cosines are functions of which parity, the unit circle, the
double-angle formulas and the values at pi are required. The socket, the file system and the upstream workers
are values: a sequence of blocks or bytes still to come, a set of files, a script of what each pass
pushes. A call that would block returns `done == false`.

## Model

| member | source | states |
|---|---|---|
| Fft.IsPowerOfTwo | streams/library/c/streamit_fft.c:55-64 | the and-trick says yes exactly for the powers of two from 2 on |
| Fft.NumberOfBitsNeeded | streams/library/c/streamit_fft.c:67-86 | the position of the first set bit is the base-2 logarithm |
| Fft.ReverseBits | streams/library/c/streamit_fft.c:90-101 | the shift loop computes the recursive bit reversal |
| Fourier.ReversedInvolution | streams/library/c/streamit_fft.c:90-101 | reversing the low n bits twice gives the number back, so the copy into the outputs is a permutation |
| Fft.BitReversedCopy | streams/library/c/streamit_fft.c:149-158 | input element i lands at the reversed index, a missing imaginary input counts as zero, nothing past the samples changes |
| Fourier.StageZero | streams/library/c/streamit_fft.c:149-158 | the bit-reversed input is stage 0 of the decimation-in-time recursion |
| Fourier.Butterfly | streams/library/c/streamit_fft.c:193-201 | a sum and a difference of two half-size transforms, the second twisted by a power of the root, are the two halves of the full-size transform |
| Fourier.StageStep | streams/library/c/streamit_fft.c:175-203 | for every block and every index, one butterfly with factor w^n takes stage b to stage b + 1 |
| Fft.TwiddleStep | streams/library/c/streamit_fft.c:185-191 | one step of the two-term recurrence multiplies by w, on the unit circle |
| Fft.TwiddlesAdvance | streams/library/c/streamit_fft.c:177-191 | after n steps the recurrence has produced w^n |
| Fft.TwiddlesStart | streams/library/c/streamit_fft.c:167-181 | cosine and sine of minus once and minus twice the angle are w^-1 and w^-2, where the recurrence starts |
| Fft.TrigRoots | streams/library/c/streamit_fft.c:140-171 | for any sine and cosine with parity, the unit circle, the double-angle formulas and the values at pi, the roots they describe square down to -1 and 1 |
| Fft.Block | streams/library/c/streamit_fft.c:175-203 | the innermost loop, in place: all butterflies of one block, nothing outside the block changes |
| Fft.Pass | streams/library/c/streamit_fft.c:164-206 | one pass over all blocks takes the arrays from stage b to stage b + 1 |
| Fft.Passes | streams/library/c/streamit_fft.c:160-206 | all passes leave the discrete Fourier transform X[k] = sum of x[j] w^(jk), w the root Fft.RootsWritten writes out |
| Fft.RootsWritten | streams/library/c/streamit_fft.c:127-141 | forward the root is cos(2 pi / N) + i sin(2 pi / N), for the inverse its conjugate |
| Fft.ForwardWritten | streams/library/c/streamit_fft.c:116-206 | the forward transform at k is the sum of x[j] (cos(2 pi / N) + i sin(2 pi / N))^(jk) |
| Fft.InverseWritten | streams/library/c/streamit_fft.c:116-222 | the inverse transform at k is the sum of x[j] (cos(2 pi / N) - i sin(2 pi / N))^(jk), divided by N |
| Fft.FftFloat | streams/library/c/streamit_fft.c:116-222 | the outputs hold the transform (for the inverse, divided by the size) of the inputs as they were; sizes that are no power of two from 2 on are refused and change nothing |
| Fourier.Orthogonality | streams/library/c/streamit_fft.c:116-222 | the powers of a root of unity of order 2^m sum to 2^m or to 0 |
| Fourier.InverseAfterForward | streams/library/c/streamit_fft.c:116-222 | over any commutative ring with such roots, the scaled inverse transform undoes the transform |
| Fft.TransformRoundTrip | streams/library/c/streamit_fft.c:116-222 | reverse after forward, and forward after reverse, is the identity, for every power-of-two size |
| Fft.ElementMultiply | streams/library/c/streamit_fft.c:40-53 | element-wise complex multiplication |
| Fourier.ConvolutionTheorem | streams/library/c/streamit_fft.c:231-264 | the transform of a circular convolution is the product of the transforms |
| Fft.TransformedConvolution | streams/library/c/streamit_fft.c:231-264 | multiplying by the filter in the frequency domain and transforming back is circular convolution in the time domain |
| Fft.DoFastConvolution | streams/library/c/streamit_fft.c:231-264 | x[i] becomes the sum of x[j] h[(i - j) mod N], h the real part of the inverse transform of the filter, in place |
| EtaFiles.EtaFile.Ftran | streams/3rdparty/lpsolve/solve.java:1889-1909 | scattering forwards through columns start to end is the product of their elementary matrices applied to the vector |
| EtaFiles.EtaFile.Btran | streams/3rdparty/lpsolve/solve.java:1911-1925 | gathering backwards is the transposed product applied to the row |
| Eta.Adjoint | streams/3rdparty/lpsolve/solve.java:1889-1925 | dot(btran(row), col) = dot(row, ftran(col)) for every eta file, row and column |
| Eta.ForwardAllLinear | streams/3rdparty/lpsolve/solve.java:1889-1909 | ftran is linear |
| Eta.ForwardAllInjective | streams/3rdparty/lpsolve/solve.java:1889-1909 | with non-zero pivots ftran is injective |
| EtaFiles.EtaFile.ResizeEta | streams/3rdparty/lpsolve/solve.java:1984-1996 | doubling the arrays keeps every finished column |
| EtaFiles.EtaFile.CondenseCol | streams/3rdparty/lpsolve/solve.java:1999-2020 | the non-zeros of the column follow the last finished one, the pivot row last |
| EtaFiles.EtaFile.AddEtaCol | streams/3rdparty/lpsolve/solve.java:2023-2036 | the pending column, inverted at its pivot, becomes the next finished column |
| Eta.ForwardPivot | streams/3rdparty/lpsolve/solve.java:1889-2036 | one eta column performs one Gauss-Jordan step |
| Eta.PivotColumnToUnit | streams/3rdparty/lpsolve/solve.java:1889-2036 | the step sends the pivot column to the unit vector of its row |
| Eta.PivotKeepsUnit | streams/3rdparty/lpsolve/solve.java:1889-2036 | the step keeps the unit vectors of all other rows |
| BasisInverse.Simplex.SetPivCol | streams/3rdparty/lpsolve/solve.java:2038-2064 | the pivot column is the variable's column through all etas, the sign turned at the upper bound |
| BasisInverse.ColumnMeans | streams/3rdparty/lpsolve/solve.java:2038-2062 | a variable's column: for a slack the unit column of its row, otherwise the value stored last for each row, less Extrad in row 0; all of it negated at the upper bound |
| BasisInverse.Simplex.RhsMinCol | streams/3rdparty/lpsolve/solve.java:2113-2140 | theta times the raw column is subtracted from the right-hand side, theta takes the pivot row, and the basic variable of the row is exchanged |
| BasisInverse.RhsByPivot | streams/3rdparty/lpsolve/solve.java:2113-2140 | subtracting the raw column and storing theta is what the finished eta column does |
| BasisInverse.PivotKeeps | streams/3rdparty/lpsolve/solve.java:2274-2291 | one pivot on values: Bas stays injective, Basis its characteristic function, and the etas invert the new basic columns |
| BasisInverse.Simplex.Pivot | streams/3rdparty/lpsolve/solve.java:2274-2291 | condense, carry the right-hand side, exchange and finish, in place, keep all of it and change exactly one basic variable |
| BasisInverse.RepresentsSolves | streams/3rdparty/lpsolve/solve.java:1889-2140 | in every consistent state ftran sends each basic column to the unit vector of its row, Rhs is ftran of the initial right-hand side, and the basic columns combined with Rhs give that right-hand side back |
| BasisInverse.Simplex.constructor | streams/3rdparty/lpsolve/solve.java:2196-2219 | the slack basis with an empty eta file is consistent |
| BasisInverse.Simplex.EnterBasis | streams/3rdparty/lpsolve/solve.java:2274-2291 | the variable enters at the first free row with a non-zero pivot, or every free row has a zero there |
| BasisInverse.Simplex.PivotFlagged | streams/3rdparty/lpsolve/solve.java:2274-2291 | the loop succeeds exactly when the flagged columns are linearly independent modulo the columns of the rows that were not free; then each enters at the first free row with a non-zero pivot and every other row keeps its variable; otherwise it stops at a column that has only zeros in the rows still free |
| BasisInverse.EnteredIndependent | streams/3rdparty/lpsolve/solve.java:2274-2291 | columns that have all entered are independent: no combination of them and the kept columns vanishes but the trivial one |
| BasisInverse.StuckDependent | streams/3rdparty/lpsolve/solve.java:2274-2291 | a column with only zeros in the free rows is a combination of kept columns and columns that have entered |
| BranchBound.Solver.FirstNonInteger | streams/3rdparty/lpsolve/solve.java:3106-3125 | the first variable that must be an integer, is not one, and is not fixed; 0 if there is none |
| BranchBound.WidthCut | streams/3rdparty/lpsolve/solve.java:3185-3263 | either side of a cut at a non-integral value has a strictly narrower integer box |
| BranchBound.TotalWidthDecreases | streams/3rdparty/lpsolve/solve.java:3185-3263 | so the total width of the box over the integer variables is a termination measure |
| BranchBound.BoundsSplit | streams/3rdparty/lpsolve/solve.java:3185-3263 | a value that bounds both sides of the cut bounds the whole box |
| BranchBound.Solver.Branch | streams/3rdparty/lpsolve/solve.java:3155-3270 | both subproblems, conflicting bounds skipped: the incumbent bounds the box and never gets worse; a new one from the side searched last, ceiling or floor, is strictly better than every candidate on the other side |
| BranchBound.Problem.AnswerMeans | streams/3rdparty/lpsolve/solve.java:2998-3104 | what the relaxation's answer says: unbounded exactly if there are feasible points of every quality, no use exactly if there are some and none is better than the incumbent |
| BranchBound.Solver.MilpSolve | streams/3rdparty/lpsolve/solve.java:2998-3303 | whatever the relaxation oracle answers within its specification: unless the search is broken off, the incumbent afterwards is at least as good as every feasible point of the box with its integer variables integral; it never gets worse; OPTIMAL exactly if it has changed, to a feasible point within the bounds; UNBOUNDED exactly if the box has feasible points of every quality; MILP_FAIL exactly if it has some and none is better than the incumbent before; INFEASIBLE otherwise; broken off exactly if a new incumbent beats the break value asked for |
| BranchBound.Solver.DoSolve | streams/3rdparty/lpsolve/solve.java:3305-3353 | the same for the whole problem from a fresh incumbent |
| BranchBound.Solver.AcceptedIsInteger | streams/3rdparty/lpsolve/solve.java:3106-3125 | with integral bounds an accepted solution has integral values for all variables that must be integers |
| Partitioner.Ccp.AllPrevAdded | streams/library/cluster/ccp.cpp:213-216 | whether all senders of a thread have been added |
| Partitioner.Ccp.StartMachine | streams/library/cluster/ccp.cpp:205-228 | threads whose senders are all added start the machine while the load permits, and nothing else is placed |
| Partitioner.Ccp.PushReady | streams/library/cluster/ccp.cpp:240-269 | receivers that have become ready join the machine while the load permits; none that fits is left out |
| Partitioner.Ccp.Drain | streams/library/cluster/ccp.cpp:230-270 | the queue loop ends with every placed thread added |
| Partitioner.ReadyExists | streams/library/cluster/ccp.cpp:205-228 | as long as threads remain in an acyclic graph, one of them is ready |
| Partitioner.EmptyMeansDone | streams/library/cluster/ccp.cpp:205-228 | so a machine stays empty only when no thread remains |
| Partitioner.FilledIsPartition | streams/library/cluster/ccp.cpp:166-275 | after the last machine the whole claim about the cut holds, as machines are closed only when full |
| Partitioner.Ccp.FindPartition | streams/library/cluster/ccp.cpp:166-275 | on every acyclic graph every thread is on exactly one machine below num_p, data never flows to an earlier machine, machines in use come first, and every machine but the last is below its target or has at most one thread with work; a machine is closed only when nothing more fits: a thread placed later although all its senders were on machines up to this one would have reached the target |
| Getopts.Exchange | streams/3rdparty/gnu/getopt/Getopt.java:788-836 | the swaps in place rotate the two adjacent blocks, keeping the order inside each |
| Getopts.BottomShorter | streams/3rdparty/gnu/getopt/Getopt.java:798-813 | moving a shorter bottom block leaves a smaller rotation to be done |
| Getopts.TopShorter | streams/3rdparty/gnu/getopt/Getopt.java:814-829 | moving a shorter top block leaves a smaller rotation to be done |
| Getopts.Getopt.ExchangeNonoptions | streams/3rdparty/gnu/getopt/Getopt.java:1033-1038 | the exchange and the record update keep the arrangement of what has been passed |
| Getopts.SelectsOne | streams/3rdparty/gnu/getopt/Getopt.java:866-909 | the rule for exact, unique, ambiguous and missing long options determines the outcome |
| Getopts.MatchLong | streams/3rdparty/gnu/getopt/Getopt.java:866-909 | the scan of the long options obeys that rule: exact matches win, then a unique abbreviation |
| Getopts.Getopt.CheckLongOption | streams/3rdparty/gnu/getopt/Getopt.java:850-996 | result and all fields, for every long option, argument form and error |
| Getopts.DecodeMoves | streams/3rdparty/gnu/getopt/Getopt.java:1101-1334 | decoding never goes back, stays within argv and takes at most three elements |
| Getopts.DecodeSuffix | streams/3rdparty/gnu/getopt/Getopt.java:1101-1334 | decoding looks only at the elements from optind on, so permuting earlier ones does not change it |
| Getopts.CallMoves | streams/3rdparty/gnu/getopt/Getopt.java:1014-1334 | every call but the last makes progress, so the calls end |
| Getopts.Getopt.PermuteArgs | streams/3rdparty/gnu/getopt/Getopt.java:1031-1049 | passed non-options and processed options stay a stable arrangement of the original arguments |
| Getopts.Getopt.EndOptions | streams/3rdparty/gnu/getopt/Getopt.java:1051-1067 | "--" joins the options, the rest the non-options |
| Getopts.Getopt.NextElement | streams/3rdparty/gnu/getopt/Getopt.java:1022-1099 | the next option element, or what the call returns without one, in all three orderings |
| Getopts.Getopt.GetOpt | streams/3rdparty/gnu/getopt/Getopt.java:1014-1334 | what a call reports on the permuted array is what a scan of the original arguments reports; when the scan ends in permuting order, argv is the options in order followed by the non-options in order and optind the boundary, otherwise argv is unchanged |
| Getopts.Getopt.ReadOptions | streams/3rdparty/gnu/getopt/Getopt.java:95-118 | the documented loop up to the first -1 sees what a loop over the scan of the original arguments sees and stops where it stops; at the end of the scan argv is arranged as after the last call, before it the parser is ready for the next call; in both cases argv is a permutation of the arguments given |
| GetoptEnds.MinusOneEnds | streams/3rdparty/gnu/getopt/Getopt.java:1014-1334 | -1 is reported exactly when the scan ends, for all arguments and from every point of the scan, if and only if no unflagged long option with value -1 can be selected: by as much of its name as can be typed, an empty name only with an argument or after "-W" |
| GetoptEnds.NothingMissed | streams/3rdparty/gnu/getopt/Getopt.java:95-118 | without such an option the documented loop sees every report and ends where the scan ends |
| GetoptEnds.EarlyExample | streams/3rdparty/gnu/getopt/Getopt.java:968-996 | with the one long option x of value -1, the arguments --x a make the first call report -1, and a is never reached: an example |
| GetoptEnds.HiddenExample | streams/3rdparty/gnu/getopt/Getopt.java:866-909 | an option of value -1 with the same name as an earlier one does no harm: an example |
| GetoptForms.Cluster | streams/3rdparty/gnu/getopt/Getopt.java:69-71 | "-abc" is "-a -b -c": every letter of a cluster of options without arguments is reported in turn, and the scan goes on behind it |
| GetoptForms.ArgumentEitherWay | streams/3rdparty/gnu/getopt/Getopt.java:71-74 | a required argument may follow its letter in the same element or be the next element |
| GetoptForms.LongArgumentEitherWay | streams/3rdparty/gnu/getopt/Getopt.java:197-201 | a required argument of a long option, abbreviated or not, may follow a "=" or be the next element |
| GetoptForms.LongByWIsLong | streams/3rdparty/gnu/getopt/Getopt.java:208-216 | "-W text" is "--text" |
| GetoptReports.UnknownLetter | streams/3rdparty/gnu/getopt/Getopt.java:1160-1196 | a letter not described, or ':': '?', with the letter in optopt |
| GetoptReports.PlainLetter | streams/3rdparty/gnu/getopt/Getopt.java:1160-1333 | a letter without an argument is reported, and the letters behind it come next |
| GetoptReports.OptionalAfterLetter | streams/3rdparty/gnu/getopt/Getopt.java:1245-1262 | an optional argument is the rest of the element, never the next argument |
| GetoptReports.ArgumentAfterLetter | streams/3rdparty/gnu/getopt/Getopt.java:1263-1330 | a required argument is the rest of the element, or else the next argument |
| GetoptReports.MissingAfterLetter | streams/3rdparty/gnu/getopt/Getopt.java:1270-1286 | a required argument missing at the end: ':' if optstring begins with ':', otherwise '?', with the letter in optopt |
| GetoptReports.DashesAfterLetter | streams/3rdparty/gnu/getopt/Getopt.java:1292-1326 | in POSIX mode a "--" in the place of the argument is passed over, the one behind it taken and the options end; without one it is missing |
| GetoptReports.LongWithValue | streams/3rdparty/gnu/getopt/Getopt.java:910-993 | "name=value" for an option that takes an argument, after dashes or after -W |
| GetoptReports.LongTakesNone | streams/3rdparty/gnu/getopt/Getopt.java:912-952 | "name=value" for an option that takes none: '?', with the option's value in optopt |
| GetoptReports.LongTakesNext | streams/3rdparty/gnu/getopt/Getopt.java:954-960 | the name alone of an option that requires an argument takes the next one |
| GetoptReports.LongMissing | streams/3rdparty/gnu/getopt/Getopt.java:961-977 | that argument missing at the end: ':' or '?' by the first character of optstring, with the option's value in optopt |
| GetoptReports.LongAlone | streams/3rdparty/gnu/getopt/Getopt.java:954-993 | the name alone of any other option never takes the next argument |
| GetoptReports.LongAmbiguous | streams/3rdparty/gnu/getopt/Getopt.java:893-909 | an ambiguous name: '?', with 0 in optopt |
| GetoptReports.LongUnknown | streams/3rdparty/gnu/getopt/Getopt.java:1112-1156 | a name that is no option's, nor letters: '?', with 0 in optopt |
| GetoptReports.UnknownAfterW | streams/3rdparty/gnu/getopt/Getopt.java:1224-1242 | after -W a name that is no option's is left to the program as an argument of 'W' |
| GetoptReports.MissingAfterW | streams/3rdparty/gnu/getopt/Getopt.java:1207-1223 | -W at the end: the name is missing, with 'W' in optopt |
| GetoptReports.EndReported | streams/3rdparty/gnu/getopt/Getopt.java:1042-1079 | at "--" and at the end of the arguments -1 is reported, and what is left are operands |
| GetoptReports.NonOptionReported | streams/3rdparty/gnu/getopt/Getopt.java:1081-1091 | an argument that is no option ends the scan, or is reported as the argument of an option of value 1 |
| GetoptReports.EveryCall | streams/3rdparty/gnu/getopt/Getopt.java:1014-1334 | every call decodes an element or stops where there is no option; with EveryLetter and EveryText, the cases above are all |
| Getopts.SelectPermutes | streams/3rdparty/gnu/getopt/Getopt.java:1014-1334 | options followed by non-options are a permutation of the arguments |
| Getopts.Operands | streams/3rdparty/gnu/getopt/Getopt.java:1014-1334 | every argument left as a non-option does not look like an option or comes after "--" |
| Getopts.Getopt.constructor | streams/3rdparty/gnu/getopt/Getopt.java:600-647 | the ordering follows the first character of the option string and the POSIX setting |
| StreamNodes.Consumer3.ReadFrame | streams/library/cluster/consumer3.h:75-144 | both buffers, place by place: the leftover items move to the front, a new frame backs them up, a repeated one copies as many items back as are left over, a pseudo-frame does neither; the new items follow |
| FrameBuffers.ReadPending | streams/library/cluster/consumer3.h:88-137 | what is pending and what is saved after a frame of each kind |
| FrameBuffers.RestoredExactly | streams/library/cluster/consumer3.h:96-126 | after a new frame, and pops, pseudo-frames and repetitions in any numbers, a repeated frame brings the saved items back, whatever all items are, if and only if no place from the leftover count up to the backup size has been overwritten; the counts alone decide |
| FrameBuffers.RestoredIfClean | streams/library/cluster/consumer3.h:96-126 | the one half for items of any type |
| FrameBuffers.LostIfDirty | streams/library/cluster/consumer3.h:96-126 | the other half: items, starting from a consumer just made, for which the restore brings back something else |
| FrameBuffers.CleanWithoutPseudo | streams/library/cluster/consumer3.h:96-126 | without pseudo-frames every restore is exact |
| FrameBuffers.LostExample | streams/library/cluster/consumer3.h:96-126 | a new frame, a pop, a pseudo-frame and two pops: the repeated frame brings back the wrong item, whatever the buffers held at first |
| StreamNodes.ReadTwice | streams/library/cluster/consumer3.h:75-171 | the same run on the consumer itself: frame 1 yields 1 first, and read again it yields 2 |
| StreamNodes.Consumer3.Pop | streams/library/cluster/consumer3.h:169-171 | takes the next item |
| StreamNodes.Consumer3.PopItems | streams/library/cluster/consumer3.h:165-167 | takes the next num items |
| StreamNodes.Consumer3.GetSize | streams/library/cluster/consumer3.h:146-149 | the number of items not yet popped |
| StreamNodes.Producer3.Push | streams/library/cluster/producer3.h:120-122 | adds one pending item |
| StreamNodes.Producer3.Flush | streams/library/cluster/producer3.h:124-127 | sends the pending items under the current frame id, unless there are none |
| StreamNodes.Producer3.FlushPseudo | streams/library/cluster/producer3.h:129-135 | the same under id -1, after which the frame id is as before |
| StreamNodes.FiringsQuotient | streams/library/cluster/stream_node.h:868 | the number of firings is the number of items divided by the pop rate |
| StreamNodes.StreamNode.Turn | streams/library/cluster/stream_node.h:857-923 | one turn of the loop on a frame or a pseudo-frame, buffers and all, is one step of the node on values, if the counts allow a repeated frame to be restored |
| StreamNodes.StreamNode.RunSync | streams/library/cluster/stream_node.h:836-938 | with one input and one output, down to the buffers and as long as the counts allow a repeated frame to be restored: the loop over frames and pseudo-frames is the run of the node over what it has read, stops at the wanted iteration or for want of frames, and reads no frame beyond the first to get there |
| Firings.NodeFires | streams/library/cluster/stream_node.h:857-923 | after any frames, versions and pseudo-frames the node has fired, from its first state, over the stream of what was left over and the items of the frames in force: (s[i + 1], o[i]) = work(s[i], window i), as often as that allows, with the rest left over; without pseudo-frames, and if no output is left stale, the last versions of what it has sent have the items o[0] + o[1] + ... |
| Firings.ForcedRun | streams/library/cluster/stream_node.h:857-923 | whatever comes, the node is where it would be if only the frames in force had come, and its checkpoint where those before the last new one lead |
| Firings.OnwardFires | streams/library/cluster/stream_node.h:857-923 | as long as no frame repeats one before, everything the firings make is sent |
| SyncNodes.SyncNode.ReadRow | streams/library/cluster/stream_node.h:862-877 | with any number of inputs: reads a frame from each and goes on exactly when no assert fails, that is, no id is old, all ids agree, and all inputs allow as many firings |
| SyncNodes.SyncNode.FireAll | streams/library/cluster/stream_node.h:907-910 | n firings take a window from each input and give each output what they make for it |
| SyncNodes.SyncNode.FlushAll | streams/library/cluster/stream_node.h:914-923 | every output sends what it holds, as a pseudo-frame or under its next id, unless that is nothing |
| SyncNodes.SyncNode.Turn | streams/library/cluster/stream_node.h:862-923 | one turn of the loop with any number of inputs and outputs is, as each output sees it, one step of the node on values; it fails exactly when an assert does |
| SyncNodes.SyncNode.RunSync | streams/library/cluster/stream_node.h:857-928 | the loop is, as each output sees it, the run of the node over what it has read; it stops at the wanted iteration, for want of frames, or on the first row of frames on which an assert fails |
| SyncFirings.SyncFires | streams/library/cluster/stream_node.h:857-923 | the same for any number of inputs and outputs, on rows on which no assert fails: each firing takes its window of every input, and for every output not left stale the last versions sent have what the firings have made for it |
| SyncNodes.ManySound | streams/library/cluster/stream_node.h:836-938 | rollback is sound for such a node, and on each output the id discipline is kept |
| Rollback.RunConcat | streams/library/cluster/stream_node.h:857-928 | running two stretches of frames is running one after the other |
| Rollback.RunVersions | streams/library/cluster/stream_node.h:886-923 | all versions of one frame leave the node where its last version alone leaves it |
| Rollback.GroupedFlat | streams/library/cluster/stream_node.h:886-903 | every sequence of frames is a sequence of groups of versions |
| Rollback.RunGroups | streams/library/cluster/stream_node.h:836-938 | state, iteration and leftover items after all frames are those after only the last version of each |
| Rollback.SentRising | streams/library/cluster/stream_node.h:898-923 | the frames sent obey the same id discipline |
| Rollback.RollbackSound | streams/library/cluster/stream_node.h:836-938 | both of these for every disciplined sequence of frames |
| Rollback.SentLatest | streams/library/cluster/producer3.h:48-127 | the last versions of the frames sent are the frames sent for the last versions, if and only if no frame sent for an early version is followed by an empty last one |
| Rollback.StaleExample | streams/library/cluster/producer3.h:124-127 | an empty last version leaves an outdated frame with the receiver: an example |
| Networks.LastSent | streams/library/cluster/stream_node.h:836-938 | reading all versions of all frames or only the last ones leaves the node the same, and the last versions of what it sends are the same if and only if no output is left stale |
| Networks.NetworkExact | streams/library/cluster/stream_node.h:836-938 | in every acyclic network of nodes with any numbers of inputs and outputs in which no assert on ids fails, whatever versions come in from outside, all nodes end as if only last versions had been sent, and all wires carry what they would carry then, if and only if no output anywhere leaves a stale frame in force |
| Networks.NetworkSound | streams/library/cluster/stream_node.h:862-877 | if the wires from outside carry the same ids, counting up from 0, each in any number of versions, and every node sends on every output for every frame it reads, then no assert on ids fails anywhere in such a network, and all of this holds |
| Networks.SilentExample | streams/library/cluster/stream_node.h:868-877 | an output that stays silent makes an assert further down fail: an example |
| Rollback.PairSound | streams/library/cluster/stream_node.h:836-938 | two nodes of any state and item types, one after the other: the second ends as if only last versions had arrived at the first, and its output is last versions if and only if it leaves no stale frame in force, so that the step can be repeated |
| CheckpointCode.FindMaxIter | streams/library/cluster/save_state.cpp:194-252 | the least over all threads of the newest file's iteration |
| CheckpointCode.Directory.DeleteCheckpoints | streams/library/cluster/save_state.cpp:270-318 | removes exactly the listed files older than the bound |
| CheckpointCode.SaveManager.PushItem | streams/library/cluster/save_manager.cpp:23-30 | queueing a due checkpoint is the step of the protocol in which its thread passes the iteration |
| CheckpointCode.SaveManager.PopItem | streams/library/cluster/save_manager.cpp:32-53 | takes the oldest checkpoint exactly when the protocol lets the saver take one |
| CheckpointCode.SaveManager.SaveBuffer | streams/library/cluster/save_state.cpp:94-128 | creating and finishing the file are the next two steps of the protocol |
| CheckpointCode.SaveManager.Announce | streams/library/cluster/save_manager.cpp:72-74 | raising the latest checkpoint is the step after them |
| CheckpointCode.SaveManager.SaveOne | streams/library/cluster/save_manager.cpp:55-83 | one turn of the saver is the run take, create, finish, raise of the protocol, in this order, or nothing when nothing waits |
| CheckpointCode.FindLatestCheckpoint | streams/library/cluster/node_server.cpp:407-433 | the least over the active threads, 0 without any; it is the answer of the protocol's scan of these threads |
| CheckpointCode.ScanIsScanned | streams/library/cluster/node_server.cpp:407-433 | the scan, thread by thread, is a run of the protocol |
| CheckpointCode.Collector.Gather | streams/library/cluster/ccp.cpp:462-484 | a larger minimum over the sessions becomes the bound for deletion |
| CheckpointCode.Collector.Clean | streams/library/cluster/delete_chkpts.cpp:30-42 | a pass deletes below the bound read at its start and then records the bound as it stands |
| Checkpoint.StepInv | streams/library/cluster/save_manager.cpp:55-83 | every step of every thread, saver, reporter, collector and deleter keeps the invariant |
| Checkpoint.RunInv | streams/library/cluster/ccp.cpp:462-484 | so does every run, in every interleaving |
| Checkpoint.RecoverySafe | streams/library/cluster/save_state.cpp:194-252 | when old reports do no harm, as with new sessions, then at every moment, even part-way through a deletion, the iteration find_max_iter returns is 0 or has a file for every thread |
| Checkpoint.RecoveryPoint | streams/library/cluster/save_state.cpp:194-252 | and it is not before the start of the epoch nor below the bound for deletion |
| Checkpoint.RecoveryWhole | streams/library/cluster/save_state.cpp:94-128 | whatever has been reported, a file is whole exactly when it was found whole or has been created since the start, and its saver is not in the middle of writing it; having announced it, or a later one that was not there at the start, is enough |
| Checkpoint.NoWrittenFileRemoved | streams/library/cluster/delete_chkpts.cpp:30-42 | a file being written is never deleted, unless it is one that was found at the start and is written again |
| StaleReports.SafeIffHarmless | streams/library/cluster/ccp.cpp:462-484 | from any start - files whole or torn, any surviving reports and announcements, any value the control point last saw, a deleter already told or at work below what every thread can be restarted from - every run is safe if and only if there is at most one thread, or for every thread the lowest report of its node and the nodes without threads is no more than it can be restarted from, or cannot raise the bound because as much has been seen already and nothing lower can come from other nodes |
| StaleReports.Unsafe | streams/library/cluster/ccp.cpp:462-484 | for a thread of which that is not so, the run that destroys the recovery point |
| StaleReports.LastKept | streams/library/cluster/ccp.cpp:475-484 | every run keeps the value last seen at or below the bound for deletion |
| StaleReports.SafeIffReportedLow | streams/library/cluster/ccp.cpp:462-484 | so in all states the control program gets into every run is safe if and only if there is at most one thread, or for every thread its node, or one without threads, has reported no more than it can be restarted from: its newest file, or its first checkpoint if it has none |
| StaleReports.FreshIsHarmless | streams/library/cluster/ccp.cpp:462-484 | new sessions do no harm |
| StaleReports.StaleReportUnsafe | streams/library/cluster/ccp.cpp:462-484 | two threads restarted from 20 on the node of one of them, whose session still reports 30 while 20 was seen last, have an unsafe run: an example |
| Epochs.NextEpoch | streams/library/cluster/ccp.cpp:690-712 | what a run has left, stopped at any moment, is a start for the next: files, whole or torn, the recovery point, announcements, the control point and the deleter, on any nodes and with any sessions |
| Epochs.LifeSafeIff | streams/library/cluster/ccp.cpp:298-484 | over the whole life of the control program, through any number of recoveries after harmless reports: every run after the last recovery is safe if and only if its reports are harmless too |
| Epochs.TornRecovery | streams/library/cluster/save_state.cpp:94-128 | a run in which the file to recover from is half written: an example |
| Epochs.TornLater | streams/library/cluster/save_state.cpp:94-128 | a file left half written by one epoch is the one to recover from in the next, with no saver at it: an example |
| MemSockets.StepInv | streams/library/cluster/memsocket.h:101-179 | every step of producer and consumer, spurious wake-ups and allocation included, keeps the invariant |
| MemSockets.OnePlace | streams/library/cluster/memsocket.h:101-179 | in every reachable state every block is in exactly one of free queue, data queue, producer's hand and consumer's hand |
| MemSockets.Refines | streams/library/cluster/memsocket.h:157-179 | what goes through is a FIFO channel |
| MemSockets.ReadsWhatWasReceived | streams/library/cluster/memsocket.h:166-179 | the block the consumer reads holds what was sent, and the producer is never filling it |
| MemSockets.Exclusion | streams/library/cluster/memsocket.h:101-179 | each queue is touched by one side at a time |
| MemSockets.NeverStuck | streams/library/cluster/memsocket.h:101-179 | with at least one block, one of the two sides can always go on |
| MemSockets.NoLostWakeup | streams/library/cluster/memsocket.h:101-179 | a sleeper whose queue is not empty has a wake-up coming |
| MemSockets.StuckWithoutBlocks | streams/library/cluster/memsocket.h:101-112 | from any reachable state both sides can fall asleep, if no block is added, exactly when there is no block at all |
| RingSockets.AdvanceSlot | streams/library/cluster/memsocket2.h:89 | masking moves to the next slot of the ring |
| RingSockets.FullAndEmpty | streams/library/cluster/memsocket2.h:89-101 | equal indices mean empty, and a head next behind the tail means full but for one slot |
| RingSockets.StepInv | streams/library/cluster/memsocket2.h:77-116 | every step keeps the invariant |
| RingSockets.Refines | streams/library/cluster/memsocket2.h:77-116 | the ring is the same FIFO channel, bounded by the number of slots less one |
| RingSockets.SlotsApart | streams/library/cluster/memsocket2.h:77-116 | the consumer's slot is never the producer's, and it holds what was sent |
| RingSockets.Exclusion | streams/library/cluster/memsocket2.h:84-116 | the indices are touched by one side at a time |
| RingSockets.NeverStuck | streams/library/cluster/memsocket2.h:84-106 | one of the two sides can always go on |
| RingSockets.NoLostWakeup | streams/library/cluster/memsocket2.h:84-116 | a sleeper that could go on has a wake-up coming |
| BlockStreams.Producer2.Push | streams/library/cluster/producer2.h:134-148 | appends the item to the stream; a full block is sent at once |
| BlockStreams.Producer2.PushItems | streams/library/cluster/producer2.h:103-132 | appends all items, whatever their number, across any number of blocks |
| BlockStreams.Producer2.Flush | streams/library/cluster/producer2.h:150-153 | sends the started block, padded with what the buffer holds |
| BlockStreams.Consumer2.Pop | streams/library/cluster/consumer2.h:143-162 | delivers the next item; asks for a block exactly when none is left, and blocks exactly when none is available |
| BlockStreams.Consumer2.PopItems | streams/library/cluster/consumer2.h:110-141 | delivers the next items, whatever their number; blocks exactly when there are too few |
| BlockStreams.EndToEnd | streams/library/cluster/producer2.h:75-148 | for every mix of sizes and every ordered channel between them, items popped are a prefix of items pushed |
| StreamRuns.PoppedIsPushed | streams/library/cluster/producer2.h:75-148 | producer, consumer and memory socket in one run, in every interleaving: items popped are a prefix of items pushed, and the rest is, in order, in the block being read, in the blocks on their way and in the block being written |
| BlockStreams.FullBlocksDelivered | streams/library/cluster/consumer2.h:82-162 | when all blocks sent have arrived, less than a block of what was pushed is still out of reach |
| Tapes.Tape.constructor | streams/library/c/streamit_tape.c:38-60 | the mask is the power-of-two size less one and the tape is empty |
| Tapes.MaskAdvances | streams/library/c/streamit.h:162-166 | adding and masking steps around the ring |
| Tapes.CopyOne | streams/library/c/streamit_splitjoin.c:228-234 | one item: both positions advance and the item's bytes are copied |
| Tapes.CopyWhole | streams/library/c/streamit_splitjoin.c:253-264 | neither tape wraps: the ring-to-ring copy in one piece |
| Tapes.CopyBreakingWrite | streams/library/c/streamit_splitjoin.c:265-278 | the output wraps: the same copy in two pieces |
| Tapes.CopyBreakingRead | streams/library/c/streamit_splitjoin.c:282-295 | the input wraps: the same copy in two pieces |
| Tapes.CopyBreakingReadFirst | streams/library/c/streamit_splitjoin.c:297-321 | both wrap, the input first: the same copy in three pieces |
| Tapes.CopyBreakingWriteFirst | streams/library/c/streamit_splitjoin.c:322-346 | both wrap, the output first: the same copy in three pieces |
| Tapes.CopyBlock | streams/library/c/streamit_splitjoin.c:253-348 | in all cases contents and both final positions are those of the ring-to-ring copy |
| Tapes.StepsMoveBlock | streams/library/c/streamit_splitjoin.c:222-238 | ratio single-item steps are one block copy, for all positions, sizes and ratios |
| Tapes.MoveItems | streams/library/c/streamit_splitjoin.c:238-349 | the block copy leaves tape contents and positions exactly as ratio single-item steps would |
| Tapes.QueuesFollow | streams/library/c/streamit_splitjoin.c:238-349 | and moves exactly the first bytes of the one tape's queue to the end of the other's |
| SplitJoins.SetSplitJoinRR | streams/library/c/streamit_splitjoin.c:75-87 | the number of slots is the sum of the weights |
| SplitJoins.BuildTapeCache | streams/library/c/streamit_splitjoin.c:149-166 | slot s belongs to the branch i with prefix(i) <= s < prefix(i + 1), zero weights included |
| SplitJoins.CacheUnique | streams/library/c/streamit_splitjoin.c:149-166 | there is only one such branch |
| SplitJoins.SlotOrder | streams/library/c/streamit_splitjoin.c:221-349 | the splitter puts item s of a round behind what the branch of slot s holds, and the joiner takes it from there |
| SplitJoins.SplitBranch | streams/library/c/streamit_splitjoin.c:221-349 | one branch of the splitter moves its weight in items, by items below three and in a block from three on |
| SplitJoins.RunSplitter | streams/library/c/streamit_splitjoin.c:211-352 | one round on the tapes deals the input into consecutive chunks |
| SplitJoins.RunJoiner | streams/library/c/streamit_splitjoin.c:390-398 | one round on the tapes takes the chunks back in branch order |
| SplitJoins.SplitKeeps | streams/library/c/streamit_splitjoin.c:211-352 | a splitter turn keeps input, queues and output one decomposition of the original input |
| SplitJoins.JoinKeeps | streams/library/c/streamit_splitjoin.c:390-398 | so does a joiner turn |
| SplitJoins.Identity | streams/library/c/streamit_splitjoin.c:168-404 | for any weights and any order of enabled turns the output is a prefix of the input, and all that is missing is what has not been split, once the branches are empty |
| SplitJoinRuns.RunTurns | streams/library/c/streamit_splitjoin.c:168-404 | the code on tapes, turn after turn in any order that the tapes allow: what the output tape holds is a prefix of what the input tape held, and all that has been split once the branches are empty |
| Sdeps.Sdep.GetSrcPhase4DstPhase | streams/library/cluster/sdep.cpp:35-55 | the quotient and remainder form is the periodic continuation of the table |
| Sdeps.Sdep.Search | streams/library/cluster/sdep.cpp:75-106 | the biased binary search finds the first entry that reaches the phase |
| Sdeps.Sdep.GetDstPhase4SrcPhase | streams/library/cluster/sdep.cpp:57-108 | with the wrap-around, the first receiver phase that reaches the sender phase |
| Sdeps.Connection | streams/library/cluster/sdep.cpp:35-108 | the two lookups form a Galois connection: getSrc(n) >= s iff n >= getDst(s), on all phases n and all s > 0 |
| Sdeps.AnswerConnects | streams/library/cluster/sdep.cpp:59-62 | with the answer 1 for the other phases, the connection holds exactly when s > 0 or n > 0 |
| Sdeps.Monotone | streams/library/cluster/sdep.cpp:35-108 | both lookups are monotone |
| Randoms.Random.RandomBits | streams/library/cluster/streamit_random.h:17-26 | one step of the generator on the low 48 bits, and the leading bits of the new seed as a 32-bit int, as Randoms.TopBitsMean describes them |
| Randoms.TopBitsMean | streams/library/cluster/streamit_random.h:19-25 | up to 31 leading bits are the r with r 2^(48 - bits) <= seed < (r + 1) 2^(48 - bits) and r < 2^bits, 32 of them its signed reading |
| Randoms.StepWritten | streams/library/cluster/streamit_random.h:18 | the step is 0x5DEECE66D x + 0xB modulo 2^48 |
| Randoms.Random.SetSeed | streams/library/cluster/streamit_random.h:31-33 | the new seed is one step from the low 48 bits of the given one |
| Randoms.OverflowIsHarmless | streams/library/cluster/streamit_random.h:18 | two overflowing 64-bit operations and the mask make the step modulo 2^48 |
| Randoms.StepIsBijection | streams/library/cluster/streamit_random.h:18 | the step is a bijection, for every power-of-two modulus, multiplier 1 mod 4 and odd increment |
| Randoms.GeometricDivides | streams/library/cluster/streamit_random.h:18 | 1 + a + ... + a^(n-1) is divisible by exactly the powers of two that divide n |
| Randoms.ReturnsExactly | streams/library/cluster/streamit_random.h:18 | n steps lead back to the start if and only if the modulus divides n |
| Randoms.FullPeriod | streams/library/cluster/streamit_random.h:18 | every seed comes exactly once in a period |
| Randoms.Period | streams/library/cluster/streamit_random.h:17-26 | for the constants in use: back after exactly the multiples of 2^48 calls, and past every value on the way |
| Randoms.SeedsDiffer | streams/library/cluster/streamit_random.h:31-33 | two seeds set the same sequence exactly when their low 48 bits agree |
| DynTapes.P2CeilFits | streams/library/cluster/dynTape.h:187-189 | the result is the least power of two offered that is large enough, all from 2 to 2^30 but 512, 2048, 8192 and 32768 being offered; beyond 2^30 it is 2^30 and too small |
| DynTapes.DynTape.MakeRoom | streams/library/cluster/dynTape.h:204-222 | doubling keeps contents and order in both full configurations |
| DynTapes.DynTape.Push | streams/library/cluster/dynTape.h:120-128 | appends the item; the tape doubles exactly when it is full |
| DynTapes.DynTape.Pop | streams/library/cluster/dynTape.h:147-156 | delivers the first pending item after the upstream passes it took to have one, and no more |
| DynTapes.DynTape.PopN | streams/library/cluster/dynTape.h:161-171 | drops the first n pending items, upstream passes made as needed, and no more |
| DynTapes.DynTape.Peek | streams/library/cluster/dynTape.h:173-182 | delivers the n-th pending item, whatever the upstream passes pushed and however often they made the tape grow; no pass is made once the item is there |
| ByteStreams.DataProducer.WriteChunk | streams/library/cluster/data_producer.cpp:40-67 | appends all bytes of the chunk to the stream, buffered or not; only whole buffers are sent, and at once |
| ByteStreams.DataProducer.Flush | streams/library/cluster/data_producer.cpp:69-76 | what is sent begins with all that was written |
| ByteStreams.DataConsumer.ReadChunk | streams/library/cluster/data_consumer.cpp:39-84 | delivers the next bytes of the stream, buffered or not, or blocks for want of a buffer; buffers are received only as needed |
| ByteStreams.Transparent | streams/library/cluster/data_producer.cpp:40-67 | for any buffer size up to 16000 and unrelated chunk sizes, bytes read are a prefix of bytes written |
| ByteStreams.TransparentAfterFlush | streams/library/cluster/data_consumer.cpp:39-84 | after a flush they are a prefix of bytes written and then the padding |

## Left out

- Floating-point rounding: numbers are reals, and `Util.round` is taken with `Epsel = 0`, where it does nothing (the result of rounding in `ftran` is discarded in any case); `Epsilon`, the tolerance of `is_int`, stays a positive parameter.
- Fft.FftFloat: does not model 32-bit wrap-around of `BlockSize`, which would matter only at 2^31 samples; missing real arrays are not representable, and a refused size ends the program in the source.
- Simplex pricing, `solvelp` and its termination: branch-and-bound takes the relaxation as a parameter that returns a point of the box and bounds every feasible point of it. `lag_solve`, scaling, the random branching rule and `anti_degen` noise are left out, and so is `set_mat`.
- BasisInverse.Simplex.PivotFlagged: does not model the singleton phases of `invert` and `minoriteration`, which pivot in the same way on columns with one entry left; where no free row has a non-zero pivot the source reports the failure and runs off its arrays, and the model returns `ok == false`; `Extrad` is a parameter of the matrix.
- BranchBound.Solver.MilpSolve: says nothing of the counts of nodes and levels, and nothing of the order of the search beyond BranchBound.Solver.Branch.
- BasisInverse.Simplex.Pivot: requires that one doubling of the eta arrays makes enough room, which `condensecol` takes for granted.
- Partitioner.Ccp.FindPartition: does not model the progress messages, one of which divides by the target and would trap at a target of 0; work estimates are not negative. Which of several ready threads is taken first is not stated.
- Getopts.Getopt.GetOpt: does not model calls after the one that ends the scan, messages, the setters, or what is written to a long option's flag buffer; `nextchar` null and "" are one value.
- StreamNodes.StreamNode.RunSync: models a node with one input and one output, without credits and messages; buffer bounds are preconditions, as the source does not check them, frame ids are as its assertions demand, and repeated frames come only while the counts allow a restore.
- Firings.NodeFires: requires that frames are not older than the node, as its assertions demand, nor repeat the one it has read before the run; of what is sent with pseudo-frames among the frames it says nothing, as the id discipline of Rollback leaves them out.
- SyncFirings.SyncFires: requires the same, and says nothing of what is sent with pseudo-frames among the rows.
- FrameBuffers.RestoredExactly: is about the items saved with the last new frame; leftovers beyond 1000 items, which the source asserts against or would read past its backup, are excluded.
- SyncNodes.SyncNode.RunSync: models what consumers and producers hold as sequences, so that a repeated frame always gets back what was saved; when the buffers do that is FrameBuffers.RestoredExactly. Credits and messages are left out.
- Networks.NetworkExact: runs the nodes one after another over whole sequences of frames; between them are FIFOs, as proved for the sockets. Pseudo-frames are outside the id discipline, and the assert on equal firings is that of SyncNodes. All nodes of a network share one state type and one item type, as Dafny has no heterogeneous sequences; nodes of different types need the union of their types, and Rollback.PairSound states the step for two nodes of any types.
- StaleReports.SafeIffHarmless: the start of an epoch assumes that the deleter has been told of nothing beyond what every thread can be restarted from; Epochs.NextEpoch shows that a recovery after harmless reports leaves it so. After a run that was not safe nothing is claimed.
- Epochs.NextEpoch: requires that the savers have emptied their queues and no report is under way when the next epoch starts, for which the source waits some seconds; what a saver still writes after that is not modelled. A start from an iteration given by hand, for which there are no files, is left out.
- Checkpoint.RecoverySafe: is a claim about one epoch, in which every thread is active on one live session and saves at every multiple of a common period; removal of sessions and reconfiguration end the epoch. File names are already parsed, or are no checkpoint names. That a recovery can read a torn file is Checkpoint.RecoveryWhole.
- MemSockets.NeverStuck: is about one producer and one consumer; the number of blocks grows by `Allocate`, because `set_buffer_size` never records the size it was given.
- StreamRuns.PoppedIsPushed: is stated for the socket with the free list; for the ring of blocks, BlockStreams.EndToEnd and RingSockets.Refines give the order.
- BlockStreams.Producer2.Flush: the padding is what the buffer happened to hold, so nothing is said about its values; the preload of `consumer2p` is left out.
- SplitJoinRuns.RunTurns: requires that what each turn moves is there and fits on the tapes, which the schedule ensures in the source; the branches are identities, that is, the tapes the splitter writes are those the joiner reads.
- SplitJoins.RunSplitter: models weighted round-robin; plain round-robin and duplicating splitters, and `PEEK_TAPE`, which ignores the read position, are left out.
- DynTapes.DynTape.Push: does not model the overflow of a size doubled past 2^30.
- DynTapes.DynTape.Pop: the upstream prework and work functions are a script of what each pass pushes; a pop that finds the script at its end does not return in the source.
- Randoms.Random.RandomBits: does not model the helpers that build an int or a double from it.
- Sdeps.Sdep.GetDstPhase4SrcPhase: the binary search is a method of its own; the warning for phases up to 0 is not modelled.
- ByteStreams.DataProducer.WriteChunk: the item count is added up but not bounded.
- Sockets, threads, select loops, file and directory calls, timing and printing; the compiler itself; the VectorLib, FFTW, PAM and raw converters.
