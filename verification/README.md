# HI-TECH C for CP/M: what the run-time library and the tools promise, proved

A Dafny model of the state-heavy parts of the HI-TECH C run-time library and of three of the programs that come with it.
`dafny verify dfyconfig.toml` checks all of it. Classes and array methods stand for the C and assembler routines that
update state in place; each is tied by its contract to a specification function or predicate, and the laws are lemmas
about those.

| part | modules | main results |
|---|---|---|
| storage allocator | Arena, MallocRuns, MallocSample, Malloc, MallocNull | Malloc.Allocator.Malloc, Malloc.Allocator.Realloc, MallocRuns.RunSafety, Arena.SurvivalExact |
| archiver | HuffTree, HuffCost, HuffBuild, HuffDeep, HuffMake, HuffPack, Enhuff, Dehuff, HuffTrip | HuffTrip.ArchiveThenExtract, Enhuff.Archive, HuffMake.MakeTree |
| AES-256 | Gf, Aes, AesCipher, Aes256, AesVector | Aes256.EncryptThenDecrypt, AesCipher.ScheduleBytes, AesCipher.DecryptEncrypt, AesVector.TestVector |
| arithmetic | Z80, Division, Rounding, FloatKernels, FloatMulDiv, FloatLaws, FloatLong | FloatLaws.ProductNearest, FloatLaws.QuotientNearest, FloatLong.LongToFloatNearest, FloatLong.FloatToLongExact, Division.Aldiv |
| files and streams | CpmFiles, Stdio, StreamRuns | Stdio.WriteThenRead, StreamRuns.ReadRun, StreamRuns.EditRun, CpmFiles.PutContents |
| quicksort | QSort | QSort.Qsort |
| driver and interpreter | CommandFile, Executor, Driver, EcItems, Ec, EcRuns, EcPrograms, EcRedirect, EcFlow, EcBuild, EcTrip | EcTrip.CompileAndExecute, EcBuild.BuildFlows, Executor.Execute, Ec.Compiler.Doit, EcRedirect.RedirectionExact |
| calendar | Calendar | Calendar.CivilDate, Calendar.Clock.LocalAndBack, Calendar.Clock.BackAndLocal |

Memory is a map of 65536 bytes, a Z80 register a bounded natural number with its carry beside it, a disk file a map from
record numbers to 128 bytes, a heap value the bytes together with the set of headers on the list. `sbrk` is the routine
in sbrk.as with the stack pointer as a parameter; between calls other code may move the break upwards by any amount and
use what it gets, so that the arena has gaps of any length. The programs that the batch interpreter runs are a function that says
which of them fail.

## What the code does not do

Places where a property one would expect is false. Each has a lemma that says exactly when the code does meet it, or an
input on which it does not.

- `realloc` (malloc.c:149) repairs the data only if the new block ends beyond the start of the old one. When it ends
  exactly there, the header of the left-over space lies on the first three bytes, and they are lost:
  Arena.SurvivalExact says exactly when, from the arena before the call; MallocRuns.SampleSpoilt shows such an arena, and
  MallocSample.SampleReached that a program gets there.
- `malloc` that returns NULL may leave the rover at a header it has merged away (malloc.c:62-66 and 82-87): exactly if the
  rover was an idle block after an idle block (Malloc.Allocator.Malloc). Then the next calls can hand out the same memory
  twice: MallocNull.StillOffered, and MallocNull.HandedTwice for a case of it.
- `flmul` (float.as:327-331) rounds after the exponent has been checked. A carry at the exponent 127 runs into the sign:
  two large positive numbers give a tiny negative one and no flag. FloatLaws.ProductNearest, FloatLaws.ProductOverflows.
- `fldiv` of zero gives zero, but may raise the flag (FloatMulDiv.Fldiv); `ftol` of a zero mantissa with a sign gives -2^24
  shifted, which is wrong exactly from the exponent 64 on (FloatLong.FloatToLongExact).
- `bld` (encode.c:122) keeps the level of a leaf in a char as depth plus one. At depth 255 it wraps, and the commonest
  character gets the longest code. HuffMake.CostlyExact says exactly for which frequencies and factors; HuffMake.SampleTree
  is a file for which the factor 600 makes the total larger than it need be. With the default factor, or fewer than 256
  different characters, it cannot happen.
- `qsort` (qsort.c:36) adds two 16-bit indices. When the sum overflows the index is negative, which does no harm to elements
  of an even number of bytes, since the address wraps as well. With an odd number the pivot is fetched from somewhere else:
  QSort.FoundExact. QSort.Qsort says when it is always found, and when exactly for an array in order; QSort.OddMisses is
  an input for every odd width and more than 16385 elements.
- `fseek` to a negative position of a reader returns -1, but the buffer has been dropped by then: the caller's position has
  moved if anything was left in it (Stdio.Stream.Fseek, Stdio.SeekMoves).
- ec.c makes the name of a redirection file with a format that has no place for the number (ec.c:131 and ec.c:646), and has
  the file removed after each program (ec.c:688). So all long command lines share one file with the arguments of the last,
  and once one of the programs has succeeded, or a linker with such a line been passed over, the rest find no file:
  EcRedirect.RedirectionExact, EcRedirect.SampleFindsNothing.
- ec.c puts only the linker under IF_NERR; the conversion of its output that comes next is run without it:
  EcPrograms.ConvertedExact.
- ec.c accepts a symbol file without -Y, and then has the assembler read a temporary file that nothing has written (ec.c:699-723):
  EcFlow.SourcesFlow says that this is the one way for a program to miss its input when none fails; EcBuild.SymbolsLost is
  an input.
- exec.as calls NCMDS the number of commands, but it is the length of the table in bytes; codes from 12 to 23 pass the
  test (Executor.TestRight). No command file of ec.c has them.

## Model

| member | source | states |
|---|---|---|
| Arena.RoundingEnough | malloc.c:57-80 | A request with its header fits the rounded size, by at most two bytes; the growth asked of sbrk is the least multiple of 85 headers with room for the block and a new top |
| Arena.BootSound | malloc.c:51-56 | The first-time set-up gives a sound arena of two busy headers |
| Arena.MergeSound | malloc.c:62-66 | Merging an idle block with the idle one after it keeps the arena sound and touches no busy block and no byte outside a header |
| Arena.CoalescedFits | malloc.c:62-68 | Which surviving blocks have room for a request is the same before and after any amount of coalescing |
| Arena.PassOver | malloc.c:61-71 | When the search leaves a block, nothing between it and the next one fits, in the arena as it was before the search |
| Arena.FoundFirst | malloc.c:60-68 | The block the search stops at is the first fit, in circular order from the rover, of the arena as it was before the search |
| Arena.FirstFitUnique | malloc.c:60-68 | There is only one first fit |
| Arena.OnlyHeadsLeft | malloc.c:62-66 | After a full lap exactly those headers are left that are busy or follow a busy one |
| Arena.GrowHeaders | malloc.c:90-98 | What the writes of the growth leave in every header, contiguous memory or not |
| Arena.GrowSound | malloc.c:90-98 | Growing keeps the arena sound; a gap becomes a block that stays busy |
| Arena.GrowFits | malloc.c:80-98 | The new memory alone has room for the request |
| Arena.GrowCoalesced | malloc.c:60-98 | Coalescing before growing is coalescing after growing |
| Arena.GrownOnce | malloc.c:77-98 | After two laps without a fit one growth suffices: the next search succeeds, wherever the new memory lies |
| Arena.TakeSound | malloc.c:101-109 | Handing out the start of an idle block keeps the arena sound |
| Arena.TakeAllocates | malloc.c:101-110 | Exactly one more busy block; no busy header and no byte outside headers changes, but for the header of the left-over space; allocx is what that header overlaid |
| Arena.AllocatedKeepsLive | malloc.c:101-110 | Every live block keeps its place, its extent and all its bytes when another is handed out |
| Arena.GrownKeepsLive | malloc.c:90-98 | The same when the arena grows |
| Arena.CoalescedKeepsLive | malloc.c:62-66 | The same when idle blocks are merged |
| Arena.ReleaseSound | malloc.c:120-125 | Freeing keeps the arena sound |
| Arena.ReleaseKeepsLive | malloc.c:120-125 | and leaves all other blocks as they are |
| Arena.SamePhase | malloc.c:57-98 | Idle blocks with nothing busy between them lie a multiple of three bytes apart, though gaps may have any length |
| Arena.ResizedPlace | malloc.c:138-149 | Where the block malloc finds for realloc can lie: clear of the old data, or before it and on one grid with it |
| Arena.MovedContents | malloc.c:142-149 | What is left of the old data after malloc: everything, but for the three bytes under the split header, which allocx has |
| Arena.MovedCollides | malloc.c:149 | The new block ends exactly at the old data if and only if the first fit in the arena with the old block free lies just so |
| Arena.CopyRestores | malloc.c:145-150 | The forward copy and the repair give back every byte, overlapping or not, but for the collision |
| Arena.CopyLoses | malloc.c:148-150 | In a collision the first three bytes copied are the header of the left-over space |
| Arena.CopiedBack | malloc.c:142-151 | Put together: what a realloc that moved the block has done to the contents, collision or not |
| Arena.MovedHeader | malloc.c:103-107 | In a collision the first three bytes of the old data are a header linked to the next busy block |
| Arena.StayedPut | malloc.c:143 | The same for a realloc that found the block where it was |
| Arena.SurvivalExact | malloc.c:129-152 | The first min(old, new) bytes survive if and only if the arena before the call is not one in which the blocks collide, there is something to keep, and the data do not begin like the header that will overlay them |
| MallocRuns.StepInv | malloc.c:44-152 | Every event of a run, refused requests among them, keeps the arena sound |
| MallocRuns.StepKeeps | malloc.c:44-152 | No event disturbs a live block it does not give up or write to |
| MallocRuns.RunSafety | malloc.c:44-152 | Over any run of calls, granted or refused, of writes into blocks, and of whatever else the program does outside them, moving the break included, the arena stays sound and an untouched block stays where it is with every byte |
| MallocRuns.LiveDisjoint | malloc.c:101-110 | Live blocks are disjoint, as large as was asked, and inside the arena |
| MallocRuns.TotalsMakeArena | malloc.c:155-172 | Busy and idle bytes, headers included, sum to the arena |
| MallocRuns.SampleCollides | malloc.c:149 | A sound arena on which the collision happens |
| MallocRuns.SampleSpoilt | malloc.c:149 | It is one on which data are lost |
| MallocRuns.ReallocLoses | malloc.c:149-150 | so that the first bytes of the block do not survive a realloc, however it ends |
| MallocSample.SampleReached | malloc.c:44-127 | The arena is one that a program gets to: by three requests, a free and a write |
| Arena.LookedKept | malloc.c:60-71 | The header a search began at keeps naming the end of its idle run, on the list or not |
| MallocNull.Stranded | malloc.c:60-88 | A rover that a search without success has merged away lies in an idle block of the list, and its header names the end of it |
| MallocNull.StillOffered | malloc.c:60-110 | so that the block the next call takes there is still offered by the list |
| MallocNull.TwoReached | malloc.c:44-127 | A program gets to an arena with two idle neighbours, the second just freed |
| MallocNull.TwoRefuses | malloc.c:80-88 | on which a request for 100 bytes is refused |
| MallocNull.HandedTwice | malloc.c:60-110 | and then one for 9 and one for 39 bytes get overlapping blocks |
| Malloc.Allocator.constructor | malloc.c:38-41 | Static storage, all zero, is a valid starting state |
| Malloc.Allocator.Sbrk | sbrk.as:12-40 | Returns the old break and moves it, or fails when fewer than 1024 bytes would be left below the stack |
| Malloc.Allocator.Start | malloc.c:51-56 | Arrives at the set-up arena |
| Malloc.Allocator.Absorb | malloc.c:62-66 | The inner loop: one idle block with a busy one after it, the arena coalesced |
| Malloc.Allocator.Laps | malloc.c:60-79 | Two laps find the first fit of the arena they started from, or show that nothing fits, with everything coalesced |
| Malloc.Allocator.Extend | malloc.c:90-98 | The new memory joins the arena |
| Malloc.Allocator.Locate | malloc.c:60-99 | Fails exactly when nothing fits and sbrk refuses; otherwise the first fit of the arena, grown at most once |
| Malloc.Allocator.Carve | malloc.c:101-109 | The block is handed out, allocx saved |
| Malloc.Allocator.Malloc | malloc.c:44-111 | NULL exactly when nothing fits and the system refuses; otherwise the first fit from the rover; after NULL the arena is intact, coalesced, and all live blocks with it, and another call may follow if and only if the rover was at a busy block or after one |
| Malloc.Allocator.WriteHeaders | malloc.c:101-109 | The two headers written, and allocx |
| Malloc.Allocator.MallocStranded | malloc.c:57-110 | From a rover that is no longer on the list the search takes the block there, if it is large enough; for a larger request it is the search from the end of that idle run |
| Malloc.Allocator.SearchOn | malloc.c:60-110 | which is first fit from there, in the arena grown at most once, or NULL with all live blocks kept |
| Malloc.Allocator.Free | malloc.c:115-127 | The block is idle, the rover on it, everything else unchanged |
| Arena.RoverFits | malloc.c:57-69 | An idle block at the rover with room is the one the search finds |
| Arena.RestFits | malloc.c:101-110 | After an allocation the rover is at what is left of the idle run, which has the rest of its room |
| Malloc.Allocator.FreeThenMalloc | malloc.c:44-127 | A block given back is what the next request gets, if it is large enough |
| Malloc.Allocator.MallocTwice | malloc.c:44-111 | Two requests with room together at the rover get neighbouring blocks, the second above the first |
| Malloc.Allocator.Bmove | bmove.as:6-22 | Copies in ascending order: right for any overlap in which the target does not start inside the source |
| Malloc.Allocator.Relocate | malloc.c:145-150 | The copy and the repair |
| Malloc.Allocator.Realloc | malloc.c:129-152 | NULL exactly when malloc refuses; otherwise one block less and one more, all others untouched, contents as stated by SurvivalExact |
| QSort.MiddleExact | qsort.c:36 | The 16-bit middle lies between the ends if and only if their sum fits an int; otherwise it is negative |
| QSort.FoundExact | qsort.c:36 | The pivot is nevertheless fetched from an element of the stretch, as addresses wrap too, if and only if the sum fits or elements have an even number of bytes |
| QSort.ScanUp | qsort.c:38-39 | The scan from the left stops at an element not below the pivot, inside the stretch |
| QSort.ScanDown | qsort.c:40-41 | and that from the right at one not above it |
| QSort.Pass | qsort.c:37-47 | One pass of both scans and the exchange keeps what is known of the two sides |
| QSort.Partition | qsort.c:34-47 | One partition finds its pivot exactly as stated, rearranges only its stretch, scans never leave it, and the pivot separates the two sides; an array in order or of equals is cut about the middle |
| QSort.CutMade | qsort.c:37-47 | After a partition every cut between the two scans is final |
| QSort.FitsShallow | qsort.c:48-60 | A pending segment of two or more elements lies at most 13 deep on the stack |
| QSort.SideStacked | qsort.c:48-60 | Stacking the longer side keeps every pending segment halved with its depth, so that the stack of 20 suffices |
| QSort.Divide | qsort.c:33-60 | One turn of the inner loop keeps the state of the sort and makes it smaller; it goes wrong exactly if the sum of the ends overflows and the width is odd |
| QSort.Qsort | qsort.c:6-65 | Terminates with a sorted permutation, within array and stack, for any consistent comparison, when every pivot is found: always for an even width or up to 16385 elements; on an array strictly in order or of equals if and only if so |
| QSort.OddMisses | qsort.c:36 | For every odd width and more than 16385 elements there is an array on which a pivot is missed |
| Gf.MulTriple | testaes.c:121 | Multiplying by a tripled number triples the product: the step of the loops is multiplication by 3 in the field |
| Gf.AlogSum | testaes.c:116-124 | Antilogarithms turn sums into products in the field |
| Gf.Generates | testaes.c:116-138 | 3 generates: its first 255 powers are all the non-zero bytes, and the next is 1 |
| Aes.LogWorks | testaes.c:127-138 | The search for a logarithm succeeds for every non-zero byte, below 255 |
| Aes.MulInvWorks | testaes.c:142-146 | gf_mulinv is the multiplicative inverse |
| Aes.MulInvTwice | testaes.c:142-146 | and its own inverse |
| Aes.AffineBitsLower | testaes.c:155-158 | The rotations of rj_sbox are equation 5.1 of FIPS 197, bits 0 to 3 |
| Aes.AffineBitsUpper | testaes.c:155-158 | and bits 4 to 7 |
| Aes.AffineUndone | testaes.c:167-169 | The rotations of rj_sb_inv undo those of rj_sbox |
| Aes.SBoxUndone | testaes.c:149-172 | rj_sb_inv undoes rj_sbox on every byte |
| Aes.MixCodeIsMix | testaes.c:254-257 | aes_mixColumns computes the matrix 2 3 1 1 of section 5.1.3 of FIPS 197 |
| Aes.UnmixCodeIsUnmix | testaes.c:269-274 | aes_mc_inv computes the matrix e b d 9 of section 5.3.3 |
| Aes.UnmixUndoesMix | testaes.c:247-276 | The second undoes the first |
| AesCipher.RowsShifted | testaes.c:221-244 | Byte by byte, row r of column c comes from r columns further on, and goes back there |
| AesCipher.ScheduleBytes | testaes.c:279-300 | Byte by byte, a word of the schedule is the word eight before plus, in every eighth, the S-box of the next byte of the word before with the round constant in the first; in every fourth after that the S-box of the same byte; else the same byte |
| AesCipher.RolledIsSchedule | testaes.c:279-300 | After n steps the key buffer holds words 8n to 8n+7 of the key schedule of section 5.2 of FIPS 197 |
| AesCipher.NextUndone | testaes.c:279-324 | aes_expDecKey undoes aes_expandEncKey on the key |
| AesCipher.PrevUndone | testaes.c:279-324 | and the other way round |
| AesCipher.RoundConstants | testaes.c:35-36 | F is doubling in the field, and FD undoes it |
| AesCipher.LastRoundConstant | testaes.c:382 | The constant decryption starts from is the one encryption ends with |
| AesCipher.UnroundsMeetRounds | testaes.c:350-395 | After each round of decryption the state is that of encryption before the corresponding round |
| AesCipher.DecryptEncrypt | testaes.c:350-395 | Decryption undoes encryption for every key and block |
| Aes256.Antilog | testaes.c:116-124 | The loop computes the power of 3 |
| Aes256.Logarithm | testaes.c:127-138 | The loop finds the least logarithm, or runs round to 0 |
| Aes256.Inverse | testaes.c:142-146 | gf_mulinv |
| Aes256.Sbox | testaes.c:149-159 | rj_sbox |
| Aes256.SboxInverse | testaes.c:162-172 | rj_sb_inv |
| Aes256.SubBytesInPlace | testaes.c:184-190 | The S-box on every byte of the block |
| Aes256.InvSubBytesInPlace | testaes.c:193-199 | The inverse S-box on every byte |
| Aes256.AddRoundKeyInPlace | testaes.c:202-208 | The round key added |
| Aes256.AddFirstKey | testaes.c:211-217 | The key added, and the whole key copied to the working buffer |
| Aes256.ShiftRowsInPlace | testaes.c:221-231 | The exchanges turn row r left by r columns |
| Aes256.InvShiftRowsInPlace | testaes.c:234-244 | and right by r columns |
| Aes256.MixColumnsInPlace | testaes.c:247-259 | The matrix on every column |
| Aes256.InvMixColumnsInPlace | testaes.c:262-276 | The inverse matrix on every column |
| Aes256.WordsExpanded | testaes.c:284-298 | A step of the schedule on words is the step the source makes on bytes |
| Aes256.ExpandEncKey | testaes.c:279-300 | One step of the schedule on the 32-byte buffer, byte by byte, and of the round constant |
| Aes256.ExpandDecKey | testaes.c:303-324 | One step back: from what it leaves a step forward leads to what there was, byte by byte |
| Aes256.HalfIsRoundKey | testaes.c:362-363 | The halves of the buffer after n steps are round keys 2n and 2n+1 |
| Aes256.RolledBack | testaes.c:303-324 | Rolling back arrives at the buffer and the constant before |
| Aes256.Context.Init | testaes.c:328-337 | enckey is the key, deckey the buffer after seven steps |
| Aes256.Context.EncryptEcb | testaes.c:350-369 | The cipher of section 5.1 of FIPS 197, in place, the context ready for the next block |
| Aes256.Context.TakeKeyBack | testaes.c:384-389 | Round i of decryption adds round key i, rolling back when i is odd |
| Aes256.Context.DecryptEcb | testaes.c:372-395 | The inverse cipher of section 5.3 |
| Aes256.EncryptThenDecrypt | testaes.c:418-425 | A block encrypted and decrypted under any key is what it was |
| AesVector.InverseAt | testaes.c:142-146 | The inverse of the n-th power of 3 is its power 255 - n |
| AesVector.Table0 | testaes.c:149-159 | The S-box from 00 to 1f as tabulated in section 5.1.1 of FIPS 197; Table1 to Table7 are the rest |
| AesVector.TestVector | testaes.c:410-422 | The cipher of the key and block of main is the text shown there as tst, and the inverse cipher gives the block back |
| AesVector.Shown | testaes.c:406-426 | What main shows as enc and dec |
| HuffTree.HeightBound | encode.c:114-147 | A tree of n leaves is less than n high |
| HuffTree.DecodeCode | decode.c:55-62 | A code word followed by anything is read as its character, and nothing more is consumed |
| HuffTree.DecodeEncode | decode.c:55-62 | Reading as many characters as were written gives them back, whatever bits follow |
| HuffTree.DecodeNameEncode | dehuff.c:125-126 | A name and its NUL, read into a buffer with room for it |
| HuffTree.WalkSafeguard | encode.c:254-272 | What walk_tree writes and one 0 more is the form in which a leaf is a 0, which get_tree reads |
| HuffTree.ParseSerial | decode.c:28-39 | get_tree on that form gives the tree back, taking one character for each leaf in order |
| HuffCost.CodeLength | encode.c:174-185 | The length of a code word is the depth of its leaf |
| HuffCost.Rearranged | encode.c:93-95 | The rearrangement inequality for frequencies and depths |
| HuffCost.LeastExact | encode.c:93-95 | An assignment of characters to leaves has the least total of frequency times length if and only if no leaf has a rarer character than a deeper one |
| HuffBuild.Count | encode.c:47-82 | Frequencies of all contents, names and NULs |
| HuffBuild.Rank | encode.c:83-89 | The characters by falling frequency, and the number in use |
| HuffBuild.CmprConsistent | encode.c:152-161 | cmpr is an ordering, as qsort needs |
| HuffBuild.BuiltLeaves | encode.c:114-147 | One leaf for each character, numbered as they were made, from left to right |
| HuffBuild.RecordsAt | encode.c:121-122 | The level recorded for a leaf is one more than its depth, modulo 256 |
| HuffBuild.Builder.constructor | encode.c:90-91 | Level and index start at zero |
| HuffBuild.Builder.Split | encode.c:127-134 | The entry a range is split after: the first at which the running total reaches the range's total divided by the factor, or the middle |
| HuffBuild.Builder.NewLeaf | encode.c:136-139 | A leaf and its record |
| HuffBuild.Builder.Bld | encode.c:114-147 | The tree of the range, all its leaves recorded, the level as it was |
| HuffMake.CmpnpConsistent | encode.c:166-169 | cmpnp is an ordering |
| HuffMake.Assign | encode.c:94-95 | The leaves by rising level get the characters by falling frequency |
| HuffMake.AssignedChars | encode.c:83-95 | The leaves have exactly the characters that occur, each once |
| HuffMake.NotAllDeep | encode.c:114-147 | At most 256 leaves cannot all be 255 deep |
| HuffMake.WrappedOutOfOrder | encode.c:17-18 | A leaf 255 deep, whose level wraps to 0, gets the commonest character |
| HuffMake.OrderExact | encode.c:93-95 | The assignment is in order if and only if no leaf is 255 deep or all frequencies are equal |
| HuffMake.HalfSplit | encode.c:127-134 | With the factor 2 neither side of a split exceeds half the total, but for its last entry |
| HuffMake.HeightLog | encode.c:114-147 | so that the tree is at most twice as high as the total has bits |
| HuffMake.DefaultShallow | encode.c:114-147 | and with the default factor no level wraps |
| HuffDeep.SplitIs | encode.c:127-134 | A range has one place only to be split, that at which the loop stops |
| HuffDeep.HeightExact | encode.c:114-147 | The tree is as high as its number of leaves allows if and only if every split is at an end of its range |
| HuffMake.WrappedExact | encode.c:114-147 | A level wraps if and only if all 256 characters are in use and every split of the ranked frequencies under the factor is at an end of its range |
| HuffMake.CostlyExact | encode.c:93-95 | The assignment is in order if and only if it is not so that all 256 characters are in use, not all equally frequent, and every split is at an end |
| HuffMake.CostlySame | encode.c:83-95 | a matter of frequencies and factor only, however the sort orders equal frequencies |
| HuffDeep.FlatSplits | encode.c:129-134 | With a factor larger than the total every split is at an end |
| HuffMake.SampleCostly | encode.c:129-134 | A file with every byte once, named with one letter, meets the condition under the factor 600 |
| HuffMake.SampleTree | encode.c:40-98 | so that the total for it is not the least |
| HuffMake.SetBitSets | huff.h:21-23 | SET and CLR change the one bit that TST reads |
| HuffMake.WordExtended | encode.c:180-181 | Setting the next bit and counting it appends to the code word |
| HuffMake.BldBits | encode.c:174-185 | Every leaf's character gets the path to it as its code word; no other entry changes |
| HuffMake.Plant | encode.c:90-93 | The tree of the characters in use, and its leaves by rising level |
| HuffMake.MakeTree | encode.c:40-98 | The characters that occur, each on one leaf, with the path to it as code word; the total is the least the shape allows if and only if it is not so that all 256 characters are in use, not all equally frequent, and every split is at an end of its range; so always with fewer characters, and with the default factor |
| HuffMake.Codes | encode.c:96-97 | The code words of the whole tree |
| HuffPack.PackBit | encode.c:209-218 | The bits are where a reader finds them, lowest first in each byte |
| HuffPack.PackRead | decode.c:46-53 | Reading packed bits gives them back, whatever bytes follow |
| HuffPack.OverTwice | encode.c:209-218 | Two writes, the second where the first ended, are one |
| HuffPack.Assembled | enhuff.c:93-102 | The parts of the archive, written in the program's order, come together without gap or overlap |
| Enhuff.U2Read | hmisc.c:106-114 | What put2 wrote get2 reads |
| Enhuff.U4Read | hmisc.c:83-101 | What put4 wrote get4 reads |
| Enhuff.Output.PutBit | encode.c:209-218 | One bit more has been put |
| Enhuff.Output.PutHch | encode.c:223-237 | The code word of a character has been put, from the first bit on |
| Enhuff.Output.Align | encode.c:199-204 | The bits put are all in the file, filled up with zeros |
| Enhuff.Output.PutTchrs | encode.c:242-249 | The characters of the leaves, from left to right |
| Enhuff.Output.WalkTree | encode.c:254-262 | The tree as bits, leaves left out |
| Enhuff.Output.PutTree | encode.c:267-272 | Characters, tree and safeguard |
| Enhuff.Output.PutData | enhuff.c:140-142 | A file's contents in code, aligned |
| Enhuff.Output.PutName | enhuff.c:120-123 | A name and its NUL in code, aligned |
| Enhuff.Output.PutNames | enhuff.c:113-125 | All names, and where each starts |
| Enhuff.Output.PutFiles | enhuff.c:130-145 | All contents, and where each starts |
| Enhuff.Output.Put2 | hmisc.c:74-78 | Two bytes, low one first |
| Enhuff.Output.Put4 | hmisc.c:83-86 | Four bytes, low one first |
| Enhuff.Output.PutEntry | enhuff.c:162-165 | A directory entry of 13 bytes |
| Enhuff.Output.PutHead | enhuff.c:153-159 | The header, at the start of the file |
| Enhuff.Output.PutDirectory | enhuff.c:160-166 | The directory, where room was left for it |
| Enhuff.Archive | enhuff.c:75-104 | The finished file is header, tree, directory, names and contents one after the other, although written in another order; the tree is the one made with the factor of -f, or 2 without it, and with 2 its total length is least |
| Enhuff.SmallArchive | enhuff.c:95-160 | An archive byte by byte |
| Dehuff.Input.Getchar | dehuff.c:77 | The next byte, or -1 at the end |
| Dehuff.Input.Align | decode.c:41-44 | The next bit is the first of the next byte |
| Dehuff.Input.GetBit | decode.c:46-53 | The next bit, or failure at the end of the file |
| Dehuff.Input.GetTree | decode.c:28-39 | The tree at the head of the remaining bits |
| Dehuff.Input.GetHch | decode.c:55-62 | The character at the head of the remaining bits |
| Dehuff.Input.Get2 | hmisc.c:106-114 | A little-endian number of two bytes, or failure at the end |
| Dehuff.Input.Get4 | hmisc.c:91-101 | and of four |
| Dehuff.Input.BldTree | decode.c:18-26 | Characters and tree |
| Dehuff.Input.OpenFile | dehuff.c:79-85 | Header and tree, or failure on a wrong magic number or a short file |
| Dehuff.Input.GetEntry | dehuff.c:159-163 | The entry of a member |
| Dehuff.Input.ReadName | dehuff.c:164-167 | A name into a buffer of 100 |
| Dehuff.Input.ReadData | dehuff.c:173-176 | As many characters as the entry says |
| Dehuff.Input.Extract | dehuff.c:153-178 | Name, contents and mode of a member |
| HuffTrip.EntryPlace | enhuff.c:160-166 | Where in the archive each directory entry lies |
| HuffTrip.NamePlace | enhuff.c:113-125 | Where each name lies |
| HuffTrip.DataPlace | enhuff.c:130-145 | Where each file lies |
| HuffTrip.OpenArchive | dehuff.c:79-85 | The extractor finds in an archive the count, the tree and the directory position that went into it |
| HuffTrip.MemberRestored | dehuff.c:153-178 | Member i is file i, name, contents and mode, for every archive |
| HuffTrip.ArchiveThenExtract | dehuff.c:88-93 | Enhuff and then dehuff give back the files, for any factor; the archive is that of the tree made with it |
| Z80.AddLong | float.as:338-341 | The 32-bit addition of two register pairs, with its carry |
| Z80.SubLong | ldiv.as:239-242 | The 32-bit subtraction |
| Z80.RrLong | float.as:358-363 | The 32-bit shift right |
| Z80.RlLong | float.as:418-422 | The 32-bit shift left |
| Z80.RrThree | float.as:299-301 | The 24-bit shift right |
| Division.QuotRem | ldiv.as:77-80 | Truncating quotient and remainder make up the dividend; the remainder is smaller than the divisor and has the dividend's sign |
| Division.QuotRemUnique | ldiv.as:119-120 | No other quotient and remainder do |
| Division.DivideStep | ldiv.as:235-269 | Compare, subtract and shift keep dividend = quotient * divisor + remainder |
| Division.Divide16 | idiv.as:37-88 | 16-bit division; by zero the quotient is 0 and the remainder the dividend |
| Division.ShiftDown | idiv.as:64-79 | The loop that gathers the quotient bits |
| Division.Ldiv | idiv.as:17-26 | Unsigned quotient and remainder |
| Division.Adiv | idiv.as:29-97 | Signed quotient, modulo the word size, and remainder |
| Division.ShiftUpLong | ldiv.as:203-229 | The divisor shifted up is more than half the dividend and has lost no bit |
| Division.QuotientBit | ldiv.as:235-267 | One bit of the quotient |
| Division.ShiftDownLong | ldiv.as:235-270 | The loop over the bits |
| Division.Divide32 | ldiv.as:193-270 | 32-bit division; by zero the quotient is 0 |
| Division.Lldiv | ldiv.as:96-108 | Unsigned, quotient and remainder (llmod) |
| Division.Aldiv | ldiv.as:75-133 | Signed, quotient modulo the word size, and remainder (almod) |
| Rounding.HalfUpNearest | float.as:328-331 | Rounding half up: no whole number is nearer |
| Rounding.NearestExact | float.as:320-331 | The 24 leading bits rounded half up are the nearest float there is, if and only if the last carry does not push the exponent past 127 |
| Rounding.LostCarry | float.as:211-218 | When it does, the largest float is nearer than the result |
| FloatKernels.Round | float.as:195-221 | One more in the last place; a carry goes to the exponent, and from 127 into the sign |
| FloatKernels.RoundUpOutcome | float.as:195-221 | That is the rounded mantissa as the arithmetic has it |
| FloatKernels.Fpnorm | float.as:30-68 | Shifts up until the mantissa is normal, or flags an underflow |
| FloatKernels.NormalizedValue | float.as:30-68 | The value is kept, or, flagged, it was too small for any normal float |
| FloatKernels.NormalAlready | float.as:40-41 | A normal number is left alone |
| FloatMulDiv.Mult26 | float.as:333-353 | Half the product by the low byte; the multiplicand 6 places up |
| FloatMulDiv.Mult8 | float.as:355-373 | Eight more bits, the product shifted down |
| FloatMulDiv.Multiply | float.as:278-287 | The whole product, 17 places down |
| FloatMulDiv.ShiftOut | float.as:293-309 | Shifts down until the top byte is empty; in C no shifted-out bit is lost |
| FloatMulDiv.EarlyShifts | float.as:355-363 | The bits lost by shifting early never change the rounded product |
| FloatMulDiv.ExponentSumIs | float.as:313-321 | The 8-bit arithmetic on exponents is exact when the sum is in range, and its sign bit tells when it is not |
| FloatMulDiv.ProductRounds | float.as:278-331 | What the shifts leave is the exact product rounded half up |
| FloatMulDiv.Flmul | float.as:263-331 | The rounded product, or zero and the flag; zero operands give zero |
| FloatMulDiv.DivideBit | float.as:395-426 | One bit of the quotient of mantissas |
| FloatMulDiv.DivideLoop | float.as:392-428 | Thirty of them |
| FloatMulDiv.Divide | float.as:380-428 | The quotient of the mantissas, 29 places up |
| FloatMulDiv.LateRounding | float.as:440-471 | Rounding the truncated quotient is rounding the quotient |
| FloatMulDiv.ExponentDifferenceIs | float.as:455-463 | The same for the exponents of a quotient |
| FloatMulDiv.QuotientRounds | float.as:392-471 | What the shifts leave is the exact quotient rounded half up |
| FloatMulDiv.Fldiv | float.as:380-472 | The rounded quotient, or zero and the flag; a zero dividend gives zero, but the flag may go up |
| FloatLaws.ProductValue | float.as:263-331 | The exact product of the two values is the ratio that is rounded |
| FloatLaws.ProductNearest | float.as:263-331 | A product is flagged if and only if the exponent is out of range, and an unflagged one is the float nearest to the exact product, sign and all, if and only if the last rounding does not carry the exponent past 127; then it is negative if and only if one operand is |
| FloatLaws.ProductOverflows | float.as:327-331 | Two positive numbers whose product comes out tiny and negative, unflagged |
| FloatLaws.QuotientNoCarry | float.as:469-471 | A quotient never rounds up to the next power of two |
| FloatLaws.QuotientNearest | float.as:380-472 | An unflagged quotient is the float nearest to the exact one, sign and all, and negative if and only if one operand is |
| FloatLong.Slop | ltof.as:42-51 | 25 leading bits are left, and they round as the whole does |
| FloatLong.Slop2 | ltof.as:52-77 | Rounding, the last shift and what may follow from it |
| FloatLong.Lltof | ltof.as:36-77 | An unsigned long as a float |
| FloatLong.Altof | ltof.as:79-92 | A signed long: the float of the absolute value, with the sign |
| FloatLong.LongToFloatNearest | ltof.as:36-92 | For a long of either sign, exact up to 2^24 in magnitude, and beyond that the nearest float |
| FloatLong.Negmant | float.as:72-82 | The mantissa subtracted from zero |
| FloatLong.Alrsh | alrsh.as:7-20 | The signed value divided by a power of two, rounded down, for any count |
| FloatLong.Allsh | allsh.as:7-21 | The value times a power of two, modulo 2^32 |
| FloatLong.RoundedShift | ftol.as:21-33 | Rounding the last place after the shift is rounding half up |
| FloatLong.Ftol | ftol.as:8-33 | The result on registers, modulo 2^32 |
| FloatLong.FloatToLongExact | ftol.as:8-33 | It is the whole number nearest to the value, halves up, for every float but the negative zeros with an exponent of 64 or more |
| FloatLong.LongRoundTrip | ftol.as:8-33 | Every long up to 2^24 in magnitude comes back from float as it was |
| CpmFiles.PutTwice | write.c:60-94 | Two writes, the second where the first ended, are one |
| CpmFiles.AtAfter | write.c:64-92 | A write changes exactly the bytes of its range |
| CpmFiles.PutContents | write.c:57-96 | On a file without holes a write is the overlaying of a string, longer if need be |
| CpmFiles.Provenance | write.c:81-84 | After any writes to a new file every byte of every record was written last by some caller, or is ^Z |
| CpmFiles.Fcb.ReadRandom | read.c:96-101 | An absent record leaves the buffer as it was |
| CpmFiles.Fcb.FillEtx | write.c:81-82 | The overlapping move fills the buffer with ^Z |
| CpmFiles.Fcb.WritePart | write.c:63-92 | The part of a write in one record |
| CpmFiles.Fcb.Write | write.c:57-96 | The range written, the position after it, the size the maximum |
| CpmFiles.Fcb.ReadPart | read.c:79-106 | The part of a read in one record |
| CpmFiles.Fcb.Read | read.c:71-110 | The slice at the position, as long as asked, or to the end of the file or the first absent record |
| CpmFiles.Fcb.Lseek | seek.c:14-34 | The new position, from the start, the position or the end; -1 and no change for a negative one |
| Stdio.SurvivesWhole | fgetc.as:95-99 | A text survives text mode if and only if it has no carriage return and no ^Z |
| Stdio.LineEnds | fputc.as:22-75 | In text as fputc writes it every line feed comes after a carriage return |
| Stdio.TextDelivered | fgetc.as:50-131 | Text as fputc writes it, read back, is what survives of it, however many ^Z follow |
| Stdio.BinaryDelivered | fgetc.as:85-87 | Binary contents are delivered whole |
| Stdio.Stream.constructor | freopen.c:63-77 | A stream opened with "r" or "w" has an empty buffer and stands at the start of its file |
| Stdio.Stream.Filbuf | filbuf.c:8-32 | The next byte of the file as the caller sees it, or end of file |
| Stdio.Stream.Fgetc | fgetc.as:50-131 | The next character after the caller's position, carriage returns passed over and ^Z the end in text; once at the end, always at the end |
| Stdio.Stream.GiveBack | fgetc.as:100-114 | A ^Z is put back: the position stays before it |
| Stdio.Stream.Flsbuf | flsbuf.c:9-33 | The buffer written out, the byte first in the next |
| Stdio.Stream.Fputc | fputc.as:35-92 | The file as the caller sees it has the character, or in text CR and LF, at the caller's position |
| Stdio.Stream.Fflush | fflush.c:9-27 | The caller sees no difference, and the file on disk is what the caller sees |
| Stdio.Stream.Ftell | fseek.c:85-95 | The caller's position, for reader and writer |
| Stdio.Stream.Shift | fseek.c:67-79 | A seek within the buffer moves in it; any other drops it |
| Stdio.Stream.Fseek | fseek.c:36-83 | The caller's position is the target, the contents are unchanged; a negative target is refused, and a reader then goes on at the file's own position, which is another one if and only if something was left in the buffer |
| StreamRuns.ReadRun | fseek.c:36-95 | Any run of fgetc, ftell and fseek within a binary file gives what its contents and a cursor give |
| StreamRuns.EditOne | flsbuf.c:9-33 | Each of fputc, fflush, ftell and fseek on a binary writer does to what the caller sees what it does to an unbuffered file |
| StreamRuns.EditRun | fseek.c:36-95 | Any run of them gives what records, a size and a cursor give, and fclose leaves just those records |
| Stdio.SeekMoves | fseek.c:64-82 | A file on which a refused seek moves the position |
| Stdio.Stream.Fclose | close.c:47-69 | The file on disk is as the caller saw it; in mode I the unused bytes of the last record are noted |
| Stdio.Fsize | open.c:16-34 | 128 for each record, less the unused bytes of the last |
| Stdio.NewFileCount | open.c:16-23 | A newly written file has just the records its data need |
| Stdio.NewFileContents | write.c:81-84 | Its contents are the data and then ^Z to the end of the last record |
| Stdio.WriteText | fputc.as:35-92 | A text written character by character is its coded form in the file |
| Stdio.WriteAll | fclose.c:9-24 | written, flushed and closed |
| Stdio.ReadText | fgetc.as:50-131 | Reading to the end delivers all that can be delivered |
| Stdio.ReadAll | open.c:61 | opened with the size open finds |
| Stdio.WriteThenRead | fgetc.as:50-131 | Text written, closed, opened and read comes back unchanged if and only if it has no CR and no ^Z, exact size or not; binary data do with exact sizes, and otherwise have ^Z after them |
| CommandFile.StreamSum | ec.c:550-561 | A list of commands is written as its parts are, one after the other |
| CommandFile.SectionRuns | exec.as:150-166 | A section ending in a trap runs up to its first failure, and what is after the trap is performed in any case |
| CommandFile.SectionsRun | exec.as:150-166 | Every section is run, whatever became of those before |
| CommandFile.SectionStarts | exec.as:216-311 | The first program of a section is run |
| Executor.Interpreter.Getch | exec.as:395-416 | The next byte of the command file, or the end |
| Executor.Interpreter.Rdbytes | exec.as:313-318 | The next bytes, 256 when 0 are asked for |
| Executor.Interpreter.SkipRecord | exec.as:362-371 | A whole record is passed over, whatever it is |
| Executor.Interpreter.Skipto | exec.as:376-382 | Everything up to and with the next trap is passed over; an EXIT or the end of the file ends it |
| Executor.Interpreter.Doexec | exec.as:216-311 | The program is run with the command line of its record, and the next record is ahead |
| Executor.Interpreter.Rm | exec.as:384-389 | The file of the record is removed |
| Executor.Interpreter.Xprint | exec.as:320-341 | The text of the record is printed |
| Executor.Interpreter.Command | exec.as:168-186 | The command byte and the length of the next record |
| Executor.Interpreter.Docmd | exec.as:150-186 | What has been done and what is to come make up what the commands call for |
| Executor.TestExact | exec.as:170-173 | The range test accepts 24 command bytes, and the table has entries for the first 12, which are the codes of the commands |
| Executor.TestRight | exec.as:170-202 | The test accepts what has an entry, and nothing else, if and only if the byte is not from 0x8C to 0x97; 0x8C passes and has none |
| Executor.Execute | exec.as:137-166 | The interpreter does exactly what the commands call for, for every command file and every pattern of failures |
| Driver.QuietRuns | exec.as:384-389 | Printing and removing go on whatever has failed |
| Driver.IgnoringRuns | exec.as:150-166 | Under IGN_ERR every command of a section is performed |
| Driver.DefaultRuns | exec.as:150-166 | Under DEF_ERR everything ends at the first failure |
| Driver.Modes | exec.as:150-166 | What a failure in a section leads to under each of the three |
| Driver.Guards | exec.as:426-436 | The command after IF_ERR is performed if and only if something has failed before, the one after IF_NERR if and only if nothing has |
| Driver.AlwaysEnds | exec.as:150-186 | A script whose programs all come before a trap ends by removing itself, whatever fails |
| Driver.ScriptRuns | ec.c:403-533 | Before the link step every section runs up to its first failure; the linker runs exactly if none has failed, and what comes after is performed knowing that |
| Driver.ScriptEnds | ec.c:525-526 | The last thing done is the removal of the command file, and the end |
| Driver.EachStarts | ec.c:416-426 | Every section with a program has its first program run |
| EcItems.FoldedKeeps | ec.c:649-664 | A redirection file with its line breaks taken out has all arguments in order |
| EcItems.FoldedFits | ec.c:649-664 | and no line of more than 126 characters and the backslash |
| Ec.Compiler.PutCmd | ec.c:557-561 | A command without parameters |
| Ec.Compiler.PrintText | ec.c:550-555 | A PRINT record |
| Ec.Compiler.Rm | ec.c:535-548 | An RM_FILE or RM_EXIT record, announced before when verbose |
| Ec.Compiler.Measure | ec.c:635-643 | The 8-bit length is right as far as the decision for a redirection goes |
| Ec.Compiler.Redirect | ec.c:646-665 | The redirection file holds the arguments |
| Ec.Compiler.Join | ec.c:671-673 | The command line, a space before each argument |
| Ec.Compiler.Doexec | ec.c:625-689 | An EXEC record with the command line, or with a redirection and its removal after it |
| Ec.Compiler.Compile | ec.c:756-830 | The programs for a C file, in order and with their arguments, for every combination of flags |
| Ec.Compiler.Assemble | ec.c:728-754 | The assembler for an assembler or symbol file |
| Ec.Compiler.AssembleSym | ec.c:691-726 | With overlays the conversion of the symbols comes first, in a section of its own |
| Ec.Compiler.OneSource | ec.c:418-425 | The sections of one source file, a trap after each |
| Ec.Compiler.AllSources | ec.c:416-426 | and of all |
| Ec.Compiler.CleanUp | ec.c:427-430 | The removal of the temporary files |
| Ec.Compiler.GatherArguments | ec.c:431-487 | The linker's arguments |
| Ec.Compiler.LinkStep | ec.c:431-502 | The linker under IF_NERR, and the conversion of its output when the program is relocatable |
| Ec.Compiler.CrossStep | ec.c:503-524 | CREF under IF_NERR, or a notice |
| Ec.Compiler.Doit | ec.c:403-527 | The whole command file is the items laid down for it, byte for byte |
| EcRuns.ItemsPlan | ec.c:413-526 | Those items are a script of sections, removals, link step and end |
| EcRuns.PlanWellFormed | ec.c:413-526 | of the form the laws of scripts are about |
| EcRuns.SourceBegins | ec.c:416-426 | Each source file has a section that begins with the program it should begin with |
| EcRuns.AllStart | ec.c:416-426 | which is run whatever fails |
| EcRuns.TemporariesRemoved | ec.c:427-430 | The temporary files are removed whatever fails |
| EcRuns.ConvertedAnyway | ec.c:488-499 | The conversion of the linker's output is run even when the linker was not |
| EcPrograms.NotRun | exec.as:150-186 | A program no command asks for is not run |
| EcPrograms.BeforeWithout | ec.c:416-430 | Before the link step neither the linker nor the conversion is run |
| EcPrograms.LinkerRuns | ec.c:431-489 | The linker is run, in the whole run, if and only if there is something to link and nothing before has failed |
| EcPrograms.ConvertedExact | ec.c:488-499 | The conversion is run without the linker if and only if the program is relocatable, to be linked, and something has failed before |
| EcRedirect.RedirectionShared | ec.c:646-667 | Long command lines all refer to one file, which has the arguments of the last of them |
| EcRedirect.OnDiskExact | ec.c:687-688 | The file is there until it is first removed |
| EcRedirect.RedirectionRight | ec.c:644-688 | In any run a program finds its own list there if and only if the file has not been removed yet and its list is that of the last long command line |
| EcRedirect.DoEvents | ec.c:687-688 | After a long command line that succeeds the file is removed next; after one that fails it is not |
| EcRedirect.BeforeSettled | ec.c:416-430 | Up to the link step the file is gone if and only if a program with redirected arguments has succeeded |
| EcRedirect.FlowRuns | exec.as:432-436 | As long as nothing has failed IF_NERR changes nothing, up to the next trap |
| EcRedirect.Unlinked | ec.c:488-499 | After a failure the file of a linker with a long command line is removed first, and at most one program is run after that |
| EcRedirect.SettledAt | ec.c:488-533 | In the whole run, whenever a program is started, the file is gone if and only if a program with redirected arguments has succeeded or a linker with a long command line has been passed over |
| EcRedirect.RedirectionExact | ec.c:644-688 | so that any program of the run, the conversion and the cross-referencer among them, finds its own list if and only if neither has happened before it and its list is that of the last |
| EcRedirect.LinkerFindsNothing | ec.c:644-688 | When nothing fails, a linker with a long command line finds no file if the first program of a source file had one |
| EcRedirect.SampleFindsNothing | ec.c:644-688 | A case with two long command lines: nothing fails, and the last program finds nothing |
| EcFlow.PassFlow | ec.c:763-794 | Preprocessor and first pass: the code generator will find the intermediate code of the source |
| EcFlow.CompileFlow | ec.c:756-833 | A C file, for every combination of flags: each program finds what it needs where it is told to look, and the object or assembler file has been made of that source, optimized as asked; only temporary files are written besides |
| EcFlow.SourceFlow | ec.c:691-833 | The same for any source file but a symbol file without overlays |
| EcFlow.SymbolLost | ec.c:691-726 | and there the assembler does not find its input |
| EcFlow.SourcesFlow | ec.c:416-426 | For any list of sources: every program finds what it needs if and only if there is no symbol file without overlays |
| EcBuild.LinkerGiven | ec.c:452-486 | The linker is given the output and all objects and libraries, in order |
| EcBuild.LinkFlow | ec.c:431-502 | The program is made of them, in one step or by way of the conversion |
| EcBuild.SourceLinked | ec.c:470-475 | the object of every source that is named among them |
| EcBuild.CrossFlow | ec.c:503-527 | The listing covers the C files in order |
| EcBuild.BuildFlows | ec.c:403-533 | All of it: what the programs make of each other's files when none fails, from the sources to the program, nothing of the driver's own being left |
| EcBuild.UnfailedRun | exec.as:137-166 | When none fails every command the items come to is performed, in order |
| EcBuild.PlainestMade | ec.c:403-533 | A build of one C file |
| EcBuild.SymbolsLost | ec.c:691-726 | One of a symbol file, whose assembler input nobody writes |
| EcTrip.CompileAndExecute | exec.as:137-166 | Driver and interpreter together, for any pattern of failures: every source file is started, the linker is run if and only if nothing before it failed, the conversion without it exactly in the case above, temporary files go, and the command file last of all; with no failure everything is performed |
| Calendar.RulesAgree | mktime.c:6 | The two leap-year rules agree exactly for 1901 to 2099 |
| Calendar.YearStartGregorian | ctime.c:59-60 | Counting years by the rule of ctime.c is the Gregorian day number, 1970 to 2100 |
| Calendar.MonthStartIs | ctime.c:7 | The table of months adds up to the formula of 153 days in five months from March on |
| Calendar.CivilDate | ctime.c:41-78 | A date is as many days after the first of January 1970 as a formula says that has neither tables nor leap-year tests, and the day of the week goes with it |
| Calendar.OneDate | ctime.c:41-78 | A time is that of one date only |
| Calendar.MadeIsSeconds | mktime.c:14-41 | mktime's sum is the time the fields stand for, for years 1970 to 2099 |
| Calendar.Clock.FindYear | ctime.c:57-63 | The year and the day in it |
| Calendar.Clock.FindMonth | ctime.c:65-74 | The month and the day in it; the table is never left |
| Calendar.Clock.Gmtime | ctime.c:41-78 | All fields in range and consistent, for exactly the given time, by counting and by the formula |
| Calendar.Clock.Localtime | ctime.c:31-39 | The same for the time less the zone |
| Calendar.Clock.Mktime | mktime.c:14-41 | The sum of its loops as longs add, for any fields with a month in the table |
| Calendar.Clock.LocalAndBack | mktime.c:14-41 | mktime undoes localtime |
| Calendar.Clock.BackAndLocal | mktime.c:14-41 | and localtime undoes mktime |

## Left out

- Malloc.Allocator.Malloc: requests above 0xFEF0 bytes, for which the rounded size or the growth wraps in 16 bits. The call after a NULL that has left the rover off the list is Malloc.Allocator.MallocStranded; runs of calls after it are not followed further.
- Malloc.Allocator.Realloc: the case that malloc fails after realloc has freed the block is stated as far as the rest of the arena goes; the old block is then free.
- QSort.Qsort: elements are values moved whole, and the array fits the address space; the byte-wise swap, the 800-byte pivot buffer and its allocation for wider elements are not modelled. What comes of a pivot that is missed is not said. An empty array is left out, as the source then sorts from 0 to -1, and so are 32768 elements of one byte and more, whose number does not fit an int.
- HuffBuild.Builder.Bld: tree nodes are values, and a leaf is known by its number; the source fills in the character through a pointer, here Labelled does. Running out of memory for nodes is left out.
- HuffMake.MakeTree: at least one file has been read; with none the source builds a tree for an empty range.
- HuffTrip.ArchiveThenExtract: archives below 2^31 bytes, names of up to 99 characters without NUL, fewer than 500 files. Longer names overrun the buffer of the extractor.
- Dehuff.Input.GetTree: more leaves than the 256 places of the character table are undefined in C and a failure here.
- Enhuff.Archive: two readings of a file give the same characters; the text translation of the files is that of the stream module, not repeated here. Listing, overwriting questions and the report of the compression rate are left out.
- Aes256.Context.EncryptEcb: the tables under BACK_TO_TABLES, aes_done and the printing of the test vector are left out.
- FloatMulDiv.Flmul: operands that are neither normal nor zero. The library never produces them.
- FloatMulDiv.Fldiv: a divisor that is not normal, zero among them.
- FloatLong.Ftol: values of 2^31 and more are given modulo 2^32 only.
- fladd and flsub: the carry test loses a bit on mixed and on negative signs, so that no rounding law holds.
- Conversions of characters and 16-bit integers to float, compound assignments on longs, transcendental functions, decimal conversion.
- CpmFiles.Fcb.Read: a position beyond the end of the file, where the limit on the length goes wrong.
- CpmFiles.Fcb.Write: a write that fails because the disk is full.
- Stdio.Stream.Fclose: mode D, in which the count is stored as bytes used and read as bytes unused; directory attributes and user numbers.
- Stdio.Stream.Fseek: from the end of a text stream, which is found by reading; streams opened for update; unbuffered streams; ungetc. The contents, not single flags, are specified.
- Stdio.Fsize: a file whose directory entry cannot be found.
- Consoles, printers, pipes and other devices in read and write.
- Executor.Execute: command files that are not what ec.c writes, with ^Z to the end of the last record.
- EcRedirect.RedirectionExact: the other files removed are not the file for arguments, and no short command line begins with "<". That a program fails because it finds no file is up to the pattern of failures.
- Executor.Interpreter.Doexec: loading the program, prompting for another disk when it is not found, and echoing the command; of ECHO only the flag is kept. An empty command line or text, which the reading loop takes for 256 bytes, is not among the commands considered.
- Ec.Compiler.Doit: option parsing, the set-up of names and the symbol conversion sym2as, whose results are parameters; arguments of more than 129 characters, whose length an 8-bit counter cannot take; exhaustion of the fixed argument tables.
- EcBuild.BuildFlows: what each program does with the files it is given is a model, by kinds of contents; file names are the same only if they are spelt the same, and every program has its own arguments (EcRedirect says when). Flags other than those that change what is made are not followed. Runs in which a program fails are not followed here either.
- EcItems.FoldedKeeps: arguments containing backslashes; how the called program reads the file is not modelled.
- Calendar.Clock.BackAndLocal: years from 2100 on, where the two leap-year rules differ, and negative times.
- asctime, strftime, printf and scanf, string and character functions, overlays, start-up code: they would add only easy members.
