# Verified model of prelink

prelink assigns shared libraries fixed address ranges, relocates them for these ranges ahead of time, and stores in
each program the few relocations whose outcome in the program differs. This project models the parts of it that are
hardest to get right and proves what they are for. The theorems hold for all inputs; the methods follow the branches
and loops of the C code and are proved against them.

- Relocation: `ByteImage`, `ConflictTable`, `X86Relocation` (prelinking is invisible to the program), `Reversible`
  (REL sections become RELA and back), `SparcPlt` (the code written into a procedure linkage table slot).
- Layout: `Placement` (first fit over a doubly linked list), `ListBuilding`, `Rotation` (a random start), `Limits`
  (what is placed outside the region), `Eviction` (who loses a range), `LayOutLibs` (all stages joined), `LayoutCheck`
  (the check made at the end); and for --exec-shield on i386 `FreeAddress`, `Folding`, `Unfolding`, `ShieldedLayout`
  (all stages joined).
- Data structures and files: `HashTable` (double hashing with tombstones), `Cache` and `CacheLoad` (the prelink cache,
  written and read back), `SymbolSearch` (the hinted search for virtual tables), `SectionMove` (renumbered sections),
  `DwarfLocation` (location expressions shifted in place).
- Checksums: `Polynomial`, `Crc32`, `CrcDivision`, `Digest` (MD5 and SHA-1 streaming), `Md5`, `Sha1`, `KnownDigests`
  (the digests of "abc").
- `Word32` and `Wrappers` hold what several of these share.

Records, types and symbols of the ELF library, of qsort and of the trace of the dynamic linker are parameters: a
sorted arrangement is any arrangement in the order of the comparison, a table of symbols or a trace is any table.
Addresses of the layout are unbounded integers; the 32- and 64-bit arithmetic of relocations, probes, checksums,
digests and instructions is modelled as it is.

`dafny verify dfyconfig.toml` checks the whole project.

## Model

| member | source | states |
|---|---|---|
| `ByteImage.WordRoundTrip` | src/data.c:199-318 | reading back an n-byte word of either byte order gives its n low-order bytes |
| `ByteImage.BytesRoundTrip` | src/data.c:199-318 | encoding the number decoded from a run of bytes gives the same bytes |
| `ConflictTable.Table.Record` | src/get.c:385-457 | a line of the trace is accepted exactly when it repeats what is recorded for its key; then the table holds it, else it is unchanged, in the single list and in the 251 buckets alike |
| `ConflictTable.Table.RecordAll` | src/get.c:385-457 | a whole trace is accepted exactly when no two of its lines disagree about a key, and then the table reads as the trace does |
| `ConflictTable.Table.Search` | src/get.c:402-408 | the bucket search finds the conflict of a key if and only if there is one |
| `ConflictTable.Table.Rehash` | src/get.c:44-62 | at the sixteenth conflict the single list is spread over the buckets without losing or misfiling one |
| `ConflictTable.Table.Lookup` | src/conflict.c:33-52 | as Search, and the conflict found, no other, is marked as used |
| `ConflictTable.ConsistentNext` | src/get.c:402-423 | one more line keeps a trace consistent exactly when it repeats what is listed for its key |
| `X86Relocation.Prelinker.PrelinkTable` | src/prelink.c:119-153 | prelinking a table leaves the memory that relocating it in the library's own scope gives |
| `X86Relocation.ConflictBuilder.ConflictSection` | src/conflict.c:107-139 | the conflict relocations emitted are exactly those of the references that the trace lists |
| `X86Relocation.ApplyConflicts` | src/arch-x86_64.c:196-226 | applying the emitted relocations makes exactly the stores they stand for |
| `X86Relocation.PrelinkIsInvisible` | src/arch-x86_64.c:131-382 | where a line of the trace has what the executable's scope and what the library's own bind a reference to, modulo 2^64, under the 32-bit offset of its symbol, and others are bound alike: prelinking in the own scope and then applying the executable's conflicts, in whatever order, gives byte for byte the memory of relocating in the executable's scope |
| `X86Relocation.InvisibleExactly` | src/arch-x86_64.c:131-382 | and this is so exactly when at each target the last of the two stores is the one the executable's scope asks for |
| `X86Relocation.ConflictsMatter` | src/arch-x86_64.c:131-382 | prelinking alone gives that memory exactly when no line of the trace binds a relocated reference to two values that differ in the bytes stored |
| `X86Relocation.PrelinkThenLoad` | src/arch-x86_64.c:131-382 | the same of the code: build the conflicts, prelink, apply the conflicts, on a mutable image |
| `Placement.Layout.FirstFit` | src/layout.c:523-536 | the search stops at the lowest address from the start on where the library meets none of the marked entries |
| `Placement.Layout.Insert` | src/layout.c:545-575 | a library is linked into the circular list, which stays consistently linked and sorted by base |
| `Placement.Layout.Place` | src/layout.c:523-597 | one library is moved as a whole to the lowest fitting address and listed, or nothing changes and there is no room |
| `Placement.Layout.Mark` | src/layout.c:509-520 | with --conserve-memory exactly the libraries some object needs together with this one, and the boundary entries, are marked |
| `Placement.Layout.PlaceAll` | src/layout.c:500-598 | every library without a range gets, in turn, the lowest place there is for it, clear of whatever it is related to, on pages, everything listed before being kept in order and place; or the loop stops at one for which there is no room, wherever one looks, besides those placed so far |
| `Placement.StillClear` | src/layout.c:525-533 | after it, related libraries of which one is new keep clear of each other |
| `ListBuilding.BuildList` | src/layout.c:341-364 | the list holds, by address, the libraries with a range from the first that reaches the region to the last that begins in it, and what is left out comes before or behind it; a random start stays allowed exactly when all but the end of its head lies inside |
| `Rotation.Rotate` | src/layout.c:442-494 | the line that is searched, and whether its end is marked, are those of a fold over the list: what begins below the start is moved up one region, raising the start if it would be cut, and put behind the boundary entry; or everything is put back |
| `Rotation.Unrotate` | src/layout.c:606-614 | whatever was moved up or placed above the region moves back by one region, base and end, and layend stays where it is |
| `Rotation.LayendStays` | src/layout.c:606-614 | a listed library has its layend back exactly if it was not moved up; otherwise it ends one region too high |
| `Rotation.DisjointAtTheEnd` | src/layout.c:606-614 | libraries clear of each other on the rotated line keep off each other, with the room behind them, once moved back, also across the start |
| `Rotation.LayOutFrom` | src/layout.c:442-614 | rotate, place, move back: on the line given by the list each new library has, in turn, the lowest place; old libraries keep their range, each new one gets one of its size on a page, in the region's bounds, and inside it when its end is marked; unless the head of the list is far, it keeps off, with the room behind each, every listed library it is related to; failure means that no place on the line fits one of them |
| `Rotation.Determined` | src/layout.c:500-598 | there is only one such layout: on the same line, for the same list and order, every library has the same place |
| `Limits.AcrossExactly` | src/layout.c:457-475 | some library of whole pages is placed across the end of the region exactly when that end lies strictly inside a gap of the list and nothing as long as the gap fits any earlier |
| `Limits.BoundaryClosesEnd` | src/layout.c:459-474 | with the boundary entry in the list no library is |
| `Limits.PastExactly` | src/layout.c:347-362 | some library is placed past the limit of the search exactly when the head of the list begins above it and counts |
| `Limits.MeetExactly` | src/layout.c:442-614 | with a random start, two libraries placed one after the other meet once they are moved back exactly then |
| `Limits.StraddleCollides` | src/layout.c:442-475 | a concrete list where what lies across the end meets a library above the region |
| `Limits.WrapCollides` | src/layout.c:347-362 | a concrete list where a head far above the region makes a library, moved back, meet one placed before it |
| `Eviction.EvictFrom` | src/layout.c:312-325 | the loop over one object's dependencies, whose index goes back as well: what is left does not overlap, and what goes gives way, in the order it goes, to a neighbour that is still there |
| `Eviction.EvictAll` | src/layout.c:301-327 | over all objects: the libraries of an object that keep their range are disjoint, and those that lose it are exactly those of an order in which each gives way to a library that still has its own: one used more, or as much and starting earlier |
| `Eviction.Survivor` | src/layout.c:318-324 | so each library that loses its range is linked, by overlaps of non-decreasing use, to one that keeps its own |
| `Eviction.Propagate` | src/layout.c:329-339 | one pass, in any order, takes the range of exactly the libraries that depend on one without, because the dependency lists are closed |
| `Eviction.OrderMatters` | src/layout.c:332-339 | without closed lists one pass is not enough |
| `LayOutLibs.LayOut` | src/layout.c:207-656 | all stages joined, from the libraries as they were: a library keeps its range exactly if it begins on a page, gives way to none, in an order in which each gives way to one that still has its own, is not forced to another one, and all it depends on do as well; the others are listed by address; the rest gets the lowest places on the line this list gives, or no place on it fits one of them; then, unless the head of the list is far, of two libraries that one object needs one begins 8192 bytes or more behind the other if one is new, and they do not overlap if both may be changed |
| `LayOutLibs.NewSpaced` | src/layout.c:631-652 | a new range stays 8192 bytes off the libraries that are not listed, too, as long as the end of the region is guarded |
| `LayOutLibs.DecidedIntro` | src/layout.c:261-266 | which libraries keep their range, and that there is room behind each up to the first page 8192 bytes or more away, in terms of the libraries as they were alone, --force and --exec-shield included |
| `LayoutCheck.Check` | src/layout.c:634-652 | the check of DEBUG_LAYOUT passes exactly when an object's dependencies are not all laid out or neighbours by address are apart on pages, unless both are known from the cache |
| `LayoutCheck.EvictedPasses` | src/layout.c:301-327 | after the overlaps have been resolved it passes exactly if no library that kept its range overlaps a cached one that the same object needs |
| `LayoutCheck.LaidOutPasses` | src/layout.c:631-652 | and so it does at the end, in terms of the ranges before anything was laid out |
| `LayoutCheck.CachedOverlap` | src/layout.c:303-308 | two libraries laid out for which it fails |
| `ShieldedLayout.LayOutShielded` | src/arch-i386.c:866-1090 | all stages joined under --exec-shield: what lies with its room in one region, gives way to nobody and is not forced to another range keeps its own and is listed, the cuts are the nearest to where they are asked for, the rest gets the lowest places on the folded line, each in one part of one region, or there is no room; of two libraries that one object needs one begins 8192 bytes or more behind the other if one is new, and they do not overlap if both may be changed |
| `FreeAddress.LayoutInit` | src/arch-i386.c:867-902 | a library keeps its range exactly when it lies wholly in one of the three regions |
| `FreeAddress.FindFreeAddr` | src/arch-i386.c:905-960 | the cut of a region is the address nearest to the one asked for that no listed library lies across, even if listed libraries overlap, the upper one of two as near |
| `Folding.Fold` | src/arch-i386.c:996-1059 | the six parts of the regions are laid end to end on one line in the order 1, 0, 3, 2, 5, 4, each with its libraries behind its opener, the list sorted and linked |
| `Unfolding.Unfold` | src/arch-i386.c:1063-1090 | what stands between two openers moves back by the shift of its part |
| `Unfolding.LayOutRegions` | src/arch-i386.c:963-1090 | cut, fold, place, unfold: old libraries end where they began, each new one has, in turn, the lowest place on the line and lies, with its size, in one part of one region and clear of every listed library it is related to; failure means no room on the line |
| `Unfolding.LastPartExactly` | src/arch-i386.c:1054-1054 | some library of whole pages gets into the sixth part exactly when a listed library that counts begins there with a gap below it and nothing as long as the gap fits any earlier |
| `Unfolding.LastPartRefused` | src/arch-i386.c:1054-1054 | with nothing listed there is no room for a library less than a third as long as the sixth part, which is empty |
| `HashTable.PathVisits` | src/hashtab.c:313-337 | the probe sequence of a prime size visits every slot |
| `HashTable.Htab.Find` | src/hashtab.c:304-337 | lookup agrees with the map the table stands for, tombstones and all |
| `HashTable.Htab.FindSlot` | src/hashtab.c:359-413 | an existing key gives its slot, a new one the first slot on its path that holds no element, tombstone or not; when three quarters are full the table grows first, to at least twice its size with its counters straight, and otherwise it stays; it aborts exactly when it has to grow and no prime is large enough |
| `HashTable.Htab.Fill` | src/hashtab.c:397-413 | writing the element into the slot handed out adds it to the map |
| `HashTable.Htab.Expand` | src/hashtab.c:257-298 | growing to the least prime of the table that is twice the size keeps the map, drops the tombstones, sets the counters straight, and fails exactly when no prime is large enough |
| `HashTable.Htab.ClearSlot` | src/hashtab.c:455-468 | clearing a slot removes its key and nothing else |
| `HashTable.Htab.RemoveElt` | src/hashtab.c:433-448 | removing a key removes it and nothing else, and follows a null pointer exactly if it is not there |
| `HashTable.Htab.Clear` | src/hashtab.c:203-216 | emptying leaves an empty table whose counters are right exactly if it was empty before |
| `HashTable.ProbeFits` | src/hashtab.c:318-334 | the 32-bit sum of the probe is exact for all sizes up to 2^31 + 1 and for no larger one |
| `HashTable.HigherPrimeOfPrime` | src/hashtab.c:62-126 | the next prime of a number in the table is that number |
| `Cache.Save` | src/cache.c:604-698 | the file holds every name, record and dependency list at the offset recorded for it, and the three parts are filled exactly |
| `Cache.OneBitCleared` | src/cache.c:638-638 | of the flags that are saved only the prelinked bit is cleared |
| `CacheLoad.Load` | src/cache.c:392-461 | from a saved file no sanity check fires, and every entry found again gets its record, the type this allows, given how old the file is and what kind of run it is, and its dependency list |
| `CacheLoad.RoundTrip` | src/cache.c:392-461 | saving a closed set of entries and loading the file gives back every name, field and ordered dependency list |
| `CacheLoad.TypeComesBack` | src/cache.c:418-436 | exactly when the type of an entry comes back, too |
| `CacheLoad.FieldsComeBack` | src/cache.c:636-660 | exactly when its checksum, flags and range do |
| `CacheLoad.Prune` | src/cache.c:463-481 | in a quick run one pass, in any order, invalidates exactly the entries that depend on one that was invalid |
| `CacheLoad.QuickRun` | src/cache.c:392-481 | saved, loaded in a quick run and pruned, an entry is valid exactly when it and all its dependencies have the times they were saved with, different from each other unless they were saved as unprelinkable; then it has the type that its fields say |
| `Crc32.TableIsEight` | src/crc32.c:22-76 | every entry of the table is eight shift steps of its index |
| `Crc32.Crc32` | src/crc32.c:79-87 | the table-driven loop computes the bitwise CRC of the buffer |
| `Crc32.Concatenation` | src/crc32.c:79-87 | the CRC of a concatenation is the CRC of the second part started from that of the first |
| `CrcDivision.CrcIsRemainder` | src/crc32.c:79-87 | it is the remainder of the message polynomial modulo the generator, as section 8 of RFC 1952 has it |
| `CrcDivision.BurstDetected` | src/crc32.c:79-87 | buffers of one length that differ only within four consecutive bytes have different CRCs |
| `CrcDivision.FiveBytesCollide` | src/crc32.c:79-87 | with five bytes they need not |
| `CrcDivision.MakeTable` | src/makecrc.c:44-60 | the generator writes the table that crc32 uses |
| `Digest.Context.ProcessBytes` | src/md5.c:131-194 | whatever is buffered, and however the input is aligned, the new bytes extend the message |
| `Digest.Context.Finish` | src/md5.c:80-105 | the digest is the compression of the padded message, its bit count in the order of the digest |
| `Digest.DigestOf` | src/md5.c:112-194 | a message that arrives in any pieces has the digest of the whole, sections 3.1 and 3.2 of RFC 1321 |
| `Digest.DigestBuffer` | src/sha.c:107-119 | one buffer at one go has the same digest |
| `Sha1.ProcessOne` | src/sha.c:255-325 | the unrolled rounds over sixteen circular words compute the 80-step compression: section 8 of FIPS 180-1 refines section 7 |
| `Sha1.Rol1Doubles` | src/sha.c:222-224 | modulo 2^32, the rotation of the schedule doubles a word and brings its top bit back in |
| `Sha1.Rol5Multiplies` | src/sha.c:226-226 | the rotation of TEMP multiplies by 32, the bits that leave coming back |
| `Sha1.Rol30Multiplies` | src/sha.c:230-230 | the rotation of B multiplies by 2^30, the bits that leave coming back |
| `Md5.ProcessOne` | src/md5.c:210-327 | the 64 lines, with registers in changing roles, compute the steps of section 3.4 of RFC 1321 |
| `Digest.CompressBlock` | src/sha.c:203-331 | so the rounds compute what the streaming context takes as the compression of a block |
| `Digest.Md5Of` | src/md5.c:44-194 | MD5 of a message in any pieces, through these rounds |
| `Digest.Sha1Of` | src/sha.c:42-200 | SHA-1 of a message in any pieces, through these rounds |
| `KnownDigests.Md5Abc` | src/md5.c:44-327 | the MD5 digest of "abc" is the one in appendix A.5 of RFC 1321 |
| `KnownDigests.Sha1Abc` | src/sha.c:42-331 | the SHA-1 digest of "abc" is the one in appendix A of FIPS 180-1 |
| `Reversible.Converter.RelToRela` | src/arch-i386.c:568-593 | the record of a REL entry carries the addend that its word stands for; PLT entries are refused |
| `Reversible.Converter.RelaToRel` | src/arch-arm.c:670-698 | turning a record back writes its addend into the word, and nothing outside the record's bytes |
| `Reversible.Converter.PrelinkRela` | src/arch-arm.c:210-294 | prelinking takes a record exactly when its type, the kind of object, the branch distance and the descriptor allow it; then its word is the target modulo 2^32, the target less the place, the distance in the TLS block, or the distance in words in the low bits of a branch, as its type asks, and is otherwise left, and nothing but its bytes changes |
| `Reversible.Converter.PrelinkEntry` | src/prelink.c:133-151 | a record whose address lies in no section is passed over, any other one gets the word its type asks for |
| `Reversible.Converter.RoundTrip` | src/reloc.c:167-276 | REL to RELA, prelinking, and back goes through exactly when each record is taken or, lying in no section, passed over; then the whole table was prelinked in between, and the result is the same table, every word that holds an addend, and all bytes outside the relocated words |
| `Reversible.Converter.RevertedExactly` | src/reloc.c:223-276 | the memory is the original if and only if every word that holds no addend was zero and the second word of every TLS descriptor was DT_TLSDESC_PLT |
| `SparcPlt.Dso.FixupPlt` | src/arch-sparc64.c:94-165 | for every slot and value the words written transfer control to the value and keep every register but %g1 and %g5: three words wherever a branch, a jump to a low address or a call reaches, in this order, else six or seven; a slot with an addend holds the value |
| `SectionMove.RunMaps` | src/dso.c:702-758 | over every run of additions and removals the two index arrays stay inverse to each other and keep the order of the sections |
| `SectionMove.OpenedMaps` | src/dso.c:727-741 | adding a section keeps that exactly when it is not put before the null section |
| `SectionMove.ClosedMaps` | src/dso.c:744-758 | removing one keeps it exactly when it is not the null section |
| `SectionMove.AddedRemoved` | src/dso.c:727-758 | removing a section that has just been added gives both arrays back |
| `SectionMove.Move.AddSection` | src/dso.c:727-741 | the loop over old_to_new and the memmove of new_to_old leave the arrays in which the section is opened: later numbers one up, the new one mapped to nothing |
| `SectionMove.Move.RemoveSection` | src/dso.c:744-758 | the loop and the memmove leave the arrays in which the section is closed: its old number mapped to nothing, later numbers one down |
| `SectionMove.RewriteLinks` | src/dso.c:938-999 | rewriting sh_link and sh_info fails exactly when a header names a section that is not there, and otherwise every header names the sections it named before |
| `SymbolSearch.CreateCache` | src/cxx.c:130-181 | the table holds, sorted and separate, exactly the symbols to look for that overlap no other defined symbol |
| `SymbolSearch.Finder.Find` | src/cxx.c:238-284 | whatever the last hit was, the hinted search finds the interval that contains the relocation if there is one, every hint inside the table |
| `SymbolSearch.FoundIsTheOne` | src/cxx.c:130-284 | over that table, it is the one and only defined symbol that contains the relocation |
| `DwarfLocation.ReadUleb` | src/dwarf2.c:33-47 | a number of up to four bytes is read, any longer one is UINT_MAX |
| `DwarfLocation.CaseIsKind` | src/dwarf2.c:317-458 | every case of the switch takes the operands that section 7.7.1 of DWARF version 4 gives the operation |
| `DwarfLocation.AdjustLocationList` | src/dwarf2.c:307-461 | an expression, with those nested in it, becomes what Outcome makes of its operations, and no byte outside changes |
| `DwarfLocation.FineExactly` | src/dwarf2.c:307-461 | that is every selected address shifted modulo the pointer size, and all else the same, exactly when no nested expression has a long length, nothing to shift follows a block with one, and references have a unit |
| `DwarfLocation.AdjustedExactly` | src/dwarf2.c:307-461 | so the bytes afterwards read as wanted exactly then |
| `DwarfLocation.PaddedLength` | src/dwarf2.c:33-47 | a well-formed nested expression with a padded length is refused |
| `DwarfLocation.ConstantsStay` | src/dwarf2.c:361-396 | a constant is never taken for an address, even if it is as long as one |

## Findings

Where the code does not do what it is for, or what its comments say, the model follows the code; a lemma gives an
input and another one says exactly when the code is right.

- A library can be laid out across the end of the region when the start is random: the end is marked in the list only
  if libraries are left on both sides of it (src/layout.c:457-475). `Limits.StraddleExample` is an input,
  `Limits.StraddleCollides` one where it meets a library above the region, `Limits.AcrossExactly` the exact condition;
  `Limits.EmptyListOpensEnd` says that an empty list always allows it.
- The head of the list is not compared with the end of the region (src/layout.c:349-355), so a library can be placed
  past the limit below it: `Limits.OverrunExample`, and exactly `Limits.PastExactly`. With a random start libraries
  placed there even meet others once they are moved back: `Limits.WrapCollides`, and exactly `Limits.MeetExactly`.
- Line 613 of src/layout.c subtracts zero from layend, so a listed library that was moved up keeps a layend that is
  one region too high: `Rotation.LayendStays`, an exact condition. The claims about ranges after moving back are about
  base and end.
- The ranges of libraries known from the cache are not looked at when overlaps are resolved (src/layout.c:303-308),
  though the loop and the final check both ask for their type: `LayoutCheck.CachedOverlap` lays out an input for which
  the check fails, `LayoutCheck.EvictedPasses` and `LayoutCheck.LaidOutPasses` say exactly when it does.
- One pass over the libraries is enough to take the range of dependents only because dependency lists are closed:
  `Eviction.OrderMatters`.
- Under --exec-shield the limit of the search is the beginning of the sixth part of the line, not its end, against the
  comment that lists six areas to fill (src/arch-i386.c:1054): `Folding.LimitIsFour`. `Unfolding.LastPartRefused` is
  an input for which there is no room though that part is empty, `Unfolding.LastPartExactly` the exact condition.
- The sum of the probe wraps in 32 bits for tables larger than 2^31 + 1, which the last prime of the table is:
  `HashTable.ProbeFits`. The comment of higher_prime_number says greater than n; the code gives n itself when that is
  a prime of the table: `HashTable.HigherPrimeOfPrime`. htab_remove_elt follows a null pointer exactly for a key that
  is not there, where its comment says that it does nothing: `HashTable.Htab.RemoveElt`. htab_empty leaves the
  counters as they were, right exactly if the table held nothing: `HashTable.Htab.Clear`.
- A library saved with base and end zero is loaded as a program: `CacheLoad.ZeroRangeExample`;
  `CacheLoad.TypeComesBack` is the exact condition.
- Four bytes are the limit of what a CRC tells apart for certain: `CrcDivision.FiveBytesCollide`.
- Turning relocations back does not restore the second word of a TLS descriptor:
  `Reversible.Converter.RevertedExactly`.
- add_section and remove_section keep the two maps inverse exactly when the null section is not moved:
  `SectionMove.OpenedMaps`, `SectionMove.ClosedMaps`.
- read_uleb128 takes every number of five bytes or more for UINT_MAX, so a padded length makes a nested expression
  fail and ends the rewriting behind an implicit value: `DwarfLocation.PaddedLength`, and exactly
  `DwarfLocation.FineExactly`.

## Left out

- LayOutLibs.LayOut: takes the order of src/layout.c:101-173 as a parameter, any order will do; promises disjoint
  ranges unless the head of the list is far, which `Limits.MeetExactly` shows to be the condition, and clear of
  libraries that are not listed if the end of the region is marked or none of them begins above it, as
  `Limits.StraddleCollides` shows.
- CacheLoad.RoundTrip: the next run finds every file again, and the saved file is smaller than 4 GiB, its offsets
  being 32-bit words; a list in a file that was not saved may make the loader read past its end, which is not
  modelled.
- DwarfLocation.AdjustLocationList: requires a well-formed expression in a section smaller than 4 GiB; reading past
  the end of a malformed one is not modelled.
- HashTable.Htab.FindSlot: the primes of the table are at most 2^31, since `HashTable.ProbeFits` fails beyond.
- SparcPlt.Dso.FixupPlt: the transfer of control is stated for values and slots that are multiples of four.
- SymbolSearch.CreateCache: the ends of symbols are unbounded, a symbol that wraps around the address space is not
  modelled.
- X86Relocation.PrelinkThenLoad: covers the types that are stored (no TLS, IRELATIVE and COPY relocations), on an
  image of one contiguous section; a conflict without a lookup entity, whose base the code reads through a null
  pointer, is not in the table.
- The addresses of the layout may wrap at 2^64 in C; the model's do not.
- Writing the chaining value out as the bytes of a digest.
- The other architectures, undo, the dynbss and conflict space in programs, stabs, the rest of DWARF and of the ELF
  sections: they would add members of the same kinds.
- Reading and writing files, allocation failure, messages, and the command line.
