# Elftoolchain rewriting, modelled

A Dafny model of the parts of elftoolchain that rearrange object files while every cross-reference has to
keep its meaning, with proofs that it does. Each module follows one component:

- `SymbolTable`, `StringTable`, `BitVector`: elfcopy's filtering and rewriting of symbol and string tables, and
  the relocation update that follows it.
- `SymbolRules`: which symbols each option leaves, and what is written of them, over their fields.
- `IntelHex`, `SRecord`, `HexText`, `DataSections`: writers and readers of the two text formats.
- `HashTable`, `LinkedLists`, `HashRun`: the hash table in `common/uthash.h`; pointers are handle numbers.
- `EhFrame`: removal of duplicate CIEs in ld's `.eh_frame`, in place on byte arrays.
- `GotPlt`, `PltCode`: the amd64 relocation scan, the sections it sizes, and the bytes finalisation writes, run on a
  small model of the processor.
- `DynamicNeeds`: what a whole run of scans reserves, from how symbols are defined and what is linked.
- `WildcardCache`, `Placement`: placement of input sections with the wildcard-match cache, and where each one ends up.
- `ListSort`, `RelocSort`: the list mergesort and the order of dynamic relocations.
- `SegmentMove`, `FileLayout`: section addresses in segments, file offsets in elfcopy.
- `Archive`: archives as elfcopy and ar write them and elfdump reads them.
- `Svr4Hash`, `ProgramHeaders`, `Crc32`: the `.hash` section, program header prediction, the CRC table.

Loops over buffers, lists and tables are methods proved against a specification; classes carry the state that the C
structures carry. `Bytes` holds what all of them share.

## What the code does that its comments do not say

- Intel HEX: the writer never emits a type-04 record that lowers the base, so files are safe exactly when each skipped
  record would have repeated the base in force (`IntelHex.RoundTrip`); ascending files always are.
- `ld/amd64.c`: the comment speaks of sorted PLT relocations, but finalisation walks `.rela.plt` in creation order,
  before the sections are joined; the PLT is consistent because that order is used throughout.
- `ld/amd64.c`: a copy relocation redefines its symbol in `.dynbss`, so TLS relaxation may be decided differently later;
  it can only need fewer slots then. A symbol keeps the GOT entry its first request asked for, whatever the later
  ones need (`GotPlt.SlotsSufficeIff`, `GotPlt.SlotsServeIff`).
- `ld/ld_layout.c`: the record for names that match nothing is allocated but never entered into the table, so it has no
  effect and such sections are searched for in full each time.
- `elfcopy/segments.c`: the checks for room and overlap compare with segment extents as first read, so a second request can
  pass them and wrap an address (`SegmentMove.ChecksPassOrderLost`).
- `elfcopy/sections.c`: `--pad-to` padding in front of a pseudo section is laid out but not written.
- `ar/write.c`: an empty member is counted in the offsets of the members behind it and then left out.
- `ld/ld_layout.c`: a note section that is put behind another one in an output section sets the note flag, so a header is
  predicted that is not written (`ProgramHeaders.PredictionFromInputs`).

## Model

| member | source | states |
|---|---|---|
| `SymbolTable.GenerateSymbols` | elfcopy/symbols.c:380-662 | For every input table and option set: the kept locals, the section symbols and the kept globals are written in that order, `symndx` sends each kept symbol to its entry, every field and the (renamed) name read back, and no name is stored twice in either half of the string table; nothing is written exactly when only the reserved symbol would be left |
| `SymbolTable.KeptSymbolFound` | elfcopy/symbols.c:502-651 | Every kept symbol is at `symndx[i]` with its value, size, remapped section and name, below `sh_info` exactly when it is local |
| `SymbolTable.IndexMapInjective` | elfcopy/symbols.c:640-651 | Two kept symbols never share an entry |
| `SymbolTable.LocalsComeFirst` | elfcopy/symbols.c:1109-1114 | An entry is local exactly when its index is below `sh_info` (gABI chapter 4, "Symbol Table") |
| `SymbolTable.SectionSymsLocal` | elfcopy/symbols.c:597-630 | The section symbols added for output sections are local |
| `SymbolTable.BindingsStay` | elfcopy/symbols.c:514-548 | Weakening, localizing and globalizing never change the type and leave a symbol either local or global/weak |
| `SymbolTable.Picks` | elfcopy/symbols.c:501-587 | The kept symbols of one binding, in input order: all of them, and no others |
| `SymbolTable.Mark` | elfcopy/symbols.c:258-334 | Marking one bit changes that bit only |
| `SymbolTable.MarkRels` | elfcopy/symbols.c:300-334 | One relocation section marks exactly the symbols it names; out-of-range indices mark nothing |
| `SymbolTable.MarkRelocSymbols` | elfcopy/symbols.c:258-334 | The marks are exactly the symbols named by relocations of sections that stay |
| `SymbolTable.MarkGroupSymbols` | elfcopy/symbols.c:337-377 | The marks are exactly the signature symbols of section groups that stay |
| `SymbolTable.Intern` | elfcopy/symbols.c:885-947 | The name offset of a symbol: where the name is held, or the marker of its buffer; earlier strings stay where they are |
| `SymbolTable.Builder.AddSym` | elfcopy/symbols.c:867-972 | One symbol goes to the end of the local or of the global buffer by its binding, and only its name field is replaced |
| `SymbolTable.CopyOne` | elfcopy/symbols.c:502-587 | One kept symbol extends the pass invariant: its entry, its index, its global mark, and the section it stands for |
| `SymbolTable.CopySymbols` | elfcopy/symbols.c:501-587 | The whole first pass, for every input |
| `SymbolTable.AddSectionSym` | elfcopy/symbols.c:597-630 | One section symbol is appended to the locals and no string is added |
| `SymbolTable.AddSectionSyms` | elfcopy/symbols.c:597-630 | Exactly the output sections that need a symbol and were not marked get one, in order |
| `SymbolTable.PatchGlobals` | elfcopy/symbols.c:632-651 | The second pass adds the size of the local strings to every global name offset and the number of locals to every global index, and touches nothing else |
| `SymbolTable.LocalNameReads` | elfcopy/symbols.c:1185-1196 | A local name offset reads back that name from local strings followed by global strings |
| `SymbolTable.GlobalNameReads` | elfcopy/symbols.c:632-651 | A shifted global name offset reads back that name; the marker of an unnamed global wraps modulo 2^32 and reads back the empty name |
| `SymbolTable.UnnamedReads` | elfcopy/symbols.c:632-651 | The marker -1 plus the size of the local strings is the position of the last local NUL |
| `SymbolTable.ExternalNameReads` | elfcopy/symbols.c:975-1000 | The other finalisation maps the marker to 0; names read back all the same |
| `SymbolTable.RelocatedSymbolStays` | elfcopy/symbols.c:182-252 | Unless everything is stripped, a symbol named by a surviving relocation is kept exactly when its section is |
| `SymbolTable.UpdateReloc` | elfcopy/sections.c:805-843 | Every entry of a .symtab relocation section gets the new symbol index, in place, and nothing else changes |
| `SymbolTable.RelocationsKeepMeaning` | elfcopy/sections.c:805-843 | Every surviving .symtab relocation keeps place, type and addend and denotes the symbol it denoted, or symbol 0 exactly when that symbol's section was removed |
| `SymbolRules.NothingAsked` | elfcopy/symbols.c:206-252 | Without --strip-*, -N, -x and -X exactly the symbols of sections that stay are written |
| `SymbolRules.StripDebugDrops` | elfcopy/symbols.c:227-232 | --strip-debug drops, besides, the section and file symbols that no relocation or group names and -K does not keep |
| `SymbolRules.StripUnneededKeeps` | elfcopy/symbols.c:182-252 | --strip-unneeded leaves exactly the symbols that something wants and those of -K |
| `SymbolRules.StripAllKeeps` | elfcopy/symbols.c:206-252 | --strip-all leaves exactly those of -K whose section stays |
| `SymbolRules.NamedToBeStripped` | elfcopy/symbols.c:206-252 | -N drops a symbol unless a relocation names it or -K keeps it |
| `SymbolRules.DiscardDrops` | elfcopy/symbols.c:233-249 | -x drops exactly the unwanted local symbols other than section and file symbols, -X of those the ones that begin with ".L" |
| `SymbolRules.StripDebugAndDiscard` | elfcopy/symbols.c:227-249 | With --strip-debug and -x or -X a symbol goes when either says so |
| `SymbolRules.WrittenIsKept` | elfcopy/symbols.c:501-587 | The filter alone decides which symbols of the input have an entry |
| `SymbolRules.EntryFields` | elfcopy/symbols.c:514-587 | Each written symbol has its value and size in the width of the class, its type, visibility and section in the output, and the name after --redefine-sym and --prefix-symbols |
| `SymbolRules.EntryBinding` | elfcopy/symbols.c:514-548 | When the binding ends local, weak and global, in terms of the given binding and the -L, -G, -W, --keep-global-symbol and --globalize-symbol options |
| `SymbolRules.SectionsGetSymbols` | elfcopy/symbols.c:597-630 | Every eligible output section for which no section symbol was written gets one, local, with its address and index |
| `SymbolRules.EveryEntryHasOrigin` | elfcopy/symbols.c:380-662 | Every entry but the reserved one is that of a written symbol or of such a section |
| `BitVector.SetAll` | elfcopy/symbols.c:86-88 | `BIT_SET` turns on bit `n` and no other |
| `BitVector.Clear` | elfcopy/symbols.c:86-88 | A fresh vector has no bit set |
| `StringTable.StringTable.Lookup` | elfcopy/symbols.c:1186-1196 | A name is found exactly when it was stored, and then at a NUL-terminated copy of itself |
| `StringTable.StringTable.Grow` | elfcopy/symbols.c:885-947 | Growing the buffer makes room and changes no string, offset or chain |
| `StringTable.StringTable.Store` | elfcopy/symbols.c:885-947 | A new name is appended with its NUL and linked into the chain of its hash |
| `StringTable.StringTable.Add` | elfcopy/symbols.c:885-947 | A name is stored at most once; old contents stay a prefix |
| `StringTable.InsertKeepsIndexed` | elfcopy/symbols.c:1199-1207 | Every chain entry still stands for a stored name of that hash after one more is pushed in front |
| `StringTable.ReadsStored` | elfcopy/symbols.c:1186-1196 | The string at a chain entry is the one that was stored there |
| `HexText.WriteNum` | elfcopy/ascii.c:1030-1042 | A number is appended as `sz` bytes of hex, most significant first, and those bytes are added to the checksum |
| `HexText.ReadNum` | elfcopy/ascii.c:1011-1027 | Reading succeeds exactly on that many hex digit pairs and gives their value and the updated checksum |
| `HexText.WriteBuf` | elfcopy/ascii.c:844-870 | Data bytes become hex pairs and are summed |
| `HexText.ReadData` | elfcopy/ascii.c:689-741 | Data pairs are read back and summed; any other character makes the read fail |
| `HexText.ReadsHex` | elfcopy/ascii.c:1011-1042 | What is written reads back wherever in the line it stands |
| `Bytes.FromToBE` | elfcopy/ascii.c:1011-1042 | A number survives being written with `n` bytes exactly when it fits them |
| `HexText.LinesOfJoin` | elfcopy/ascii.c:521-577 | Reading line by line gives back the lines written |
| `HexText.PairReads` | elfcopy/ascii.c:1011-1027 | Two digits are read as a byte in either case, the high one first, and nothing else is |
| `HexText.HexAt` | elfcopy/ascii.c:1030-1042 | Byte `k` is written as two upper-case digits, the high one first |
| `DataSections.CoalesceStream` | elfcopy/ascii.c:637-686 | Appending data to the open section or starting a new one keeps every byte at its address, in order |
| `DataSections.CoalesceSplits` | elfcopy/ascii.c:637-686 | The sections read back are split only at address gaps |
| `DataSections.SourceHolds` | elfcopy/ascii.c:421-430 | The bytes meant to be written are those of allocated sections with contents that start below 4 GB, each at its address |
| `IntelHex.IhexWrite` | elfcopy/ascii.c:981-1008 | A record line: count, address, type, payload, and the checksum that balances them |
| `IntelHex.IhexRead` | elfcopy/ascii.c:896-952 | A line is accepted exactly when it parses with a zero sum, and gives the parsed record |
| `IntelHex.ParseOfLine` | elfcopy/ascii.c:896-1008 | A written record is accepted and read back field by field |
| `IntelHex.WriteData` | elfcopy/ascii.c:873-893 | A section is cut into 16-byte records at 16-bit addresses |
| `IntelHex.CreateIhex` | elfcopy/ascii.c:410-466 | The lines of a file: type-04 records when the high half grows, data, entry point, end |
| `IntelHex.ReadIhex` | elfcopy/ascii.c:521-577 | The record loop computes the run of the reader state over all lines |
| `IntelHex.RunSafe` | elfcopy/ascii.c:521-577 | With every skipped type-04 record safe, the reader ends with exactly the coalesced sections |
| `IntelHex.RunUnsafe` | elfcopy/ascii.c:424-465 | Otherwise the address stream read back differs |
| `IntelHex.RoundTrip` | elfcopy/ascii.c:410-631 | For sections below 2^32: the same ordered (address, byte) stream comes back exactly when every skipped type-04 record was safe to skip; the entry point comes back, or reads as 0 above 32 bits |
| `IntelHex.BaseBetween` | elfcopy/ascii.c:424-465 | The invariant of ascending files: last recorded high half <= reader base <= next high half |
| `IntelHex.AscendingIsSafe` | elfcopy/ascii.c:424-465 | Ascending disjoint sections are safe |
| `IntelHex.DescendingIsUnsafe` | elfcopy/ascii.c:424-465 | Two sections in descending order lose the address of the second |
| `IntelHex.DamageIsRejected` | elfcopy/ascii.c:896-952 | An accepted record with one address, data or checksum byte changed is rejected |
| `IntelHex.LoadedBytesComeBack` | elfcopy/ascii.c:421-631 | A byte is read back at an address exactly when a loaded section with contents holds it there, for ascending or otherwise safe sections |
| `IntelHex.NotWrittenLeavesNoTrace` | elfcopy/ascii.c:421-430 | A section that is not allocated, has no contents or is empty changes no line |
| `IntelHex.LineOnTheWire` | elfcopy/ascii.c:981-1008 | A record character by character: the count, two address bytes, type and payload, and a byte that makes the sum a multiple of 256 |
| `IntelHex.BasesRead` | elfcopy/ascii.c:558-568 | A segment record moves the data behind it to sixteen times its value, a linear record to 64K times its value |
| `IntelHex.OthersRead` | elfcopy/ascii.c:555-577 | A start segment record changes nothing, and behind an end record nothing is read |
| `SRecord.SrecWrite` | elfcopy/ascii.c:844-870 | A record line with the complemented sum |
| `SRecord.SrecRead` | elfcopy/ascii.c:689-741 | A line is accepted exactly when type, length and sum fit, and gives the parsed record |
| `SRecord.DataFitsIff` | elfcopy/ascii.c:718-728 | The bytes read fit the data buffer exactly when the count covers address and checksum or the line has no more data pairs than the buffer holds |
| `SRecord.CountTooSmall` | elfcopy/ascii.c:718-728 | A line for which they do not |
| `SRecord.EndTooHigh` | elfcopy/ascii.c:112-143 | A section that starts within the range of S1 and does not come back |
| `SRecord.ParseOfLine` | elfcopy/ascii.c:689-870 | A written record is accepted and read back; the address keeps the bytes it was given |
| `SRecord.RecLen` | elfcopy/ascii.c:145-154 | The record length is brought into the range the count byte allows |
| `SRecord.WriteData` | elfcopy/ascii.c:803-817 | A section is cut into records of the chosen length |
| `SRecord.CreateSrec` | elfcopy/ascii.c:78-195 | Header, data records of the chosen address width, and the end record |
| `SRecord.ReadSrec` | elfcopy/ascii.c:253-306 | The record loop computes the run of the reader state over all lines |
| `SRecord.RoundTrip` | elfcopy/ascii.c:78-306 | With any record length: the same ordered (address, byte) stream, split only at gaps, comes back exactly when every chunk address fits the chosen width |
| `SRecord.WholeSectionFits` | elfcopy/ascii.c:112-143 | A section ending within the range of the record type fits, whatever the record length |
| `SRecord.DamageIsRejected` | elfcopy/ascii.c:689-741 | An accepted record with one address, data or checksum byte changed is rejected |
| `SRecord.LoadedBytesComeBack` | elfcopy/ascii.c:112-306 | A byte is read back at an address exactly when a loaded section with contents holds it there, for sections that end within the range of the type used |
| `SRecord.NotWrittenLeavesNoTrace` | elfcopy/ascii.c:117-120 | A section that is not allocated, has no contents or is empty changes no line and not the record type |
| `SRecord.TypeChosen` | elfcopy/ascii.c:112-143 | The record type is the smallest that holds every start address, or S3 when that is asked for |
| `SRecord.LengthChosen` | elfcopy/ascii.c:145-154 | The length asked for is used when a record can have it |
| `SRecord.LineOnTheWire` | elfcopy/ascii.c:844-870 | A record character by character |
| `SRecord.SymbolBlockSkipped` | elfcopy/ascii.c:257-266 | Lines between two that start with two dollar signs are passed over |
| `SRecord.RecordsRead` | elfcopy/ascii.c:276-306 | Each kind of record: data, entry point, and those passed over |
| `SRecord.OthersRefused` | elfcopy/ascii.c:253-306 | No other type is accepted, and a line that is not accepted changes nothing |
| `LinkedLists.PushFront` | common/uthash.h:766-785 | A handle pushed on a chain becomes its head, the list stays doubly linked |
| `LinkedLists.PushBack` | common/uthash.h:279-285 | A handle appended to the application-order list becomes its last element |
| `LinkedLists.Unlink` | common/uthash.h:451-478 | A handle taken out leaves its neighbours joined and moves the head when it was first |
| `LinkedLists.Frame` | common/uthash.h:766-801 | Pointers of other handles do not matter to a list |
| `HashTable.ShiftAndMask` | common/uthash.h:832-882 | Shift and mask are quotient and remainder by a power of two |
| `HashTable.IdealIsCeiling` | common/uthash.h:845-847 | The ideal chain length is items divided by buckets, rounded up |
| `HashTable.CountUpdate` | common/uthash.h:517-564 | The sum of counts and the excess over the ideal length after one bucket changes |
| `HashTable.InsertKeepsIndexed` | common/uthash.h:766-785 | Each item stays in bucket hash & (n-1), and in no other, when one is added |
| `HashTable.RemoveKeepsIndexed` | common/uthash.h:788-801 | The same when one is removed |
| `HashTable.MoveOne` | common/uthash.h:849-868 | Moving one item to its new bucket keeps the moved ones indexed and `nonideal_items` equal to their excess |
| `HashTable.Expand` | common/uthash.h:832-868 | Doubling the buckets keeps exactly the same items, each in bucket hash & (2n-1), with counts adding up to the number of items |
| `HashTable.Table.constructor` | common/uthash.h:213-243 | A new table is empty and valid |
| `HashTable.Table.Find` | common/uthash.h:744-763 | A lookup finds an item exactly when one has that key |
| `HashTable.Table.AddToBucket` | common/uthash.h:766-785 | An item goes into the bucket of its hash; the table expands exactly when that chain is ten times its `expand_mult` plus one long and expansion is not off, and is otherwise as before but for that bucket |
| `HashTable.Table.ExpandBuckets` | common/uthash.h:832-882 | The bucket count doubles, the ideal length is the ceiling, `nonideal_items` is the excess, `expand_mult` follows each count, and expansion is turned off after two in a row that left more than half of the items in excess |
| `HashTable.Table.Add` | common/uthash.h:397-416 | The item joins the end of the order and its key is recorded; the table stays valid |
| `HashTable.Table.LinkHandle` | common/uthash.h:279-285 | The application-order half of an addition, making the table for the first item |
| `HashTable.Table.Delete` | common/uthash.h:451-478 | Exactly the given item leaves; the others keep their order |
| `HashTable.Table.UnlinkHandle` | common/uthash.h:451-478 | The application-order half of a deletion |
| `HashTable.Table.DeleteFromBucket` | common/uthash.h:788-801 | The bucket half of a deletion |
| `HashTable.Table.MakeTable` | common/uthash.h:213-243 | 32 empty buckets |
| `HashTable.BucketIsRemainder` | common/uthash.h:766-785 | The bucket of a hash is its remainder by the number of buckets |
| `HashTable.ItemInItsBucket` | common/uthash.h:744-785 | In a valid table each item is on the linked chain of the bucket that is the remainder of the hash of its key, and on no other |
| `HashRun.FindEntry` | common/uthash.h:744-763 | `HASH_FIND` answers as the list of entries does |
| `HashRun.Apply` | common/uthash.h:397-478 | One add, find or delete is one step of the list |
| `HashRun.ApplyAll` | common/uthash.h:397-478 | Over any run the table answers every operation, and ends, as the list of entries in insertion order does |
| `HashRun.KeysStayUnique` | common/uthash.h:397-478 | No run lists a key or a handle twice |
| `HashRun.Where` | common/uthash.h:744-763 | The place of a key in the list, or its length when absent |
| `EhFrame.FindDuplicate` | ld/ld_ehframe.c:468-478 | The byte comparison finds the first recorded CIE with the same bytes |
| `EhFrame.MoveDown` | ld/ld_ehframe.c:479-487 | The memmove over a duplicate leaves what is before it and shifts what follows |
| `EhFrame.FindLocal` | ld/ld_ehframe.c:530-538 | The CIE an FDE refers to is found by original offset |
| `EhFrame.DoCie` | ld/ld_ehframe.c:456-526 | One CIE is dropped over its twin or kept; the scan invariant moves on |
| `EhFrame.DoFde` | ld/ld_ehframe.c:528-582 | One FDE is pointed at the new place of its CIE; the scan invariant moves on |
| `EhFrame.PublishKept` | ld/ld_ehframe.c:625-635 | The kept CIEs are handed over at their output offsets |
| `EhFrame.ProcessSection` | ld/ld_ehframe.c:427-587 | The section buffer ends as the packed scan of its entries, shrunk by exactly the dropped CIEs |
| `EhFrame.OneSection` | ld/ld_ehframe.c:183-207 | One section takes its place in the packed output |
| `EhFrame.ScanSections` | ld/ld_ehframe.c:183-207 | Every section buffer holds its part of the packed output at its offset |
| `EhFrame.DroppedIffKnown` | ld/ld_ehframe.c:468-488 | A CIE is dropped exactly when an earlier section kept one with the same bytes |
| `EhFrame.SizeAccounts` | ld/ld_ehframe.c:479-487 | A section shrinks by exactly its dropped CIEs |
| `EhFrame.TotalShrinks` | ld/ld_ehframe.c:183-207 | The output is smaller than the input by exactly the dropped CIEs |
| `EhFrame.TargetsHold` | ld/ld_ehframe.c:427-587 | Every CIE met so far is found byte for byte at its target |
| `EhFrame.KeptCiesStay` | ld/ld_ehframe.c:625-635 | Every kept CIE is found byte for byte at its recorded offset in the whole output |
| `EhFrame.FdeResolves` | ld/ld_ehframe.c:528-582 | Within one section every FDE leads to the bytes of the CIE it named |
| `EhFrame.EveryFdeResolves` | ld/ld_ehframe.c:183-587 | In the packed output every FDE of every section leads to the bytes of the CIE it named in its own input section (section 6.4.1 of DWARF 4) |
| `EhFrame.PointerExact` | ld/ld_ehframe.c:565-579 | The rewritten 32-bit CIE pointer is the exact distance |
| `GotPlt.TlsCheckRelax` | ld/amd64.c:1007-1043 | Relaxation to initial exec is only ever chosen for general-dynamic relocations |
| `GotPlt.Linker.constructor` | ld/amd64.c:144-214 | No sections, no entries |
| `GotPlt.Linker.CreateEntry` | ld/ld_reloc.c:458-512 | One entry at the end of one dynamic relocation section; `ls_relative_reloc` counts the RELATIVE ones |
| `GotPlt.Linker.ReserveGot` | ld/amd64.c:217-230 | A run of GOT slots is reserved at the end of .got for one symbol |
| `GotPlt.Linker.ReservePlt` | ld/amd64.c:233-270 | One .got.plt word, one .plt entry and one JUMP_SLOT for one symbol |
| `GotPlt.Linker.CreateGotReloc` | ld/amd64.c:273-285 | A .rela.got entry for a slot its symbol owns; other than RELATIVE it marks the symbol dynamic |
| `GotPlt.Linker.CreateCopyReloc` | ld/amd64.c:288-301 | A COPY relocation, and the symbol now defined in .dynbss |
| `GotPlt.Linker.CreateDynamicReloc` | ld/amd64.c:304-326 | An entry in one of the four data relocation sections, by binding and writability |
| `GotPlt.Linker.ScanAbsolute` | ld/amd64.c:572-653 | Absolute relocations: exactly the PLT entry, copy or dynamic relocation the symbol requires |
| `GotPlt.Linker.ScanPcRelative` | ld/amd64.c:687-719 | PC-relative relocations: exactly the PLT entry and copy relocation the symbol requires |
| `GotPlt.Linker.ScanPlt32` | ld/amd64.c:655-685 | A PLT32 either becomes a PC32 or its symbol has a PLT entry |
| `GotPlt.Linker.ScanGot` | ld/amd64.c:730-752 | One GOT slot per symbol, filled by GLOB_DAT or RELATIVE as the symbol requires |
| `GotPlt.Linker.ScanTls` | ld/amd64.c:754-792 | TLS relocations: exactly the slots and relocations of the chosen model; the invalid relaxations never come up |
| `GotPlt.Linker.NeedGotPair` | ld/amd64.c:1252-1266 | General dynamic: two slots, DTPMOD64 and DTPOFF64 |
| `GotPlt.Linker.ScanLocalDynamic` | ld/amd64.c:1269-1279 | Local dynamic: two slots and DTPMOD64, the symbol marked |
| `GotPlt.Linker.Scan` | ld/amd64.c:553-808 | One scan keeps all section invariants and changes the symbol, the reservations and the dynamic relocations exactly as its type and symbol require |
| `GotPlt.ScanAll` | ld/amd64.c:553-808 | After scanning any relocations in any order: sections consistent, every relocation finds the GOT and PLT entry its processing will use, and every symbol's entry is the one its first request asked for, with just the dynamic relocations of that kind; the run is handed over scan by scan, with what each one adds |
| `GotPlt.PltSectionSizes` | ld/amd64.c:165-270 | With n PLT symbols: .got.plt is 8(3+n) bytes, .plt 16(1+n), .rela.plt holds exactly those symbols once each |
| `DynamicNeeds.RelocationAdds` | ld/amd64.c:553-808 | What one relocation of a run adds to each dynamic relocation section, from how its symbol is defined at that point and what is linked |
| `DynamicNeeds.DefinitionAlong` | ld/amd64.c:288-301 | No scan changes binding, type or visibility; a symbol stops being one of a DSO exactly when it is copied |
| `DynamicNeeds.FunctionsGetPlt` | ld/amd64.c:572-719 | After any run a symbol has a PLT entry exactly when it is a function of a DSO, or one that may be replaced in a shared object, and a relocation refers to it other than by a call bound at link time |
| `DynamicNeeds.FunctionAddressTaken` | ld/amd64.c:572-653 | Its PLT entry becomes its address exactly when an absolute relocation refers to it |
| `DynamicNeeds.PltMeansJumpSlot` | ld/amd64.c:233-270 | A symbol with a PLT entry has one JUMP_SLOT, any other none |
| `DynamicNeeds.CallsBound` | ld/amd64.c:655-685 | A PLT32 stays one exactly when its function is reached through the PLT and not defined in the executable, and else becomes a PC32 |
| `DynamicNeeds.CopiesOnce` | ld/amd64.c:288-301 | An object has one COPY relocation exactly when it is one of a DSO that an executable refers to by address |
| `DynamicNeeds.DataAfter` | ld/amd64.c:304-326 | The data relocation sections hold, in order, one entry for each 64-bit address not known before run time: RELATIVE when only the output moves, R_64 when the symbol may be replaced |
| `DynamicNeeds.FirstDecides` | ld/amd64.c:730-792 | The GOT relocations of a symbol are those its first request calls for: GLOB_DAT when it is looked up at run time, RELATIVE or none otherwise, DTPMOD64, DTPOFF64 and TPOFF64 for TLS |
| `DynamicNeeds.EntryMade` | ld/amd64.c:730-792 | A relocation makes a GOT entry exactly when its symbol has none and it calls for one |
| `DynamicNeeds.GotUntouched` | ld/amd64.c:730-792 | A symbol without a GOT entry has no relocation in .rela.got |
| `GotPlt.SlotRangesDisjoint` | ld/ld_input.c:126-136 | GOT slots of different symbols never overlap and lie inside .got |
| `GotPlt.GotNeverMissing` | ld/amd64.c:811-980 | Processing never asks for the GOT offset of a symbol without an entry, nor the PLT address of one without a PLT entry, even when symbols are redefined in between, as long as no definition leaves the regular objects |
| `GotPlt.DefinitionMustStay` | ld/amd64.c:1007-1043 | A definition that leaves the regular objects between the passes breaks this |
| `GotPlt.SettledStays` | ld/amd64.c:553-808 | A later scan of any relocation never undoes what an earlier one arranged |
| `GotPlt.HeldByScan` | ld/amd64.c:730-792 | One scan gives a symbol without an entry the one its relocation wants, with its slots and its dynamic relocations, and leaves all other entries as they are |
| `GotPlt.SlotsSufficeIff` | ld/amd64.c:730-792 | In every link mode, after any scans every relocation has all the slots it uses exactly when no symbol is first asked for one slot and used with two by a later relocation |
| `GotPlt.SlotsServeIff` | ld/amd64.c:1252-1291 | In every link mode every relocation finds in its slots the dynamic relocations of its own kind of access exactly when no symbol is first asked for one kind and later used as another |
| `GotPlt.ShortInDso` | ld/amd64.c:754-792 | In a shared object the types of a symbol's relocations alone decide whether slots run short |
| `GotPlt.ShortInExecutable` | ld/amd64.c:754-792 | In an executable slots run short exactly for a local-dynamic access to a symbol that stays undefined or in a DSO, behind a first request of another kind |
| `GotPlt.CreatedHolds` | ld/amd64.c:1252-1291 | The .rela.got entries a scan creates are those of the kind of entry it wants, and none when the symbol has one |
| `GotPlt.UsedWasWanted` | ld/amd64.c:1007-1043 | What processing reads after all scans was wanted when the relocation was scanned |
| `GotPlt.ModuleForOffset` | ld/amd64.c:1252-1291 | A general-dynamic access before an initial-exec one: slots enough, but the second reads a module number for a thread offset |
| `GotPlt.StaticNeverMixes` | ld/amd64.c:1007-1043 | Without dynamic linking no entry is ever short or of the wrong kind |
| `GotPlt.OneSlotForTwo` | ld/amd64.c:1252-1291 | An initial-exec access before a general-dynamic one in a shared object, or before a local-dynamic one in an executable, leaves one slot where two are used |
| `GotPlt.GotMeansWidth` | ld/amd64.c:217-230 | A symbol has `lsb_got` set exactly when it owns slots |
| `Bytes.FromToLE` | ld/ld_utils.h:152-164 | Little-endian words read back |
| `PltCode.WritePlt0` | ld/amd64.c:445-478 | PLT0, byte by byte |
| `PltCode.WritePltEntry` | ld/amd64.c:507-531 | One PLT entry, byte by byte |
| `PltCode.FinalizePlt` | ld/amd64.c:433-549 | .got.plt and .plt hold their images, every JUMP_SLOT offset its GOT word, every PLT offset an entry of that symbol; both end-of-buffer checks hold |
| `PltCode.FinalizeReserved` | ld/amd64.c:368-550 | The same for whatever the scans reserved: the buffers have just the right size, each JUMP_SLOT keeps its symbol and type and points to its own GOT word, and every PLT symbol gets an entry of its own |
| `PltCode.FinalizeGot` | ld/amd64.c:384-405 | .got, if there is one, is zero but for the RELATIVE symbols' slots, which hold their values |
| `PltCode.EntryDecodes` | ld/amd64.c:507-531 | Entry k decodes to: jump through GOT word k+3, push k, jump to PLT0 (section 5.2 of the AMD64 psABI) |
| `PltCode.Plt0Decodes` | ld/amd64.c:445-478 | PLT0 decodes to: push GOT+8, jump through GOT+16 |
| `PltCode.CallGoesThroughSlot` | ld/amd64.c:507-531 | A call through entry k goes wherever GOT word k+3 says |
| `PltCode.PushReachesResolver` | ld/amd64.c:507-531 | From its push on, entry k reaches the address in GOT word 2 with k and GOT word 1 on the stack |
| `PltCode.FirstCallResolves` | ld/amd64.c:433-549 | Run on the processor model, the first call of every function reaches the dynamic linker with the index of its own JUMP_SLOT |
| `PltCode.GotWords` | ld/amd64.c:533-538 | GOT word k+3 initially is the address of the push of entry k |
| `WildcardCache.FirstFit` | ld/ld_layout.c:739-780 | The search result fits, and none fits when there is no result |
| `WildcardCache.FirstFitIsFirst` | ld/ld_layout.c:739-780 | The result is the first rule in script order whose wildcards and file constraints fit |
| `WildcardCache.CachedFitIsFirst` | ld/ld_layout.c:704-730 | A fit in any prefix of the name-matching rules is the first fit of the whole script |
| `WildcardCache.RecordKeepsPrefix` | ld/ld_layout.c:592-635 | Recording keeps every chain a prefix of the name-matching rules |
| `WildcardCache.Layout.constructor` | ld/ld_layout.c:422-469 | An empty cache |
| `WildcardCache.Layout.RecordMatch` | ld/ld_layout.c:592-635 | A rule is added at the end of its chain unless it is on it |
| `WildcardCache.Layout.SearchCache` | ld/ld_layout.c:690-733 | What the cache finds is what the plain search finds |
| `WildcardCache.Layout.SearchSection` | ld/ld_layout.c:740-780 | The rules of one output section, searched and recorded |
| `WildcardCache.Layout.FullSearch` | ld/ld_layout.c:735-781 | The full search finds the first fit and leaves the cache consistent |
| `WildcardCache.Layout.FindPosition` | ld/ld_layout.c:867-896 | Where an orphan's output section goes |
| `WildcardCache.OrphanPosition` | ld/ld_layout.c:867-896 | That place is within the list |
| `WildcardCache.Layout.LayoutOrphan` | ld/ld_layout.c:800-864 | An orphan goes to the section of its name or to a new one |
| `WildcardCache.Layout.LayoutSection` | ld/ld_layout.c:663-797 | One section is placed exactly as by the plain search |
| `WildcardCache.Layout.LayoutAll` | ld/ld_layout.c:663-797 | Any sequence of input sections is placed exactly as by the plain search, whatever orphans are inserted |
| `WildcardCache.NewOutSecKeeps` | ld/ld_layout.c:867-896 | An orphan's output section has no rule and leaves the others in order |
| `WildcardCache.RulesNeverMove` | ld/ld_layout.c:800-896 | However many orphans come in between, the rules stay in script order |
| `Placement.FitFound` | ld/ld_layout.c:739-780 | The plain search finds the first element in script order whose rule takes the section, by name, archive, file and exclusions |
| `Placement.ListsAfter` | ld/ld_layout.c:663-796 | After any run every list holds what it held and then the ids of exactly the sections that belong in it, in input order; exactly the sections whose first rule is one of /DISCARD/ are discarded |
| `Placement.FoundWhereItBelongs` | ld/ld_layout.c:719-773 | A section stands in the list of its first rule, or an orphan in the first list of the output section of its name: once, behind what came before it, and nowhere else |
| `Placement.SomewhereOrDiscarded` | ld/ld_layout.c:663-864 | A section that takes part is discarded or has such a list |
| `Placement.OrphanStands` | ld/ld_layout.c:867-896 | Where a new output section goes: behind the first group with just its flags, else behind the first stretch that is loaded, or not, as it is, else last |
| `Placement.StandsOnce` | ld/ld_layout.c:867-896 | There is no other such place |
| `Placement.NewSectionStands` | ld/ld_layout.c:800-896 | The output section made for an orphan: its place, name and flags |
| `Placement.FlagsJoin` | ld/ld_layout.c:899-946 | A section adds its code, data and TLS flags to its output section and changes no other |
| `ListSort.MergeRuns` | common/_elftc.h:240-265 | The inner loop puts out the merge of the two runs and leaves the rest |
| `ListSort.TakeRun` | common/_elftc.h:228-236 | The run is the next at most `sz` elements |
| `ListSort.MergeSorted` | common/_elftc.h:240-265 | Merging sorted runs gives a sorted one |
| `ListSort.MergeStable` | common/_elftc.h:252-262 | Equal elements of the first run stay before those of the second |
| `ListSort.MergeMultiset` | common/_elftc.h:240-265 | Merging loses and makes up nothing |
| `ListSort.Pass` | common/_elftc.h:224-270 | One pass turns sorted blocks of `sz` into sorted blocks of twice that; with at most one merge the list is sorted |
| `ListSort.Sort` | common/_elftc.h:215-271 | For every list and total preorder the sort ends with a sorted, stable permutation |
| `RelocSort.CmpRelocIsTotal` | ld/ld_reloc.c:593-637 | `_cmp_reloc` is a total preorder |
| `RelocSort.RelativeFirst` | ld/ld_reloc.c:593-637 | Sorted by it, the RELATIVE entries are the first ones, as many as there are |
| `RelocSort.CounterIsExact` | ld/ld_reloc.c:505-582 | `ls_relative_reloc` is the number of RELATIVE entries in the joined section |
| `RelocSort.JoinAndSort` | ld/ld_reloc.c:564-649 | The first `ls_relative_reloc` joined entries are exactly the RELATIVE ones in ascending address, each address that of its own target section plus its offset; the others go by symbol index: what DT_RELACOUNT promises |
| `RelocSort.CountPermutes` | ld/ld_reloc.c:640-649 | Rearranging keeps the number of RELATIVE entries |
| `SegmentMove.MoveKeepsGaps` | elfcopy/segments.c:227-284 | Moving a section keeps all pairwise differences of (offset - address) in its segment, modulo 2^64, in both directions and for the first section |
| `SegmentMove.MoveKeepsOrderIff` | elfcopy/segments.c:227-284 | A move keeps an ordered segment ordered and disjoint exactly when no address wraps |
| `SegmentMove.CheckSufficesOnce` | elfcopy/segments.c:181-187 | While the segment starts at or below its first section, the code's own check rules wrapping out on the way down |
| `SegmentMove.SecondMoveCanWrap` | elfcopy/segments.c:181-187 | After one move down it need not: the segment address is not updated, and a second move passes the check and wraps |
| `SegmentMove.CheckAboveFailsIff` | elfcopy/segments.c:192-203 | On the way up the check of the moved end lets an address wrap exactly for a section that is not the first, when move and segment size together reach 2^64 and the last section is moved beyond it |
| `SegmentMove.MoveUpCanWrap` | elfcopy/segments.c:192-203 | A segment at the end of the address space for which it does |
| `SegmentMove.Segment.Insert` | elfcopy/segments.c:442-466 | Sorted, stable insertion by offset |
| `SegmentMove.Segment.Shift` | elfcopy/segments.c:227-284 | The section records end as the move prescribes |
| `SegmentMove.Segment.ShiftDown` | elfcopy/segments.c:227-252 | Down: lower addresses up to the section, higher offsets behind it |
| `SegmentMove.Segment.ShiftUp` | elfcopy/segments.c:253-284 | Up: higher addresses from the section on, higher offsets too unless it is the first |
| `SegmentMove.ChangeAll` | elfcopy/segments.c:111-128 | The global change adds the same amount to every loadable address, modulo 2^64, and touches nothing else |
| `SegmentMove.ChangeKeepsOrderIff` | elfcopy/segments.c:111-128 | It keeps an ordered segment ordered exactly when its addresses wrap together or not at all |
| `SegmentMove.CheckApart` | elfcopy/segments.c:210-224 | The search for another PT_LOAD segment that meets the new extent |
| `SegmentMove.CheckMove` | elfcopy/segments.c:165-224 | Alignment, room and overlap: whether a move may be made |
| `SegmentMove.MoveOne` | elfcopy/segments.c:132-285 | One request: granted exactly when the checks pass; then the section is at the address asked for, its segment is moved with it, and no other section or segment changes; refused, nothing changes |
| `SegmentMove.Visit` | elfcopy/segments.c:132-285 | One turn of the second pass, for a section with or without a request |
| `SegmentMove.RunKeepsGaps` | elfcopy/segments.c:132-285 | Any requests keep all differences of (offset - address) of a segment |
| `SegmentMove.RunKeepsOrderIff` | elfcopy/segments.c:132-285 | An ordered segment is ordered and disjoint after every one of its requests exactly when none makes an address wrap |
| `SegmentMove.AdjustedOrderIff` | elfcopy/segments.c:103-285 | The same for the global change and the requests together, as a condition on the addresses and requests at the start |
| `SegmentMove.ChecksPassOrderLost` | elfcopy/segments.c:181-187 | Two requests that pass all checks and leave the segment out of order |
| `SegmentMove.AdjustAddr` | elfcopy/segments.c:103-285 | For any requests: they are granted one by one up to the first that fails its checks, each segment ends as the change and its own granted requests make it, all differences of (offset - address) are kept, and a segment whose change and requests let no address wrap stays ordered and disjoint |
| `Archive.Tables.AddStr` | elfcopy/archive.c:130-154 | A long name, a slash and a newline are appended |
| `Archive.Tables.AddSym` | elfcopy/archive.c:160-199 | A symbol with the current member offset and its NUL-terminated name are appended |
| `Archive.Tables.Gather` | elfcopy/archive.c:64-124 | Tables filled from all members: each symbol with the extent of the members before its own |
| `Archive.Tables.Sync` | elfcopy/archive.c:202-241 | Padding of both tables, and offsets made absolute |
| `Archive.ParseArsym` | elfdump/elfdump.c:822-840 | The SVR4 symbol table parses back to the same offsets and names |
| `Archive.WriteBsdSymtab` | ar/write.c:619-656 | The BSD table pairs each offset with the place where that name begins |
| `Archive.NameHeld` | ar/write.c:638-647 | Name i begins where the names before it end |
| `Archive.PrefixSize` | elfcopy/archive.c:226-241 | The size of the pseudo members is what was added to the offsets |
| `Archive.BodyAt` | elfcopy/archive.c:120-124 | Member i is written behind the extents of those before it |
| `Archive.OffsetIsPosition` | elfcopy/archive.c:226-241 | Each symbol offset is the byte position of its member's header in the archive as written, modulo 2^32, in both variants |
| `Archive.CreateAr` | elfcopy/archive.c:376-508 | The archive written by elfcopy: magic, symbol table, name table if any, padded members |
| `Archive.WriteObjs` | ar/write.c:663-807 | The archive written by ar in either variant, leaving out empty members, which have no image |
| `Archive.WriteMembers` | ar/write.c:782-803 | Members in order, without those left out |
| `Archive.ArOffsetRightIff` | ar/write.c:782-803 | In ar's output a member stands where its symbols' offsets say exactly when no empty member is in front of it |
| `Archive.OffsetTooLarge` | ar/write.c:782-803 | Two members, the first empty: the second's symbols point 60 bytes behind it |
| `Archive.AllWritten` | ar/write.c:782-803 | With no empty members nothing is left out |
| `Archive.MemberOnDisk` | ar/write.c:663-803 | A member: its header, in the BSD variant a long name or one with spaces, its contents, and a newline to an even length |
| `Archive.NameTableHolds` | elfcopy/archive.c:130-154 | SVR4: each name of more than 15 bytes is in the name table with a slash and a newline, and there is a table only for them |
| `Archive.SymbolsListed` | elfcopy/archive.c:160-199 | The symbols listed are those of the members that are not empty |
| `FileLayout.SecList.Insert` | elfcopy/sections.c:310-328 | At the end when asked or when the last offset is not above; else directly before the first section with a larger offset, in any list; a sorted list stays sorted |
| `FileLayout.PlaceOne` | elfcopy/sections.c:901-916 | A section that is not loadable, or in a relocatable object, or overrun, goes to the least multiple of its alignment from the running offset on; every other stays where it was |
| `FileLayout.Resync` | elfcopy/sections.c:880-965 | After the pass all file extents, padding included, are in list order and disjoint, every section is placed by that rule behind the one before it, and sizes count the padding written |
| `FileLayout.EachPlaced` | elfcopy/sections.c:901-916 | A section that is not loadable, or in a relocatable object, or overrun, is put at the least multiple of its alignment behind the section before it; every other stays where it was |
| `FileLayout.FirstPlaced` | elfcopy/sections.c:880-916 | The same for the first section, from where the list began |
| `FileLayout.ExtentsApart` | elfcopy/sections.c:880-965 | File extents are in list order and disjoint, with the padding |
| `FileLayout.SizesWritten` | elfcopy/sections.c:918-960 | The size written of a section: with its padding or the filled gap, and no more in front of a pseudo section |
| `FileLayout.MovedMeansOverrun` | elfcopy/sections.c:908-916 | A loadable section of a final object that moved was overrun by the section before it |
| `FileLayout.PaddingLostBeforePseudo` | elfcopy/sections.c:918-926 | Padding asked for is written exactly when the section behind it is not a pseudo section |
| `FileLayout.PaddingLost` | elfcopy/sections.c:918-926 | An input whose padding is lost |
| `Svr4Hash.BucketCount` | ld/ld_hash.c:78-91 | The largest size in the table that is not above the number of symbols |
| `Svr4Hash.CreateHash` | ld/ld_hash.c:93-114 | Every bucket's walk is exactly the named symbols of that bucket, latest first; chain indices strictly decrease |
| `Svr4Hash.NamedSymbolReachable` | ld/ld_hash.c:101-114 | A symbol is met on a bucket's walk exactly when it is named and hashes there (gABI chapter 5, "Hash Table") |
| `Svr4Hash.MembersComplete` | ld/ld_hash.c:101-114 | No named symbol is missing from its bucket |
| `Svr4Hash.ChainLengths` | elfdump/elfdump.c:2177-2183 | The walk lengths and the greatest of them |
| `Svr4Hash.CountLengths` | elfdump/elfdump.c:2184-2187 | How many walks have each length, which keeps the number of symbols |
| `Svr4Hash.Histogram` | elfdump/elfdump.c:2176-2209 | The counts printed, up to the greatest length, and the total, which is the sum of all walk lengths |
| `Svr4Hash.HistogramTotal` | elfdump/elfdump.c:2176-2209 | For a section ld made, the total is the number of named symbols |
| `Crc32.TableEntry` | elfcopy/sections.c:1615-1681 | Every one of the 256 table entries is eight polynomial shifts of its index |
| `Crc32.TableStep` | elfcopy/sections.c:1684-1693 | One look-up does what eight shifts do, on every register value |
| `Crc32.BitsAreShifts` | elfcopy/sections.c:1684-1693 | Taking in bits one by one is shifting with the byte mixed in first |
| `Crc32.ByteStep` | elfcopy/sections.c:1684-1693 | One byte through the table is its eight bits one at a time |
| `Crc32.CalcCrc32` | elfcopy/sections.c:1684-1693 | For every byte string the loop computes the bit-at-a-time CRC-32 of section 8 of RFC 1952 |
| `ProgramHeaders.CountHeaders` | ld/ld_layout.c:366-410 | The count is the number of segments plus one for each special header |
| `ProgramHeaders.CalcHeaderSize` | ld/ld_layout.c:327-419 | The header size for the number found, given or known |
| `ProgramHeaders.PredictionExactIff` | ld/ld_layout.c:354-416 | With the sections that dynamic linking creates, prediction and emission agree exactly when the note flag says whether there is a note section |
| `ProgramHeaders.PlaceAll` | ld/ld_layout.c:941-944 | Over all placements each output section gets the type of its first input section that has one, and the flag is set when any input section is a note |
| `ProgramHeaders.PredictionFromInputs` | ld/ld_layout.c:354-416 | The prediction is never too small and at most one too large; it is exact exactly when no note section is put anywhere or some output section has its type from one |
| `ProgramHeaders.WriteLoads` | ld/ld_output.c:738-820 | The PT_LOAD entries, each written when the next begins or at the end |
| `ProgramHeaders.WriteNote` | ld/ld_output.c:835-849 | One PT_NOTE when there is a note section |
| `ProgramHeaders.CreatePhdr` | ld/ld_output.c:711-884 | With room for the emitted number, every entry is written once, no check fails, and the closing assertion holds |
| `ProgramHeaders.EverySectionCovered` | ld/ld_output.c:753-820 | Every loaded section lies in a PT_LOAD segment, its contents in the file part |
| `ProgramHeaders.SegmentReaches` | ld/ld_output.c:753-820 | The last segment reaches the end of the last section in memory, and in the file when the section has contents there |
| `ProgramHeaders.SegmentBegins` | ld/ld_output.c:753-820 | A new segment begins at its section, the first at the start of the object |
| `ProgramHeaders.FrontSurvives` | ld/ld_output.c:819-820 | The write after the loop never costs a header in front of the segments, since those come with a loaded interpreter section |
| `ProgramHeaders.OneHeaderTooMany` | ld/ld_layout.c:941-944 | A note section behind another one in an output section: one header more predicted than written |

## Left out

- Option parsing, printing, temporary files, `main` functions and the small tools: input, output and tables.
- libelf, libarchive and fnmatch: sections, symbols and header blocks are given data, matching is a parameter.
- Buffer capacities and allocation failure: growing buffers are sequences, except in `StringTable`, which keeps its
  capacity.
- Symbol tables: the string buffers exist from the start instead of from their first use, and the bit vectors are
  computed before the symbol loop instead of inside it; relocation sections of an external symbol table are not rewritten.
- Symbol names together are assumed to stay below 2^31 bytes, bindings to be local, global, weak or GNU_UNIQUE, and the
  reserved symbol 0 to be present.
- SymbolRules: the unnamed reserved symbol is assumed not to be asked to become global.
- Text formats: sections that end beyond 2^32 in Intel HEX, S0 names too long for their record, and the symbol block of
  the `symbolsrec` target.
- HashTable: the hash function is uninterpreted; Bloom filters, selection and sorting of tables are not modelled.
- .eh_frame: 64-bit lengths, LEB128 fields, the .eh_frame_hdr table and the adjustment of relocation offsets; CIEs are
  compared bytewise.
- GotPlt.Linker.CreateCopyReloc: the offset chosen in .dynbss is left open, because its alignment search needs section data.
- GotPlt: symbols are resolved beforehand; the i386 and MIPS back ends, the instruction rewriting of TLS relaxation and the
  `ls_ignore_next_plt` handshake.
- PltCode: output addresses and the value of _DYNAMIC are parameters; displacements are assumed to fit 32 bits where code is
  decoded.
- WildcardCache: relocation sections for -emit-relocs, entry sizes and alignments of output sections.
- RelocSort: REL entries and their serialisation.
- SegmentMove: load addresses and --pad-to; a section of a segment that is asked to move is assumed to have a nonzero
  alignment, since the code divides by it.
- FileLayout.Resync: file offsets are unbounded, so wrap-around at 2^64 is not modelled.
- Archive: header blocks are 60 opaque bytes and a C long eight; members of size zero, which elfcopy skips when reading.
- Svr4Hash: the 64-bit hash sections of Alpha, and `.hash` sections that ld did not make.
- ProgramHeaders: the extents of headers other than PT_LOAD, and a PHDRS command beyond its number of entries.
- Garbage collection of sections, version scripts, script expressions, `mips` and `pe` output.
