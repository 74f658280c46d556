# The NSIS installer compiler, verified

This project models the parts of the NSIS 3.10 compiler (`nsis-3.10-src/Source`) in which
several functions have to agree for a script to become a working installer, and proves that
they do. `dafny verify dfyconfig.toml` checks it.

Code that changes objects step by step is modelled by classes and methods with loops; each
method is tied by its `ensures` to a specification function or states outright what it
achieves, and lemmas prove what that means.

## The modules

* **PE resources.** `ResourceTree` holds the sorted directory tree with its edits, and
  `ResourceEditor` shows it to be a finite map from (type, name, language) to data.
  `ResourceLayout`, `ResourceWriter`, `ResourceImage`, `ResourceSection` and
  `ResourceRoundTrip` follow the queue-driven writer with its back-patched offsets through the
  section, in the layout of "The .rsrc Section" of Microsoft's PE Format; `ResourceScan` is
  the offset-following reader. The main results are `WriteRsrcSec`, `SaveAndLoad` and, for any
  run of edits, `EditAndReload`.
* **LZMA.** `LzmaSession` is the sequential meaning of a call: what the encoder asks for and
  what the caller supplied. `LzmaProtocol` is the two-thread machine over both program
  counters, with waits without spurious wake-ups and an encoder that stops after a failed
  read or write; it is proved safe, free of deadlock, and a refinement of the sequential calls.
* **Datablock.** `Datablock` is the store of length-prefixed records that shares duplicates,
  the chunk loops around the compressor, and the counters of both modes. The compressor is
  its wrapper around an encoder script, with an inverse.
* **Language tables.** `LangTable` fills the tables until nothing new turns up;
  `LangReferences` resolves references in place, with cycle detection.
* **Preprocessor.** `Conditionals` compares the flat `!if`/`!else`/`!endif` machine with a
  nested interpreter. `Expansion` is the recursive expander of defines and environment
  variables with its history list, compared with substitution that has no guard.
  `LineMeaning` says in numbers and characters what the parts of a line give. `StringLists` is the
  list of strings in one buffer that both lists of strings use.
* **Dialogs.** `DialogFormat`, `DialogLayout`, `DialogRoundTrip` and `DialogTemplate`: the byte
  format, its offsets, which templates survive it, and the parser and writer.
* **Linking.** `JumpLinking`: the entry map, relative jumps, and labels.
* **Strings, lines, names.** `StringTable` is the suffix-sharing string table, `Tokenizer`
  the two-pass line parser with `LineGrammar`, the grammar it reads, `Wildcards` the file name matcher.
* **Icons.** `Icons`: image slots shared by the icons of installer and uninstaller.
* **Checksums.** `Crc32`. `Bytes` holds little-endian words, `Numbers` shared arithmetic and
  `Wrappers` a value that may be missing.

## Where code and promise part

Each of these is stated as a contract or lemma below, with the exact condition unless it says
otherwise.

* Dropping a duplicate that compression had made smaller forgets what was saved, and the reported
  sizes no longer add up; with a duplicate that forced compression had made larger they add up to
  too much. `AddDbData` says for each call, by what holds before it, when this happens, and
  `DuplicateLosesSaving` shows it. Without per-file compression the sizes always add up (`PlainRun`).
* The expansion guard compares names without regard to case and without regard to whether they
  name a define or an environment variable. After `!define D "$"` and `!define PATH "${D}%PATH%"`
  the reference `${PATH}` gives the text `$%PATH%`, although plain substitution would give the
  variable (`SharedArises`, `SharedNameIsRefused`); a definition that uses the counter can meet
  itself and still come to an end (`CountingArises`, `CountedNameIsRefused`). A line like
  `!define PATH "$%PATH%"` is not affected: it is expanded before it defines anything
  (`PlainDefineStoresValue`). Where names can be told apart and the counter is not used, both of
  which can be read off the line and the values, the guard is exact (`GuardDecides`); that this is
  needed is shown by the two examples only.
* Odd creation data before the last dialog item can make `Save` and `GetSize` disagree. They
  agree exactly if `SizesAgree` holds, which follows both positions through the sizes of the items;
  without odd data it always does, with an odd number of items with odd data before the last it
  never does (`GetSize`, `OddCountDisagrees`, `OddDataOverruns`).
* Setting a font also sets a character set, which a standard dialog cannot hold. The saved dialog
  then comes back without it, and an extended one as it was (`AddFont`, `FontSurvives`). Every
  template that was parsed and not edited comes back, if its sizes agree (`ParseSaveAndParse`).
* A second `!else`, or an `!else if` behind an `!else`, is an error exactly if the first `!else` was
  run; if an earlier branch was, it is passed over (`ItemsRefine`, `ParseLines`).
* A label that the enclosing function does not declare can resolve to a label at the start of the
  next block (`ResolveLabel`, `NextFunctionsLabel`).
* A token that ends in `$\` swallows the quotation mark that closes it (`RoundTrip` of the
  tokenizer).
* The wildcard matcher misses matches (`MatcherIsIncomplete`). For an asterisk and an ending it is
  exact if and only if the first character of the ending does not come again in it (`ExactEndings`).

Some functions would misbehave on arguments that nothing in the compiler gives them:

* The resource editor looks up a type written `#n` as a number but would insert it as a string,
  where it is lost (last clause of `ResourceEditor.Set`). `ParseResourceTypeString`, which reads the
  types in a script, turns such a text into a number or refuses it, and all other callers pass
  numbers.
* The loop behind relative jumps would land one instruction short going back from an entry
  that does not begin its instruction (`JumpIsExact`). Commands put jumps into their first entry
  only, which `JumpLinking.Compiler` keeps as an invariant, so that `ResolveJump` has no exception.
* `StringList::delbypos` copies from beyond the end of the list exactly if the string is not the
  last one (`DeletionOverruns`). Expansion deletes only the last one, as `AddReference` proves.
* A standard dialog with the style 0xFFFF0001 would be parsed as an extended one, and creation data
  of 65534 bytes would disappear (`RoundTrip`). No parsed template has either
  (`ParsedIsWellFormed`), setting a font cannot make that style, and the one item that a command
  adds has no creation data.

## Model

| member | source | states |
|---|---|---|
| `ResourceTree.Find` | nsis-3.10-src/Source/ResourceEditor.cpp:1347-1375 | the linear search finds the position of the entry with exactly this name, where a string `#n` stands for the number n, and -1 if there is none |
| `ResourceTree.LessAtDifference` | nsis-3.10-src/Source/winchar.cpp:87-94 | the order of names is that of their first difference, where the smaller character or the end comes first |
| `ResourceTree.CanonicalNumber` | nsis-3.10-src/Source/ResourceEditor.cpp:1347-1375 | `#` and decimal digits, with or without a minus sign, stand for the number, counted in 16 bits |
| `ResourceTree.AddEntry` | nsis-3.10-src/Source/ResourceEditor.cpp:1306-1329 | an entry goes in exactly if its name is new; strings, ascending by their first difference, stay before numbers, ascending by size; the right counter goes up, nothing else moves |
| `ResourceTree.ChildInserted` | nsis-3.10-src/Source/ResourceEditor.cpp:1306-1329 | looking up any name after an insertion gives the new child for the new name and the old answer for every other |
| `ResourceTree.ChildRemoved` | nsis-3.10-src/Source/ResourceEditor.cpp:1331-1338 | looking up any name after a removal gives nothing for the removed name and the old answer for every other |
| `ResourceEditor.ResourceEditor.Set` | nsis-3.10-src/Source/ResourceEditor.cpp:361-461 | for every type that is a number or a string not starting with `#`, a raw-mode update makes the tree map (type, name, language) to the data and changes no other key; order, counters and absence of empty directories are kept for any type; what happens to a new `#n` is stated exactly as well |
| `ResourceEditor.ParseResourceTypeString` | nsis-3.10-src/Source/ResourceEditor.cpp:134-165 | whatever a script gives as a type, what is accepted is looked up and inserted under the same name: a text with `#` ends as a nonzero number or is refused, any other text is itself |
| `ResourceEditor.ResourceEditor.Delete` | nsis-3.10-src/Source/ResourceEditor.cpp:361-461 | a deletion succeeds exactly if the key is present, removes that key alone, and leaves no empty directory |
| `ResourceEditor.ResourceEditor.FindAnyLanguage` | nsis-3.10-src/Source/ResourceEditor.cpp:317-335 | the search for any language answers with a language that is present, and fails exactly if there is none |
| `ResourceEditor.ResourceEditor.DeleteAllLanguages` | nsis-3.10-src/Source/ResourceEditor.cpp:499-511 | deleting all languages terminates, reports whether there was one, leaves none and touches no other key |
| `ResourceEditor.GetPut` | nsis-3.10-src/Source/ResourceEditor.cpp:361-461 | three nested directory changes change exactly one of all (type, name, language) keys |
| `ResourceEditor.SoundIsStorable` | nsis-3.10-src/Source/ResourceEditor.cpp:361-461 | a tree of the editor whose names and data the format can hold, and whose counters fit 16 bits, can be saved |
| `ResourceEditor.Run` | nsis-3.10-src/Source/ResourceEditor.cpp:361-461 | after any sequence of updates and deletions every key maps to what its last edit says, all others to what they did, and the tree can still be saved if its counters fit 16 bits |
| `ResourceLayout.RegionsFit` | nsis-3.10-src/Source/ResourceEditor.cpp:1377-1392 | the bytes of all directories, data entries, names and aligned data blocks of any tree together never exceed what `GetSize` computes, which counts at most the names once more on top |
| `ResourceWriter.WriteDirectories` | nsis-3.10-src/Source/ResourceEditor.cpp:1132-1179 | the queue-driven breadth-first pass places every directory and entry of the tree once, without overlap, and queues every leaf and name |
| `ResourceSection.WriteLeaves` | nsis-3.10-src/Source/ResourceEditor.cpp:1181-1195 | the pass over the data queue gives every leaf its own data entry after the directories |
| `ResourceSection.WriteNames` | nsis-3.10-src/Source/ResourceEditor.cpp:1197-1214 | the pass over the name queue stores every name once, aligned, and patches the entry that waits for it |
| `ResourceSection.WriteRaws` | nsis-3.10-src/Source/ResourceEditor.cpp:1217-1231 | the last pass stores every data block aligned after the names and patches its address into the data entry |
| `ResourceRoundTrip.SetOffsets` | nsis-3.10-src/Source/ResourceEditor.cpp:1234-1247 | the recursive pass makes every entry point at its directory or data entry, with the high bit telling which, and disturbs nothing written before |
| `ResourceRoundTrip.DirectoryReads` | nsis-3.10-src/Source/ResourceEditor.cpp:1052-1128 | a finished block, with its patched words, describes to an offset-following reader the tree it was written from |
| `ResourceRoundTrip.WriteRsrcSec` | nsis-3.10-src/Source/ResourceEditor.cpp:1132-1231 | any storable tree fits in the block and the block describes exactly that tree; every directory, entry, leaf and name of the tree has its place with its final bytes, in four regions that follow one another, objects apart within each, names in steps of four and data in steps of eight bytes, all within what `GetSize` computes |
| `ResourceRoundTrip.GetSize` | nsis-3.10-src/Source/ResourceEditor.cpp:1377-1392 | the recursive size is the size of the layout |
| `ResourceScan.ScanEntry` | nsis-3.10-src/Source/ResourceEditor.cpp:1068-1125 | one entry is rebuilt with its name, and with its data and code page or its directory |
| `ResourceScan.ScanDirectory` | nsis-3.10-src/Source/ResourceEditor.cpp:1052-1128 | on a block that describes a storable tree the recursive scan terminates without error and rebuilds that tree: order, names, numbers, bytes, code pages |
| `ResourceScan.AppendNext` | nsis-3.10-src/Source/ResourceEditor.cpp:1120-1122 | while scanning a sorted directory the sorted insertion always appends |
| `ResourceRoundTrip.SaveAndLoad` | nsis-3.10-src/Source/ResourceEditor.cpp:1052-1247 | writing into a block of `GetSize` bytes, whatever it held, and scanning it gives the tree back |
| `ResourceRoundTrip.EditAndReload` | nsis-3.10-src/Source/ResourceEditor.cpp:361-461 | from the tree of an executable through any sequence of edits, saving and scanning: the scanned tree maps every key to what its last edit says, and all others to what they did |
| `LzmaSession.PumpFaithful` | nsis-3.10-src/Source/clzma.cpp:250-288 | running the encoder until it must wait keeps both streams in agreement with the data and the script, and stops only at an exhausted input, a full output or the end |
| `LzmaSession.FinishedStream` | nsis-3.10-src/Source/clzma.cpp:250-335 | a finished session holds all the encoder writes for the data, and the encoder has read exactly the data |
| `LzmaSession.CallCode` | nsis-3.10-src/Source/clzma.cpp:250-335 | the code of every call: `Finished` exactly if it finishes the session with the whole output written, an I/O error exactly if the encoder fails or is called again without what it waits for, `Ok` exactly if there is more to do; on a finished session a flush is fine, anything else a bad call, and nothing changes |
| `LzmaProtocol.StepKeepsInv` | nsis-3.10-src/Source/clzma.cpp:178-427 | every step of either thread keeps the protocol invariant |
| `LzmaProtocol.TurnIsExclusive` | nsis-3.10-src/Source/clzma.cpp:178-427 | in every reachable state at most one side is about to touch the shared fields |
| `LzmaProtocol.NeverStuck` | nsis-3.10-src/Source/clzma.cpp:218-345 | in every reachable state one side can move; both never wait with both events clear; the wait in `Compress` is never ended by the thread handle |
| `LzmaProtocol.WaitEnds` | nsis-3.10-src/Source/clzma.cpp:218-345 | from every reachable wait, in `Compress` or in the join of `End`, every schedule gets the caller past it in a bounded number of steps; after the join the worker is gone, also for an unfinished session |
| `LzmaProtocol.CompressRefines` | nsis-3.10-src/Source/clzma.cpp:290-335 | in every interleaving a `Compress` call that returns has had exactly the effect and result of the sequential call |
| `LzmaProtocol.CodesOverRuns` | nsis-3.10-src/Source/clzma.cpp:290-335 | at the end of any run of a caller that keeps the contract, in every interleaving, `Compress` returns `Finished` exactly if it has finished the session, with the whole output written, and `Ok` otherwise |
| `LzmaProtocol.InitStartsOver` | nsis-3.10-src/Source/clzma.cpp:178-249 | `Init` in any reachable state and every interleaving ends the old thread and leaves a session with nothing read, nothing written and no buffers |
| `LzmaProtocol.EndStops` | nsis-3.10-src/Source/clzma.cpp:218-249 | `End` leaves no thread and no buffers behind, reads and writes nothing more, and finishes the session of a running thread |
| `LzmaProtocol.StreamsArePrefixes` | nsis-3.10-src/Source/clzma.cpp:347-427 | over every run of every caller that keeps the contract: bytes read are a prefix of the data, bytes written a prefix of the encoder's output, no call fails, and a finished compressor has read and written everything |
| `Datablock.CallProgress` | nsis-3.10-src/Source/clzma.cpp:290-335 | a call with input or a flush, and room, succeeds, accounts for every byte of input and output, and returns `Finished` exactly if the stream is complete, else `Ok` |
| `Datablock.Feed` | nsis-3.10-src/Source/build.cpp:893-917 | the first chunk loop, for any chunk size, hands every byte over once or fills the output |
| `Datablock.Drain` | nsis-3.10-src/Source/build.cpp:919-944 | the flushing loop ends with the stream finished or the output full |
| `Datablock.CompressFile` | nsis-3.10-src/Source/build.cpp:893-966 | the compressed form is used exactly if the complete stream leaves room in the buffer and is forced or shorter than the file, and it is then the complete stream |
| `Datablock.PlaceKeeps` | nsis-3.10-src/Source/build.cpp:751-806 | sharing or appending a record keeps all stored bytes in place, and adding the record again costs nothing and gives the same handle |
| `Datablock.PlaceMeans` | nsis-3.10-src/Source/build.cpp:751-1002 | after placing a record its length word and payload are in the block at the handle; the block grows by them unless sharing is allowed and the cache knows an equal record |
| `Datablock.SameBytes` | nsis-3.10-src/Source/build.cpp:777-790 | the chunked comparison of two stretches of the block decides their equality, for any chunk size |
| `Datablock.Optimize` | nsis-3.10-src/Source/build.cpp:751-806 | appending, searching the cache and cutting back equals sharing the first equal cached record or else keeping the new one |
| `Datablock.RecordDecodes` | nsis-3.10-src/Source/build.cpp:841-1002 | a stored length word, compressed bit and payload decode to the file |
| `Datablock.Builder.SetUninstallMode` | nsis-3.10-src/Source/build.cpp:3363-3407 | switching the mode swaps all counters, keeps both blocks and every handle |
| `Datablock.Builder.AddDbData` | nsis-3.10-src/Source/build.cpp:841-1002 | after any sequence of calls and mode switches every handle ever returned decodes to its file; a nonempty file is stored compressed exactly if its stream is shorter, or, when forced, shorter than 1024 bytes and five quarters of the file, and the record at the handle says so; an equal record is shared; both savings change by exactly what was saved; block length and savings still balance the full size exactly unless the file is stored compressed, at another size, and an equal record is shared; the other side is untouched |
| `Datablock.PlainRun` | nsis-3.10-src/Source/build.cpp:751-1002 | over every sequence of additions and mode switches from an empty compiler, without per-file compression: on both sides block length plus what sharing saved is the full size, and every handle decodes to its file |
| `Datablock.DuplicateLosesSaving` | nsis-3.10-src/Source/build.cpp:955-966 | a concrete file added twice, compressed and optimized, after which block and savings fall short of the full size |
| `LangTable.Fill` | nsis-3.10-src/Source/lang.cpp:534-613 | the fill loop terminates for any finite universe of names; at its end every text is what it was or, for counted built-in strings without one, the default; every string in use with a text has its slot set in every language, so these defaults are emitted; what emitted texts mention is in use, and counted if it is built in; references stay in the table |
| `LangTable.AddStringGrows` | nsis-3.10-src/Source/build.cpp:494-532 | emitting a text only adds names to the list in use, so indices handed out stay valid |
| `LangReferences.ResolveSlot` | nsis-3.10-src/Source/lang.cpp:620-653 | chasing one chain with the list of visited references ends, changes only its own slot, and reports an error only for a real cycle, although earlier slots were overwritten |
| `LangReferences.ResolveTable` | nsis-3.10-src/Source/lang.cpp:615-654 | resolution of a table fails exactly if its direct references are cyclic; otherwise every slot ends non-negative and equal to the end of its original chain |
| `LangReferences.ResolveAll` | nsis-3.10-src/Source/lang.cpp:615-654 | the same over all tables |
| `LangReferences.EndIsUnique` | nsis-3.10-src/Source/lang.cpp:615-654 | the end of a chain is unique, so the resolved value is determined by the original table |
| `LangTable.Generate` | nsis-3.10-src/Source/lang.cpp:534-654 | filling and resolving together, from any state between two passes: texts and defaults as in `Fill`; an error exactly if the filled references of some language are cyclic, otherwise every slot of every language ends with the value its chain leads to |
| `Conditionals.Preprocessor.Parse` | nsis-3.10-src/Source/script.cpp:205-450 | the method over the block stack does line by line what the flat machine does, and stops at the first failing line |
| `Conditionals.SkipItems` | nsis-3.10-src/Source/script.cpp:165-189 | in an ignored region a nested script executes nothing, evaluates nothing and leaves the open blocks as they were |
| `Conditionals.TakenRest` | nsis-3.10-src/Source/script.cpp:342-371 | once a branch was taken, all later branches of the block are passed over without evaluating a condition |
| `Conditionals.ItemsRefine` | nsis-3.10-src/Source/script.cpp:342-450 | for every nested script, with any number of branches in any order, the flat `hasexeced`/`elseused`/`ignore`/`inherited_ignore` machine executes exactly the lines and evaluates exactly the conditions of the recursive interpreter, in its order, with its outcome; a branch after an unconditional one that was run is an error, after one that was passed over it is not |
| `Conditionals.ParseScript` | nsis-3.10-src/Source/script.cpp:147-157 | a well-nested script that succeeds ends with no block open |
| `Conditionals.ParseLines` | nsis-3.10-src/Source/script.cpp:147-450 | for any lines at all: they are accepted exactly if they are a nested script on which the nested interpreter succeeds, and what is executed and evaluated is then what it does |
| `Conditionals.BalancedIsNested` | nsis-3.10-src/Source/script.cpp:147-157 | lines in which every block is ended and every branch is in a block are a nested script |
| `StringLists.StringList.Find` | nsis-3.10-src/Source/strlist.cpp:211-244 | the scan over the NUL-separated buffer finds the first string the search mode accepts, its position and number, and fails exactly if there is none |
| `StringLists.StringList.Add` | nsis-3.10-src/Source/strlist.cpp:203-208 | a string is appended exactly if the search does not find it |
| `StringLists.StringList.DelByPos` | nsis-3.10-src/Source/strlist.cpp:247-258 | removing the last string restores the list |
| `StringLists.DeletionOverruns` | nsis-3.10-src/Source/strlist.cpp:247-258 | deleting string k moves something, and then reads beyond the end of the list, exactly if the string is not the last one |
| `Expansion.Smaller` | nsis-3.10-src/Source/script.cpp:471-637 | why expansion ends: a defined name is used up by its own expansion, and a text that comes from no definition is no longer than its name |
| `Expansion.Preprocessor.AddToLine` | nsis-3.10-src/Source/script.cpp:471-637 | expansion terminates for every line and every finite, possibly mutually recursive set of definitions, leaves the history list exactly as it found it, and appends what the recursive reading of the line means |
| `Expansion.Preprocessor.AddReference` | nsis-3.10-src/Source/script.cpp:505-601 | a reference is replaced exactly if something is known by its expanded name and that name is not being expanded; the entry deleted from the history is the one added last |
| `Expansion.PlainText` | nsis-3.10-src/Source/script.cpp:471-637 | text without a dollar sign is kept |
| `LineMeaning.Escapes` | nsis-3.10-src/Source/script.cpp:491-501 | a dollar sign, a backslash and `r`, `n` or `t` give a carriage return, a newline or a tabulator; before anything else both characters are kept |
| `LineMeaning.NamesExpand` | nsis-3.10-src/Source/script.cpp:505-601 | `${NAME}` gives the define of that name in any case, before anything else, and `$%NAME%` the variable of exactly that name; without one the text stays |
| `LineMeaning.BraceCloses` | nsis-3.10-src/Source/script.cpp:505-515 | a name ends at the first closing brace that closes none of the braces opened in it |
| `LineMeaning.CounterExpands` | nsis-3.10-src/Source/script.cpp:526-537 | the counter gives how often it was used before, in decimal digits without leading zeros, and counts |
| `LineMeaning.CodePointExpands` | nsis-3.10-src/Source/script.cpp:538-563 | `${U+...}` gives the character of that number; anything but digits, and zero, leaves the text |
| `LineMeaning.CodePointReads` | nsis-3.10-src/Source/script.cpp:538-563 | hexadecimal digits name the character of their value, surrogates and values beyond the last plane the replacement character |
| `Expansion.GuardSilent` | nsis-3.10-src/Source/script.cpp:544-568 | where the guard refused no name, substitution without any guard stops, with the same text |
| `Expansion.Unblocked` | nsis-3.10-src/Source/script.cpp:544-568 | where substitution without a guard stops, the guard refuses nothing, if names can be told apart and the counter is not used |
| `Expansion.GuardIsExact` | nsis-3.10-src/Source/script.cpp:544-568 | if no two things that can be referred to have names that differ in case or kind alone: where plain substitution stops without using the counter, the guard refuses nothing and the text is the same; where the guard refuses nothing, plain substitution stops with the same text |
| `Expansion.GuardDecides` | nsis-3.10-src/Source/script.cpp:530-568 | if no two things that can be referred to have names that differ in case or kind alone, and `__COUNTER__` is defined or neither in the line nor in any value: the guard refuses a name exactly if plain substitution never stops, and otherwise both give the same text |
| `Expansion.SharedNameIsRefused` | nsis-3.10-src/Source/script.cpp:588-601 | a concrete environment in which the guard refuses what would have stopped, because names that differ in case and kind are the same to it: a define that holds the environment variable of its own name |
| `Expansion.SharedArises` | nsis-3.10-src/Source/script.cpp:668-677 | two `!define` lines that make that environment, by assembling the dollar sign |
| `Expansion.PlainDefineStoresValue` | nsis-3.10-src/Source/script.cpp:668-677 | a `!define` line that mentions the variable directly stores its value instead |
| `Expansion.CountedNameIsRefused` | nsis-3.10-src/Source/script.cpp:530-537 | a concrete environment in which the counter leads to a refusal, although every name differs when it is looked up |
| `Expansion.CountingArises` | nsis-3.10-src/Source/script.cpp:668-677 | four `!define` lines that make that environment |
| `DialogTemplate.ReadVarLenArr` | nsis-3.10-src/Source/DialogTemplate.cpp:49-69 | the seeker loop reads nothing, an ordinal or a terminated text and stops behind it |
| `DialogLayout.SavedLayout` | nsis-3.10-src/Source/DialogTemplate.cpp:508-637 | every field of a saved template lies at the offset that DLGTEMPLATE, DLGTEMPLATEEX, DLGITEMTEMPLATE and DLGITEMTEMPLATEEX give it; creation data comes behind a word for its size, which counts itself unless there is no data |
| `DialogLayout.ClassForTarget` | nsis-3.10-src/Source/DialogTemplate.cpp:607-615 | a class named RichEdit20A in any case is saved as RichEdit20W for a Unicode target, the other way round otherwise, and nothing else changes |
| `DialogRoundTrip.VarLenBack` | nsis-3.10-src/Source/DialogTemplate.cpp:49-86 | an array written down reads back as itself exactly if it is nothing, a nonzero ordinal or a nonempty text not starting with 0xFFFF |
| `DialogTemplate.CDialogTemplate.constructor` | nsis-3.10-src/Source/DialogTemplate.cpp:94-221 | parsing any complete bytes gives the template in them: both header forms, optional font, aligned items |
| `DialogTemplate.CDialogTemplate.GetSize` | nsis-3.10-src/Source/DialogTemplate.cpp:640-671 | the size is that of the saved bytes exactly if `SizesAgree`, a condition on the sizes of the items alone |
| `DialogTemplate.CDialogTemplate.Save` | nsis-3.10-src/Source/DialogTemplate.cpp:508-637 | where the sizes agree, as the source asserts, the buffer is filled exactly, with the image of the template |
| `DialogTemplate.AlignedIffEven` | nsis-3.10-src/Source/DialogTemplate.cpp:577-580 | all items of the saved bytes lie at multiples of four exactly if no creation data but the last is odd |
| `DialogTemplate.OddDataOverruns` | nsis-3.10-src/Source/DialogTemplate.cpp:577-671 | a concrete dialog with odd creation data for which one byte more is saved than `GetSize` computes |
| `DialogTemplate.PhaseIsRight` | nsis-3.10-src/Source/DialogTemplate.cpp:577-671 | after any number of items, the saved position modulo four and its distance from the computed size are what following the item sizes gives |
| `DialogTemplate.OddCountDisagrees` | nsis-3.10-src/Source/DialogTemplate.cpp:577-671 | with an odd number of items with odd creation data before the last, the saved bytes never have the computed size |
| `DialogTemplate.EvenAgrees` | nsis-3.10-src/Source/DialogTemplate.cpp:577-671 | without odd creation data before the last item they always do |
| `DialogRoundTrip.ItemBack` | nsis-3.10-src/Source/DialogTemplate.cpp:151-220 | an item reads back as itself exactly if its arrays are storable, its creation data is not 65534 bytes long and only extended items have a help id |
| `DialogRoundTrip.RoundTrip` | nsis-3.10-src/Source/DialogTemplate.cpp:94-221 | parsing what was saved gives the template back, up to the rich edit class of the target, exactly if it is well formed |
| `DialogRoundTrip.ParsedIsWellFormed` | nsis-3.10-src/Source/DialogTemplate.cpp:94-221 | whatever bytes it was parsed from, a template is well formed |
| `DialogRoundTrip.FontSurvives` | nsis-3.10-src/Source/DialogTemplate.cpp:283-292 | a template with a font set comes back whole exactly if it is an extended one and the name of the font can be told apart from nothing and from an ordinal |
| `DialogTemplate.SaveAndParse` | nsis-3.10-src/Source/DialogTemplate.cpp:508-637 | saving and parsing, end to end |
| `DialogTemplate.ParseSaveAndParse` | nsis-3.10-src/Source/DialogTemplate.cpp:94-637 | any bytes that parse, saved and parsed again, give the same template up to the rich edit class, if the sizes agree |
| `DialogTemplate.CDialogTemplate.SetFont` | nsis-3.10-src/Source/DialogTemplate.cpp:283-292 | style bits, face, size and character set are those of a template with this font, nothing else changes |
| `DialogTemplate.AddFont` | nsis-3.10-src/Source/lang.cpp:707-718 | parsing, setting a font and saving: the bytes hold the parsed dialog with that font, an extended one with its character set and a standard one without |
| `JumpLinking.MarkedMore` | nsis-3.10-src/Source/build.cpp:1381-1397 | the entry map stays right whatever is added: an entry is marked as a continuation exactly if the entry before it belongs to the same command |
| `JumpLinking.OrdinalIsOwner` | nsis-3.10-src/Source/build.cpp:1381-1397 | two entries are in the same instruction by the map exactly if the same command added them |
| `JumpLinking.ResolveRelative` | nsis-3.10-src/Source/build.cpp:1417-1440 | a relative jump goes to the first entry of the instruction it counts to, or to the position outside the program that stands for it |
| `JumpLinking.SignedNumberReads` | nsis-3.10-src/Source/build.cpp:1417-1440 | the number behind the sign is read in decimal |
| `JumpLinking.JumpIsExact` | nsis-3.10-src/Source/build.cpp:1417-1440 | the bare loop with `+n` and `-n` reaches instruction k+n and k-n, when it exists, exactly unless the jump goes back from an entry that does not begin its own instruction |
| `JumpLinking.FirstReaches` | nsis-3.10-src/Source/build.cpp:1417-1440 | where jumps are only in entries that begin an instruction, as all commands put them, every jump reaches the first entry of the instruction it counts to, forward and back |
| `JumpLinking.Compiler.AddEntry` | nsis-3.10-src/Source/build.cpp:1381-1397 | an entry is added exactly if a block is open, with the right mark; jumps stay in entries that begin an instruction |
| `JumpLinking.Compiler.CloseBlock` | nsis-3.10-src/Source/build.cpp:1181-1252 | an open block is ended exactly by the command of its kind, with its return, which a function counts and a section does not |
| `JumpLinking.Compiler.AddLabel` | nsis-3.10-src/Source/build.cpp:1069-1122 | a label is accepted exactly if its first character allows it, a block is open and the name is new in the block, or new altogether for a global one |
| `JumpLinking.LabelRules` | nsis-3.10-src/Source/build.cpp:1069-1122 | labels are refused by their first character, lose a colon at the end, are global with a dot in front, and compare without regard to case |
| `JumpLinking.Compiler.ResolveLabel` | nsis-3.10-src/Source/build.cpp:1441-1480 | resolution succeeds exactly if the label is global and declared, or declared in the block, or, behind a function, declared at the first position of the next block; a label declared in the block resolves to that declaration |
| `JumpLinking.NextFunctionsLabel` | nsis-3.10-src/Source/build.cpp:1441-1480 | two concrete functions, a jump in the first of which finds a label declared only in the second |
| `JumpLinking.Compiler.ResolveJump` | nsis-3.10-src/Source/build.cpp:1412-1484 | a relative target is the first entry of the instruction it counts to, whenever there is one; a label resolves as `ResolveLabel` says, and every entry with a jump begins its instruction |
| `StringTable.ExeHeadStringList.Find` | nsis-3.10-src/Source/strlist.cpp:101-165 | the search fails exactly if no stored string ends with the text; otherwise the text can be read from the position found |
| `StringTable.ExeHeadStringList.Add` | nsis-3.10-src/Source/strlist.cpp:167-200 | the text can be read from the returned position, and the table grows exactly if no stored string ends with it |
| `StringTable.ExeHeadStringList.AddAll` | nsis-3.10-src/Source/strlist.cpp:167-200 | over any sequence of additions every position ever returned keeps reading as its text |
| `StringTable.ExeHeadStringList.GetNum` | nsis-3.10-src/Source/strlist.cpp:34-58 | the number of stored strings and the empty one |
| `Tokenizer.LineParser.FillToken` | nsis-3.10-src/Source/lineparse.cpp:377-394 | the filling loop ends with exactly the counted characters |
| `Tokenizer.LineParser.DoLine` | nsis-3.10-src/Source/lineparse.cpp:308-404 | one pass, with or without a token array, yields count, comment states and error of the line's grammar, and with an array its tokens |
| `Tokenizer.LineParser.Parse` | nsis-3.10-src/Source/lineparse.cpp:55-73 | for every line and starting state the two passes agree, so the second cannot fail and fills the array exactly |
| `LineGrammar.LineReads` | nsis-3.10-src/Source/lineparse.cpp:308-404 | a line spelled out of words, tokens in any of the three quotation marks with their own mark escaped, and comment blocks, with blanks between them, and ending in nothing, a comment, an open comment block or an open quotation, is read as exactly these tokens, with this state and error |
| `LineGrammar.BlockLineReads` | nsis-3.10-src/Source/lineparse.cpp:316-329 | a line that starts inside of a comment block is read from behind the end of the block |
| `Tokenizer.LexLine` | nsis-3.10-src/Source/lineparse.cpp:308-404 | quoted tokens anywhere in a line read back exactly if none ends in `$\` |
| `Tokenizer.RoundTrip` | nsis-3.10-src/Source/lineparse.cpp:308-404 | tokens without quotation marks, written in double quotes with blanks between, are read back exactly if none ends in `$\` |
| `Icons.SizesAreUnique` | nsis-3.10-src/Source/icon.cpp:219-229 | the sizes of a sorted group do not depend on the order of ties |
| `Icons.GetIconOrder` | nsis-3.10-src/Source/icon.cpp:248-298 | the two loops pair the i-th largest images and size every slot for the larger of its pair |
| `Icons.GenerateIconGroup` | nsis-3.10-src/Source/icon.cpp:301-328 | entry j describes image j and names the slot the order gives it; no two entries share a slot |
| `Icons.IconResources.SetMainIcon` | nsis-3.10-src/Source/icon.cpp:331-368 | every slot holds the installer's image, filled up to the size of the slot |
| `Icons.InstallerImagesAreInPlace` | nsis-3.10-src/Source/icon.cpp:331-368 | every entry of the installer's group leads to its image |
| `Icons.GenerateUninstallIconData` | nsis-3.10-src/Source/icon.cpp:372-428 | the data is the group and the images in the order of their slots, and exactly as long as the size computed for it |
| `Icons.GroupLayout` | nsis-3.10-src/Source/icon.cpp:301-328 | a group resource in bytes: reserved word, type, count, and for each image its properties, size and slot number at their offsets; the rest is zero |
| `Icons.UninstallerImagesFit` | nsis-3.10-src/Source/icon.cpp:372-479 | every uninstaller image fits in its slot, however ties were ordered on either side |
| `Icons.SizeCheckNeverFails` | nsis-3.10-src/Source/icon.cpp:466-471 | so in an executable with the slots as `SetMainIcon` fills them the check of the sizes cannot fail |
| `Icons.GenerateUniconsOffsets` | nsis-3.10-src/Source/icon.cpp:432-479 | the walk over the data succeeds exactly if every image up to the first empty one fits in an existing slot; it then writes the offset of each slot and changes nothing else |
| `Icons.PrepareIcons` | nsis-3.10-src/Source/build.cpp:3105-3106 | filling the slots, making the uninstaller data and patching its offsets, run one after the other on any two icons, never fails |
| `Wildcards.Matches` | nsis-3.10-src/Source/dirreader.cpp:61-131 | the matcher terminates, by last asterisk, last good position and position in the name, and computes its run; what it accepts matches the spec up to dots and asterisks at its end; it is exact without an asterisk, and for an asterisk and an ending whose first character does not come again |
| `Wildcards.MatchesIsSound` | nsis-3.10-src/Source/dirreader.cpp:61-131 | a name that is accepted matches the spec, up to dots and asterisks at its end |
| `Wildcards.NoStarIsExact` | nsis-3.10-src/Source/dirreader.cpp:61-131 | for specs without an asterisk it accepts exactly those |
| `Wildcards.PlainSpecs` | nsis-3.10-src/Source/dirreader.cpp:61-131 | without an asterisk a name is accepted exactly if it agrees with the spec character by character, with a question mark or the same letter in any case, up to dots at the end of the spec |
| `Wildcards.GlobConcat` | nsis-3.10-src/Source/dirreader.cpp:61-131 | what a spec means, part by part: a spec in two parts matches exactly the names in two parts |
| `Wildcards.StarEndingIsExact` | nsis-3.10-src/Source/dirreader.cpp:61-131 | for an asterisk and an ending whose first character does not come again it accepts exactly the names with that ending |
| `Wildcards.ExactEndings` | nsis-3.10-src/Source/dirreader.cpp:61-131 | for an asterisk and any ending without special characters, what is accepted has the ending, and every name with the ending is accepted exactly if the first character of the ending does not come again in it |
| `Wildcards.MatcherIsIncomplete` | nsis-3.10-src/Source/dirreader.cpp:61-131 | `*aab` matches `aaab`, but is not accepted |
| `Wildcards.DirReader.IsExcluded` | nsis-3.10-src/Source/dirreader.cpp:145-165 | a name is excluded exactly if it equals an excluded name, ignoring case, or an excluded spec accepts it |
| `Crc32.BitsAtOnce` | nsis-3.10-src/Source/crc32.c:36-41 | exclusive-or of several bits and that many shifts is feeding the bits one by one |
| `Crc32.TableStep` | nsis-3.10-src/Source/crc32.c:44-47 | one table look-up is eight steps of the bit by bit definition |
| `Crc32.CheckValue` | nsis-3.10-src/Source/crc32.c:26-48 | the published check value of the checksum, for the text 123456789 |
| `Crc32.PolynomialTerms` | nsis-3.10-src/Source/crc32.c:36-41 | the polynomial by its terms |
| `Crc32.Checksum.FillTable` | nsis-3.10-src/Source/crc32.c:30-42 | every table entry is eight shifts of its index |
| `Crc32.Checksum.CRC32` | nsis-3.10-src/Source/crc32.c:26-48 | the table-driven checksum equals the bit by bit definition in section 8 of RFC 1952 for every input and start value |
| `Crc32.Chained` | nsis-3.10-src/Source/crc32.c:26-48 | the checksum of a concatenation is that of the second part started with that of the first |
| `Crc32.Checksum.WriteBlock` | nsis-3.10-src/Source/build.cpp:2914-2948 | checking and writing a block in pieces of any size gives its checksum |

## Left out

- Object identity in the resource tree: nodes are values and paths, so aliasing of subtrees is not captured; the writer's back-pointers become paths.
- `ResourceScan.ScanDirectory`: only blocks that describe a storable, sorted tree; sections of any other form, which the source rejects with exceptions or sorts while scanning, and scanning with `bKeepData` off.
- `ResourceRoundTrip.EditAndReload`: the tree at the start has the three levels the editor works on, and no empty directories; trees with counters beyond 16 bits or too big for their section are not written.
- `ResourceEditor`: `_tcstoul`, which reads a number in a type, is a parameter; case is folded for ASCII.
- `CResourceEditor::Save`, icon and cursor manipulation modes, and the relocation of sections behind the resource section.
- The resource counters are not reduced to 16 bits; trees beyond that are excluded by `Storable`.
- Failures to create threads or events and of `WaitForSingleObject` itself; the POSIX and Win32 event calls are one abstract event.
- The LZMA encoder, zlib and bzip2: an encoder is the list of requests it makes for a file.
- `Datablock.Builder.AddDbData`: files that push the block past the signed 32-bit range are excluded, and with them the early search for duplicates and the block left grown on that error path; memory mapping is a sequence.
- Language strings: the processing of a text into stored codes is a parameter (its mentions and its nonzero offset); names of the default language and `LANG_NAME` special cases are not modelled.
- `Conditionals`: executing a line and evaluating a condition are parameters that may fail; line continuation, macros, files and the token check on ignored lines are not modelled.
- `Expansion`: wide characters are 32 bits, `unsigned long` has 32 bits, case is folded for ASCII, and white space that `strtoul` skips after `U+`, other than blank and tab, is not accepted. Compiled without `NSIS_FIX_DEFINES_IN_STRINGS`, its default.
- `Expansion.GuardIsExact`: for lines that leave the counter alone, because the guarded and the plain text of others differ by design; `CountedNameIsRefused` shows a case.
- `Expansion.GuardDecides`: the condition is sufficient; that ambiguous names or the counter can break it is shown by examples.
- `StringLists.StringList.DelByPos`: only the last string, since the source reads out of range otherwise.
- `StringTable`: code page and UTF-16 conversion happen before; `get`, whose bounds test rejects every valid offset, and positions beyond 32 bits.
- `DialogTemplate.CDialogTemplate.Save`: templates whose sizes disagree are excluded, as by the assertion at the end of the source; `OddDataOverruns` and `OddCountDisagrees` say what is written then.
- `DialogTemplate.AddFont`: an empty font name, which the compiler takes for none, and one that starts with the noncharacter U+FFFF are excluded; `FontSurvives` covers both.
- `DialogTemplate`: parsing requires complete bytes, since the source has no end to look for; editing operations, right-to-left conversion and unit conversion add only easy members.
- `Icons`: loading icon files, and the loop in `uninstall_generate` that patches them.
- `JumpLinking.Compiler.AddEntry`: in uninstall mode without an open block, where the source tests nothing and has no block to count for, it cannot be called; a continuation entry with jumps, which no command makes, is excluded.
- `JumpLinking`: reference counting of functions through global labels, calls, variables as targets, and `atoi` overflow. Relative jumps assume that the code ends with a return of its own, as every closed block does.
- `Tokenizer`: numbers and other readings of single tokens. Compiled with `NSIS_FIX_COMMENT_HANDLING`, its default.
- `Wildcards`: `tolower` is that of ASCII; reading directories.
- The instruction switch `doCommand`, pages, plug-ins, console and file output: many branches, each easy on its own.
